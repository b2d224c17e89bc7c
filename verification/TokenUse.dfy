/** What is accepted, and for how long: the other half of `Revocation`. */
module TokenUse {
  import opened Text
  import opened Pairing
  import opened Revocation

  // ─── a device nobody closes keeps its standing ───────────────────────────────

  /** Approved, and its tokens carry this version. */
  ghost predicate Standing(s: State, device: Id, version: nat) {
    device < s.next && device in s.devices && s.devices[device].status == Active && s.devices[device].tokenVersion == version
  }

  lemma SessionKeepsStanding(s: State, e: Event, device: Id, version: nat)
    requires Enabled(s, e) && BySession(e) && Standing(s, device, version)
    ensures Standing(Step(s, e), device, version)
  {
    hide MintOn, ClaimOn, ClaimEndsOn, ApproveOn, ApproveEndsOn, RejectOn, RevokeOn, DeleteOn, PruneOn, DeleteFolderOn, SetPermissionsOn;
  }

  lemma OperatorKeepsStanding(s: State, e: Event, device: Id, version: nat)
    requires Enabled(s, e) && ByOperator(e) && Standing(s, device, version) && !Closes(e, device)
    ensures Standing(Step(s, e), device, version)
  {
    hide DefaultPermissions, Upserted, MintOn, ClaimOn, ClaimEndsOn, PollOn, RefreshOn, IssueOn, PlayOn, DeleteOn, PruneOn, DeleteFolderOn, SetPermissionsOn;
  }

  lemma HousekeepingKeepsStanding(s: State, e: Event, device: Id, version: nat)
    requires Enabled(s, e) && ByHousekeeping(e) && Standing(s, device, version) && !Closes(e, device)
    ensures Standing(Step(s, e), device, version)
  {
    hide Upserted, MintOn, ClaimOn, ClaimEndsOn, PollOn, RefreshOn, IssueOn, PlayOn, ApproveOn, ApproveEndsOn, RejectOn;
  }

  lemma StepKeepsStanding(s: State, e: Event, device: Id, version: nat)
    requires Enabled(s, e) && Standing(s, device, version) && !Closes(e, device)
    ensures Standing(Step(s, e), device, version)
  {
    hide Step, Enabled;
    if ByClaim(e) {
      ClaimStep(s, e);
    } else if BySession(e) {
      SessionKeepsStanding(s, e, device, version);
    } else if ByOperator(e) {
      OperatorKeepsStanding(s, e, device, version);
    } else {
      HousekeepingKeepsStanding(s, e, device, version);
    }
  }

  predicate NobodyCloses(events: seq<Event>, device: Id) {
    forall e | e in events :: !Closes(e, device)
  }

  lemma {:induction false} EveryRunKeepsStanding(s: State, events: seq<Event>, device: Id, version: nat)
    requires Standing(s, device, version) && NobodyCloses(events, device)
    ensures Standing(Run(s, events), device, version)
    decreases |events|
  {
    hide Step, Enabled, Standing;
    if events != [] && Enabled(s, events[0]) {
      assert events[0] in events && forall e | e in events[1..] :: e in events;
      StepKeepsStanding(s, events[0], device, version);
      EveryRunKeepsStanding(Step(s, events[0]), events[1..], device, version);
    }
  }

  // ─── playback URLs ───────────────────────────────────────────────────────────

  /** A ticket says in the open what its signature was made of. */
  ghost predicate Honest(s: State) {
    forall ticket | ticket in s.record.tickets ::
      ticket.device == ticket.signature.device && ticket.expiresAt == ticket.signature.expiresAt
  }

  lemma SessionKeepsHonest(s: State, e: Event)
    requires Enabled(s, e) && BySession(e) && Honest(s)
    ensures Honest(Step(s, e))
  {
    hide MintOn, ClaimOn, ClaimEndsOn, ApproveOn, ApproveEndsOn, RejectOn, RevokeOn, DeleteOn, PruneOn, DeleteFolderOn, SetPermissionsOn;
  }

  lemma OtherTicketsStay(s: State, e: Event)
    requires Enabled(s, e) && !ByClaim(e) && !BySession(e)
    ensures Step(s, e).record.tickets == s.record.tickets
  {
    hide DefaultPermissions, Upserted, MintOn, ClaimOn, ClaimEndsOn, PollOn, RefreshOn, IssueOn, PlayOn;
  }

  lemma StepKeepsHonest(s: State, e: Event)
    requires Enabled(s, e) && Honest(s)
    ensures Honest(Step(s, e))
  {
    hide Step, Enabled;
    if ByClaim(e) {
      ClaimStep(s, e);
    } else if BySession(e) {
      SessionKeepsHonest(s, e);
    } else {
      OtherTicketsStay(s, e);
    }
  }

  lemma {:induction false} EveryRunKeepsHonest(s: State, events: seq<Event>)
    requires Honest(s)
    ensures Honest(Run(s, events))
    decreases |events|
  {
    hide Step, Enabled, Honest;
    if events != [] && Enabled(s, events[0]) {
      StepKeepsHonest(s, events[0]);
      EveryRunKeepsHonest(Step(s, events[0]), events[1..]);
    }
  }

  /** A URL that carries a signature handed out at any time before is accepted exactly for the file and
      the device it was signed for, with the expiry it was signed with, before that expiry, while the
      device is active at the version of that time. */
  lemma TicketAcceptedExactlyWhen(before: seq<Event>, issued: Ticket, after: seq<Event>, shown: Ticket, asked: Id, now: int)
    requires issued in Run(EMPTY, before).record.tickets && shown.signature == issued.signature
    ensures var s := Run(Run(EMPTY, before), after);
      VerifyTicket(s, shown, asked, now).None? <==>
        && asked == issued.signature.file && shown.device == issued.device && shown.expiresAt == issued.expiresAt
        && now < issued.expiresAt
        && issued.device in s.devices && s.devices[issued.device].status == Active
        && s.devices[issued.device].tokenVersion == issued.signature.version
  {
    hide Run;
    EveryRunKeepsHonest(EMPTY, before);
  }

  lemma PlayHandsOut(s: State, device: Id, file: Id, expiresAt: int)
    requires device in s.devices
    ensures Step(s, Play(device, file, expiresAt)).record.tickets
         == s.record.tickets + {Ticket(device, expiresAt, Signature(device, file, expiresAt, s.devices[device].tokenVersion))}
    ensures Step(s, Play(device, file, expiresAt)).devices == s.devices && Step(s, Play(device, file, expiresAt)).next == s.next
  {}

  /** A URL made for an active device plays that file, and nothing else, until it expires, whatever
      happens meanwhile short of closing the device. */
  lemma PlayedUntilExpiry(before: seq<Event>, device: Id, file: Id, expiresAt: int, after: seq<Event>, shown: Ticket, asked: Id, now: int)
    requires var s := Run(EMPTY, before); device in s.devices && s.devices[device].status == Active
    requires NobodyCloses(after, device)
    requires shown.signature == Signature(device, file, expiresAt, Run(EMPTY, before).devices[device].tokenVersion)
    ensures var played := Step(Run(EMPTY, before), Play(device, file, expiresAt));
      && Ticket(device, expiresAt, shown.signature) in played.record.tickets
      && (VerifyTicket(Run(played, after), shown, asked, now).None? <==>
            asked == file && shown.device == device && shown.expiresAt == expiresAt && now < expiresAt)
  {
    hide Run, Step;
    var s := Run(EMPTY, before);
    EveryRunIsWild(EMPTY, before);
    PlayHandsOut(s, device, file, expiresAt);
    var played := Step(s, Play(device, file, expiresAt));
    EveryRunKeepsStanding(played, after, device, s.devices[device].tokenVersion);
  }

  // ─── access tokens ───────────────────────────────────────────────────────────

  /** An access token that was handed out is accepted exactly until it expires, while its device is
      active at the version of that time. */
  lemma AccessAcceptedExactlyWhen(s: State, token: Access, now: int)
    ensures VerifyAccess(s, token, now).None? <==>
      && now < token.expiresAt && token.device in s.devices
      && s.devices[token.device].status == Active && s.devices[token.device].tokenVersion == token.version
  {}

  /** What a poll or a refresh starts to sign is for its device, at its version, until the time given. */
  lemma SignsForTheDevice(s: State, e: Event, call: nat)
    requires Enabled(s, e) && (e.PollBegins? || e.RefreshBegins?) && e.call == call
    requires call in Step(s, e).calls
    ensures Step(s, e).calls[call].Signing? && Step(s, e).calls[call].access.expiresAt == e.expiresAt
    ensures var device := if e.PollBegins? then e.device else e.token.device;
      && device in s.devices && s.devices[device].status == Active
      && Step(s, e).calls[call].access.device == device
      && Step(s, e).calls[call].access.version == s.devices[device].tokenVersion
      && Step(s, e).devices == s.devices && Step(s, e).next == s.next
  {}

  /** The token of a session is good until the time it was signed for, from before it is handed out,
      whatever happens meanwhile short of closing the device. */
  lemma AcceptedUntilExpiry(before: seq<Event>, e: Event, after: seq<Event>, now: int)
    requires (e.PollBegins? || e.RefreshBegins?) && Enabled(Run(EMPTY, before), e)
    requires e.call in Step(Run(EMPTY, before), e).calls
    requires NobodyCloses(after, if e.PollBegins? then e.device else e.token.device)
    ensures var begun := Step(Run(EMPTY, before), e);
      && begun.calls[e.call].Signing?
      && (VerifyAccess(Run(begun, after), begun.calls[e.call].access, now).None? <==> now < e.expiresAt)
  {
    hide Run, Step;
    var s := Run(EMPTY, before);
    EveryRunIsWild(EMPTY, before);
    SignsForTheDevice(s, e, e.call);
    var begun := Step(s, e);
    var token := begun.calls[e.call].access;
    EveryRunKeepsStanding(begun, after, token.device, token.version);
  }

  /** And it is what the caller is handed when the signing is done. */
  lemma SignedIsHandedOut(s: State, call: nat, refreshExpiresAt: int)
    requires Enabled(s, SessionIssued(call, refreshExpiresAt))
    ensures var token := s.calls[call].access;
      var answer := Perform(s, SessionIssued(call, refreshExpiresAt));
      && token in answer.state.record.access
      && answer.reply == Issued(token, RefreshToken(token.device, s.next), s.calls[call].collected)
      && (token.device in s.devices ==>
            token.device in answer.state.devices
            && answer.state.devices[token.device].refresh == Some(Refresh(s.next, refreshExpiresAt)))
  {}
}
