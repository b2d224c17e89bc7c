/** Closing a device is final for everything it holds. */
module Revocation {
  import opened Text
  import opened Pairing

  predicate ByClaim(e: Event) {
    e.Mint? || e.ClaimBegins? || e.ClaimEnds?
  }

  predicate BySession(e: Event) {
    e.PollBegins? || e.RefreshBegins? || e.SessionIssued? || e.Play?
  }

  predicate ByOperator(e: Event) {
    e.ApproveBegins? || e.ApproveEnds? || e.Reject? || e.Revoke?
  }

  predicate ByHousekeeping(e: Event) {
    e.Delete? || e.Prune? || e.AddFolder? || e.DeleteFolder? || e.SetPermissions? || e.Restart?
  }

  /** What minting and claiming do outside the codes: at most one new device, and calls that verify. */
  ghost predicate AtMostOneClaimed(s: State, s': State) {
    && s'.stash == s.stash
    && s'.record.access == s.record.access && s'.record.tickets == s.record.tickets
    && s.next <= s'.next <= s.next + 1
    && (s'.devices == s.devices
        || (s'.next == s.next + 1 && s.next in s'.devices && s'.devices == s.devices[s.next := s'.devices[s.next]]
            && s'.devices[s.next].status == Pending && s'.devices[s.next].refresh.None?))
    && forall call | call in s'.calls :: s'.calls[call].Verifying? || (call in s.calls && s'.calls[call] == s.calls[call])
  }

  lemma ConsumeClaims(s: State, code: string, row: Id, now: int)
    ensures AtMostOneClaimed(s, ConsumeOn(s, code, row, now).state)
  {
    if Consumable(s, code, row, now) {
      var s' := ConsumeOn(s, code, row, now).state;
      assert s'.devices == s.devices[s.next := s'.devices[s.next]];
    }
  }

  lemma ClaimOnClaims(s: State, call: nat, code: string, secret: Option<Id>, now: int)
    ensures AtMostOneClaimed(s, ClaimOn(s, call, code, secret, now).state)
  {
    hide ConsumeOn;
    if code in s.codes {
      ConsumeClaims(s, code, s.codes[code].id, now);
    }
  }

  lemma ClaimEndsClaims(s: State, call: nat)
    requires call in s.calls && s.calls[call].Verifying?
    ensures AtMostOneClaimed(s, ClaimEndsOn(s, call).state)
  {
    hide ConsumeOn;
    var Verifying(code, row, _, _, at) := s.calls[call];
    ConsumeClaims(s.(calls := s.calls - {call}), code, row, at);
  }

  lemma ClaimStep(s: State, e: Event)
    requires Enabled(s, e) && ByClaim(e)
    ensures AtMostOneClaimed(s, Step(s, e))
  {
    hide FirstFree, Unspent, ClaimOn, ClaimEndsOn, PollOn, RefreshOn, IssueOn, PlayOn, ApproveOn, ApproveEndsOn, RejectOn, RevokeOn,
      DeleteOn, PruneOn, DeleteFolderOn, SetPermissionsOn;
    match e
    case Mint(_, _, _, _, _) =>
    case ClaimBegins(call, code, given, now) => ClaimOnClaims(s, call, code, given, now);
    case ClaimEnds(call) => ClaimEndsClaims(s, call);
  }

  // ─── rows only ever move forward ─────────────────────────────────────────────

  ghost predicate Numbered(s: State) {
    forall d | d in s.devices :: d < s.next
  }

  /** No identifier is reused, and a row that survives a step keeps or raises its version. */
  ghost predicate Forward(s: State, s': State) {
    && s.next <= s'.next
    && (forall d | d in s'.devices && d !in s.devices :: s.next <= d < s'.next)
    && (forall d | d in s'.devices && d in s.devices :: s.devices[d].tokenVersion <= s'.devices[d].tokenVersion)
  }

  lemma ClaimGoesForward(s: State, e: Event)
    requires Enabled(s, e) && Numbered(s) && ByClaim(e)
    ensures Forward(s, Step(s, e)) && Numbered(Step(s, e))
  {
    ClaimStep(s, e);
    hide Step, Enabled;
  }

  lemma SessionGoesForward(s: State, e: Event)
    requires Enabled(s, e) && Numbered(s) && BySession(e)
    ensures Forward(s, Step(s, e)) && Numbered(Step(s, e))
  {
    hide MintOn, ClaimOn, ClaimEndsOn, ApproveOn, ApproveEndsOn, RejectOn, RevokeOn, DeleteOn, PruneOn, DeleteFolderOn, SetPermissionsOn;
  }

  lemma OperatorGoesForward(s: State, e: Event)
    requires Enabled(s, e) && Numbered(s) && ByOperator(e)
    ensures Forward(s, Step(s, e)) && Numbered(Step(s, e))
  {
    hide DefaultPermissions, Upserted, MintOn, ClaimOn, ClaimEndsOn, PollOn, RefreshOn, IssueOn, PlayOn, DeleteOn, PruneOn, DeleteFolderOn, SetPermissionsOn;
  }

  lemma HousekeepingGoesForward(s: State, e: Event)
    requires Enabled(s, e) && Numbered(s) && ByHousekeeping(e)
    ensures Forward(s, Step(s, e)) && Numbered(Step(s, e))
  {
    hide Upserted, MintOn, ClaimOn, ClaimEndsOn, PollOn, RefreshOn, IssueOn, PlayOn, ApproveOn, ApproveEndsOn, RejectOn;
  }

  lemma StepGoesForward(s: State, e: Event)
    requires Enabled(s, e) && Numbered(s)
    ensures Forward(s, Step(s, e)) && Numbered(Step(s, e))
  {
    hide Step, Enabled;
    if ByClaim(e) {
      ClaimGoesForward(s, e);
    } else if BySession(e) {
      SessionGoesForward(s, e);
    } else if ByOperator(e) {
      OperatorGoesForward(s, e);
    } else {
      HousekeepingGoesForward(s, e);
    }
  }

  /** A version number that the device named can no longer reach, or has not gone past. */
  ghost predicate Dead(s: State, device: Id, version: nat) {
    device < s.next && (device in s.devices ==> version < s.devices[device].tokenVersion)
  }

  ghost predicate Sound(s: State, device: Id, version: nat) {
    device < s.next && (device in s.devices ==> version <= s.devices[device].tokenVersion)
  }

  lemma {:induction false} DeadForEver(s: State, events: seq<Event>, device: Id, version: nat)
    requires Numbered(s) && Dead(s, device, version)
    ensures Dead(Run(s, events), device, version)
    decreases |events|
  {
    hide Step, Enabled;
    if events != [] && Enabled(s, events[0]) {
      StepGoesForward(s, events[0]);
      DeadForEver(Step(s, events[0]), events[1..], device, version);
    }
  }

  // ─── what is in the wild ─────────────────────────────────────────────────────

  /** Every access token handed out or still being signed. */
  ghost predicate InTheWild(s: State, token: Access) {
    token in s.record.access || exists call | call in s.calls :: s.calls[call].Signing? && s.calls[call].access == token
  }

  ghost predicate Wild(s: State) {
    && Numbered(s)
    && (forall token | token in s.record.access :: Sound(s, token.device, token.version))
    && (forall call | call in s.calls && s.calls[call].Signing? :: Sound(s, s.calls[call].access.device, s.calls[call].access.version))
    && (forall ticket | ticket in s.record.tickets :: Sound(s, ticket.signature.device, ticket.signature.version))
  }

  /** What a step may put into the wild carries the version its device has at that moment. */
  ghost predicate OnlyCurrent(s: State, s': State) {
    && (forall token | token in s'.record.access ::
          token in s.record.access || exists call | call in s.calls :: s.calls[call].Signing? && s.calls[call].access == token)
    && (forall call | call in s'.calls && s'.calls[call].Signing? ::
          (call in s.calls && s.calls[call] == s'.calls[call])
          || Current(s, s'.calls[call].access.device, s'.calls[call].access.version))
    && (forall ticket | ticket in s'.record.tickets ::
          ticket in s.record.tickets || Current(s, ticket.signature.device, ticket.signature.version))
  }

  ghost predicate Current(s: State, device: Id, version: nat) {
    device in s.devices && s.devices[device].tokenVersion == version
  }

  lemma ClaimIssuesOnlyCurrent(s: State, e: Event)
    requires Enabled(s, e) && ByClaim(e)
    ensures OnlyCurrent(s, Step(s, e))
  {
    ClaimStep(s, e);
    hide Step, Enabled;
  }

  lemma OtherIssuesOnlyCurrent(s: State, e: Event)
    requires Enabled(s, e) && !ByClaim(e) && !BySession(e)
    ensures OnlyCurrent(s, Step(s, e))
  {
    hide DefaultPermissions, Upserted, MintOn, ClaimOn, ClaimEndsOn, PollOn, RefreshOn, IssueOn, PlayOn;
  }

  lemma SessionIssuesOnlyCurrent(s: State, e: Event)
    requires Enabled(s, e) && BySession(e)
    ensures OnlyCurrent(s, Step(s, e))
  {
    hide MintOn, ClaimOn, ClaimEndsOn, ApproveOn, ApproveEndsOn, RejectOn, RevokeOn, DeleteOn, PruneOn, DeleteFolderOn, SetPermissionsOn;
  }

  lemma StepIssuesOnlyCurrent(s: State, e: Event)
    requires Enabled(s, e)
    ensures OnlyCurrent(s, Step(s, e))
  {
    hide Step, Enabled;
    if ByClaim(e) {
      ClaimIssuesOnlyCurrent(s, e);
    } else if BySession(e) {
      SessionIssuesOnlyCurrent(s, e);
    } else {
      OtherIssuesOnlyCurrent(s, e);
    }
  }

  lemma WildKeeps(s: State, e: Event)
    requires Enabled(s, e) && Wild(s)
    ensures Wild(Step(s, e))
  {
    StepGoesForward(s, e);
    StepIssuesOnlyCurrent(s, e);
    hide Step, Enabled;
  }

  lemma {:induction false} EveryRunIsWild(s: State, events: seq<Event>)
    requires Wild(s)
    ensures Wild(Run(s, events))
    decreases |events|
  {
    hide Step, Enabled, Wild;
    if events != [] && Enabled(s, events[0]) {
      WildKeeps(s, events[0]);
      EveryRunIsWild(Step(s, events[0]), events[1..]);
    }
  }

  predicate Closes(e: Event, device: Id) {
    e == Revoke(device) || e == Reject(device) || e == Delete(device)
  }

  lemma ClosingKills(s: State, e: Event, device: Id, version: nat)
    requires Closes(e, device) && Sound(s, device, version)
    ensures Enabled(s, e) && Dead(Step(s, e), device, version)
  {}

  /** Once a device is closed, no access token issued before or still being signed across it is
      ever accepted again, whatever happens afterwards: an approval that raced with the closing,
      a new pairing, a restart. */
  lemma RevocationIsFinal(before: seq<Event>, e: Event, token: Access, after: seq<Event>, now: int)
    requires Closes(e, token.device) && InTheWild(Run(EMPTY, before), token)
    ensures VerifyAccess(Run(Step(Run(EMPTY, before), e), after), token, now).Some?
  {
    hide Run, Step, Forward;
    var s := Run(EMPTY, before);
    EveryRunIsWild(EMPTY, before);
    StepGoesForward(s, e);
    ClosingKills(s, e, token.device, token.version);
    DeadForEver(Step(s, e), after, token.device, token.version);
  }

  /** The same for playback tickets, for any URL that carries a signature handed out before. */
  lemma RevocationKillsTickets(before: seq<Event>, e: Event, issued: Ticket, shown: Ticket, file: Id, after: seq<Event>, now: int)
    requires issued in Run(EMPTY, before).record.tickets && Closes(e, issued.signature.device)
    requires shown.signature == issued.signature
    ensures VerifyTicket(Run(Step(Run(EMPTY, before), e), after), shown, file, now).Some?
  {
    hide Run, Step, Forward;
    var s := Run(EMPTY, before);
    EveryRunIsWild(EMPTY, before);
    StepGoesForward(s, e);
    ClosingKills(s, e, issued.signature.device, issued.signature.version);
    DeadForEver(Step(s, e), after, issued.signature.device, issued.signature.version);
  }

  // ─── refresh tokens ──────────────────────────────────────────────────────────

  /** The random part is not on any row. */
  ghost predicate Forgotten(s: State, raw: Id) {
    raw < s.next && forall d | d in s.devices && s.devices[d].refresh.Some? :: s.devices[d].refresh.value.raw != raw
  }

  /** Refresh tokens are on at most one row each, and only ones already handed out. */
  ghost predicate Distinct(s: State) {
    && (forall d | d in s.devices && s.devices[d].refresh.Some? :: s.devices[d].refresh.value.raw < s.next)
    && (forall d, d' | d in s.devices && d' in s.devices && d != d' && s.devices[d].refresh.Some? && s.devices[d'].refresh.Some? ::
          s.devices[d].refresh.value.raw != s.devices[d'].refresh.value.raw)
  }

  /** The one row a step may give a new refresh token. */
  function Receiver(s: State, e: Event): Option<Id>
    requires Enabled(s, e)
  {
    match e
    case SessionIssued(call, _) => Some(s.calls[call].access.device)
    case _ => None
  }

  ghost predicate OnlyReceiver(s: State, e: Event, s': State)
    requires Enabled(s, e)
  {
    && s.next <= s'.next && (Receiver(s, e).Some? ==> s.next < s'.next)
    && forall d | d in s'.devices && s'.devices[d].refresh.Some? ::
         if Receiver(s, e) == Some(d) then s'.devices[d].refresh.value.raw == s.next
         else d in s.devices && s'.devices[d].refresh == s.devices[d].refresh
  }

  lemma ClaimStoresOneRefresh(s: State, e: Event)
    requires Enabled(s, e) && ByClaim(e)
    ensures OnlyReceiver(s, e, Step(s, e))
  {
    ClaimStep(s, e);
    hide Step, Enabled;
  }

  lemma SessionStoresOneRefresh(s: State, e: Event)
    requires Enabled(s, e) && BySession(e)
    ensures OnlyReceiver(s, e, Step(s, e))
  {
    hide MintOn, ClaimOn, ClaimEndsOn, ApproveOn, ApproveEndsOn, RejectOn, RevokeOn, DeleteOn, PruneOn, DeleteFolderOn, SetPermissionsOn;
  }

  lemma OperatorStoresNoRefresh(s: State, e: Event)
    requires Enabled(s, e) && ByOperator(e)
    ensures OnlyReceiver(s, e, Step(s, e))
  {
    hide DefaultPermissions, Upserted, MintOn, ClaimOn, ClaimEndsOn, PollOn, RefreshOn, IssueOn, PlayOn, DeleteOn, PruneOn, DeleteFolderOn, SetPermissionsOn;
  }

  lemma HousekeepingStoresNoRefresh(s: State, e: Event)
    requires Enabled(s, e) && ByHousekeeping(e)
    ensures OnlyReceiver(s, e, Step(s, e))
  {
    hide Upserted, MintOn, ClaimOn, ClaimEndsOn, PollOn, RefreshOn, IssueOn, PlayOn, ApproveOn, ApproveEndsOn, RejectOn;
  }

  lemma OnlyTheReceiverChanges(s: State, e: Event)
    requires Enabled(s, e)
    ensures OnlyReceiver(s, e, Step(s, e))
  {
    hide Step, Enabled;
    if ByClaim(e) {
      ClaimStoresOneRefresh(s, e);
    } else if BySession(e) {
      SessionStoresOneRefresh(s, e);
    } else if ByOperator(e) {
      OperatorStoresNoRefresh(s, e);
    } else {
      HousekeepingStoresNoRefresh(s, e);
    }
  }

  lemma {:induction false} ForgottenForEver(s: State, events: seq<Event>, raw: Id)
    requires Forgotten(s, raw)
    ensures Forgotten(Run(s, events), raw)
    decreases |events|
  {
    hide Step, Enabled;
    if events != [] && Enabled(s, events[0]) {
      OnlyTheReceiverChanges(s, events[0]);
      ForgottenForEver(Step(s, events[0]), events[1..], raw);
    }
  }

  lemma DistinctKeeps(s: State, e: Event)
    requires Enabled(s, e) && Distinct(s)
    ensures Distinct(Step(s, e))
  {
    OnlyTheReceiverChanges(s, e);
    hide Step, Enabled;
  }

  lemma {:induction false} EveryRunIsDistinct(s: State, events: seq<Event>)
    requires Distinct(s)
    ensures Distinct(Run(s, events))
    decreases |events|
  {
    hide Step, Enabled, Distinct;
    if events != [] && Enabled(s, events[0]) {
      DistinctKeeps(s, events[0]);
      EveryRunIsDistinct(Step(s, events[0]), events[1..]);
    }
  }

  /** A refresh token is spent by the rotation it starts and by the closing of its device: it is
      never redeemed again, by any device, in any later state. */
  lemma SpentRefreshTokensStaySpent(before: seq<Event>, e: Event, device: Id, after: seq<Event>, call: nat, presented: RefreshToken, now: int, expiresAt: int)
    requires device in Run(EMPTY, before).devices && Run(EMPTY, before).devices[device].refresh.Some?
    requires presented.raw == Run(EMPTY, before).devices[device].refresh.value.raw
    requires Enabled(Run(EMPTY, before), e) && (Closes(e, device) || Receiver(Run(EMPTY, before), e) == Some(device))
    ensures RefreshOn(Run(Step(Run(EMPTY, before), e), after), call, presented, now, expiresAt).reply.Failed?
  {
    hide Run;
    var s := Run(EMPTY, before);
    EveryRunIsDistinct(EMPTY, before);
    OnlyTheReceiverChanges(s, e);
    ClosingForgets(s, e, device);
    hide Step, Enabled;
    assert Forgotten(Step(s, e), presented.raw);
    ForgottenForEver(Step(s, e), after, presented.raw);
  }

  lemma ClosingForgets(s: State, e: Event, device: Id)
    requires Enabled(s, e)
    ensures Closes(e, device) && device in Step(s, e).devices ==> Step(s, e).devices[device].refresh.None?
  {}

  // ─── staying closed ──────────────────────────────────────────────────────────

  /** An approval that read the device before it was closed and has not written yet. */
  predicate ApprovalPending(s: State, device: Id) {
    exists call | call in s.calls :: s.calls[call].Hashing? && s.calls[call].device == device
  }

  predicate Shut(s: State, device: Id) {
    device < s.next && (device in s.devices ==> s.devices[device].status == Revoked)
  }

  lemma ClaimKeepsShut(s: State, e: Event, device: Id)
    requires Enabled(s, e) && ByClaim(e) && Shut(s, device) && !ApprovalPending(s, device)
    ensures Shut(Step(s, e), device) && !ApprovalPending(Step(s, e), device)
  {
    ClaimStep(s, e);
    hide Step, Enabled;
  }

  lemma OtherKeepsShut(s: State, e: Event, device: Id)
    requires Enabled(s, e) && !ByClaim(e) && Shut(s, device) && !ApprovalPending(s, device)
    ensures Shut(Step(s, e), device) && !ApprovalPending(Step(s, e), device)
  {
    hide DefaultPermissions, Upserted, MintOn, ClaimOn, ClaimEndsOn;
  }

  lemma ShutKeeps(s: State, e: Event, device: Id)
    requires Enabled(s, e) && Shut(s, device) && !ApprovalPending(s, device)
    ensures Shut(Step(s, e), device) && !ApprovalPending(Step(s, e), device)
  {
    hide Step, Enabled;
    if ByClaim(e) {
      ClaimKeepsShut(s, e, device);
    } else {
      OtherKeepsShut(s, e, device);
    }
  }

  lemma {:induction false} ShutForEver(s: State, events: seq<Event>, device: Id)
    requires Shut(s, device) && !ApprovalPending(s, device)
    ensures Shut(Run(s, events), device)
    decreases |events|
  {
    hide Step, Enabled, Shut, ApprovalPending;
    if events != [] && Enabled(s, events[0]) {
      ShutKeeps(s, events[0], device);
      ShutForEver(Step(s, events[0]), events[1..], device);
    }
  }

  ghost predicate NeverReopens(s: State, device: Id) {
    forall events :: Shut(Run(s, events), device)
  }

  /** A closed device can come back exactly when an approval of it is still in flight: `approve`
      reads the status before its await and writes `active` unconditionally after it. */
  lemma StaysClosedExactlyWhenNoApprovalIsPending(s: State, device: Id)
    requires Shut(s, device) && device in s.devices
    ensures NeverReopens(s, device) <==> !ApprovalPending(s, device)
  {
    if ApprovalPending(s, device) {
      var call :| call in s.calls && s.calls[call].Hashing? && s.calls[call].device == device;
      var events := [ApproveEnds(call, 0)];
      assert Run(s, events) == Step(s, events[0]) by {
        assert events[1..] == [];
      }
      assert !Shut(Run(s, events), device);
    } else {
      forall events ensures Shut(Run(s, events), device) {
        ShutForEver(s, events, device);
      }
    }
  }

  /** While it stays closed, no refresh token of the device is redeemed. */
  lemma RefreshFailsWhileClosed(s: State, events: seq<Event>, call: nat, token: RefreshToken, now: int, expiresAt: int)
    requires Shut(s, token.device) && !ApprovalPending(s, token.device)
    ensures RefreshOn(Run(s, events), call, token, now, expiresAt).reply.Failed?
    ensures RefreshOn(Run(s, events), call, token, now, expiresAt).state == Run(s, events)
  {
    hide Run;
    ShutForEver(s, events, token.device);
  }
}
