/** What pairing gives a device that does everything right, and for how long. */
module PairingOutcomes {
  import opened Text
  import opened Pairing
  import opened Revocation
  import opened TokenUse
  import opened PairingGrants

  // ─── claims ──────────────────────────────────────────────────────────────────

  predicate Open(s: State, code: string, now: int) {
    && code in s.codes && !s.codes[code].locked && s.codes[code].consumedAt.None?
    && now < s.codes[code].expiresAt
  }

  /** The code is spent on a new device, which waits to be approved. */
  ghost predicate Paired(s: State, code: string, now: int, s': State, device: Id) {
    && device !in s.devices && device in s'.devices && s'.devices == s.devices[device := s'.devices[device]]
    && s'.devices[device] == Device(Pending, 1, None, None, now)
    && code in s.codes && code in s'.codes
    && s'.codes[code] == s.codes[code].(consumedAt := Some(now), consumedBy := Some(device))
    && s'.calls == s.calls
  }

  /** A claim that nothing interrupts pairs a device exactly when the code is open and the secret is
      the code's; a wrong secret is counted. */
  lemma ClaimPairsExactlyWhen(s: State, call: nat, code: string, given: Id, now: int)
    requires call !in s.calls && Numbered(s)
    ensures var begin := ClaimBegins(call, code, Some(given), now);
      var begun := Step(s, begin);
      if !Open(s, code, now) then Perform(s, begin).reply.Failed? && begun == s
      else
        && Perform(s, begin).reply == Awaiting && Enabled(begun, ClaimEnds(call))
        && var end := Perform(begun, ClaimEnds(call));
        && (end.reply.Claimed? <==> given == s.codes[code].secret)
        && (given == s.codes[code].secret ==> end.reply == Claimed(s.next) && Paired(s, code, now, end.state, s.next))
        && (given != s.codes[code].secret ==>
              && end.reply == Failed(if s.codes[code].failed >= 4 then PairingLocked else PairingInvalid) && code in end.state.codes
              && end.state.codes[code] == s.codes[code].(failed := s.codes[code].failed + 1, locked := s.codes[code].failed >= 4))
  {
    hide PollOn, RefreshOn, IssueOn, PlayOn, ApproveOn, ApproveEndsOn, RejectOn, RevokeOn, DeleteOn, PruneOn, DeleteFolderOn, SetPermissionsOn, MintOn;
    if Open(s, code, now) {
      var begun := Step(s, ClaimBegins(call, code, Some(given), now));
      assert begun.calls - {call} == s.calls;
    }
  }

  /** A claim that names the code alone, as one typed in by hand, is settled at once: it pairs a device
      exactly when the code is open. */
  lemma CodeAlonePairsExactlyWhen(s: State, call: nat, code: string, now: int)
    requires call !in s.calls && Numbered(s)
    ensures var answer := Perform(s, ClaimBegins(call, code, None, now));
      if Open(s, code, now) then answer.reply == Claimed(s.next) && Paired(s, code, now, answer.state, s.next)
      else answer.reply.Failed? && answer.state == s
  {
    assert s.next !in s.devices;
  }

  /** A new code is open until it expires. */
  lemma MintOpens(s: State, tries: seq<string>, secret: Id, permissions: seq<Permission>, now: int, expiresAt: int, code: string)
    requires FirstFree(tries, Unspent(s.codes, now)) == Some(code)
    ensures var s' := MintOn(s, tries, secret, permissions, now, expiresAt).state;
      && code in tries && code in s'.codes && s'.codes[code].secret == secret && s'.codes[code].permissions == permissions
      && s'.codes[code].failed == 0
      && (forall later :: Open(s', code, later) <==> later < expiresAt)
      && (forall other | other != code :: other in s'.codes <==>
            && other in s.codes && s.codes[other].expiresAt >= now - 86_400_000
            && (s.codes[other].consumedAt.Some? ==> s.codes[other].consumedAt.value >= now - 86_400_000))
  {
    hide FirstFree;
  }

  // ─── the WebDAV password ─────────────────────────────────────────────────────

  ghost predicate Stashed(s: State, device: Id, password: Id, at: int) {
    device in s.stash && s.stash[device] == Stash(password, at)
  }

  /** Events that take a password out of the stash, or put another one in. */
  predicate TouchesStash(s: State, e: Event, device: Id) {
    || e.Restart?
    || (e.PollBegins? && e.device == device)
    || (e.Reject? && e.device == device)
    || (e.ApproveEnds? && e.call in s.calls && s.calls[e.call].Hashing? && s.calls[e.call].device == device)
  }

  lemma SessionKeepsStash(s: State, e: Event, device: Id, password: Id, at: int)
    requires Enabled(s, e) && BySession(e) && Stashed(s, device, password, at) && !TouchesStash(s, e, device)
    ensures Stashed(Step(s, e), device, password, at)
  {
    hide MintOn, ClaimOn, ClaimEndsOn, ApproveOn, ApproveEndsOn, RejectOn, RevokeOn, DeleteOn, PruneOn, DeleteFolderOn, SetPermissionsOn;
  }

  lemma OperatorKeepsStash(s: State, e: Event, device: Id, password: Id, at: int)
    requires Enabled(s, e) && ByOperator(e) && Stashed(s, device, password, at) && !TouchesStash(s, e, device)
    ensures Stashed(Step(s, e), device, password, at)
  {
    hide DefaultPermissions, Upserted, MintOn, ClaimOn, ClaimEndsOn, PollOn, RefreshOn, IssueOn, PlayOn, DeleteOn, PruneOn, DeleteFolderOn, SetPermissionsOn;
  }

  lemma HousekeepingKeepsStash(s: State, e: Event, device: Id, password: Id, at: int)
    requires Enabled(s, e) && ByHousekeeping(e) && Stashed(s, device, password, at) && !TouchesStash(s, e, device)
    ensures Stashed(Step(s, e), device, password, at)
  {
    hide Upserted, MintOn, ClaimOn, ClaimEndsOn, PollOn, RefreshOn, IssueOn, PlayOn, ApproveOn, ApproveEndsOn, RejectOn;
  }

  lemma StepKeepsStash(s: State, e: Event, device: Id, password: Id, at: int)
    requires Enabled(s, e) && Stashed(s, device, password, at) && !TouchesStash(s, e, device)
    ensures Stashed(Step(s, e), device, password, at)
  {
    hide Step, Enabled, TouchesStash;
    if ByClaim(e) {
      ClaimStep(s, e);
    } else if BySession(e) {
      SessionKeepsStash(s, e, device, password, at);
    } else if ByOperator(e) {
      OperatorKeepsStash(s, e, device, password, at);
    } else {
      HousekeepingKeepsStash(s, e, device, password, at);
    }
  }

  ghost predicate StashUntouched(s: State, events: seq<Event>, device: Id)
    decreases |events|
  {
    events == [] || !Enabled(s, events[0]) ||
    (!TouchesStash(s, events[0], device) && StashUntouched(Step(s, events[0]), events[1..], device))
  }

  lemma {:induction false} EveryRunKeepsStash(s: State, events: seq<Event>, device: Id, password: Id, at: int)
    requires Stashed(s, device, password, at) && StashUntouched(s, events, device)
    ensures Stashed(Run(s, events), device, password, at)
    decreases |events|
  {
    hide Step, Enabled, Stashed, TouchesStash;
    if events != [] && Enabled(s, events[0]) {
      StepKeepsStash(s, events[0], device, password, at);
      EveryRunKeepsStash(Step(s, events[0]), events[1..], device, password, at);
    }
  }

  /** An approval that goes through makes the device active and leaves it a password to collect. */
  lemma ApprovalReadies(s: State, call: nat, now: int)
    requires Enabled(s, ApproveEnds(call, now)) && Numbered(s) && s.calls[call].device in s.devices
    ensures var device := s.calls[call].device;
      var s' := Step(s, ApproveEnds(call, now));
      && Standing(s', device, s.devices[device].tokenVersion)
      && Stashed(s', device, s.calls[call].password, now)
      && s'.devices[device].dav == Some(s.calls[call].password)
      && s'.calls == s.calls - {call} && s'.next == s.next
  {
    hide DefaultPermissions, Upserted;
  }

  lemma PollAnswers(s: State, poll: nat, device: Id, version: nat, password: Id, at: int, now: int, expiresAt: int)
    requires Standing(s, device, version) && Stashed(s, device, password, at)
    ensures var answer := PollOn(s, poll, device, true, now, expiresAt);
      if now - at <= 3_600_000 then
        && answer.reply == Awaiting && poll in answer.state.calls
        && answer.state.calls[poll] == Signing(Access(device, version, expiresAt), Some(password))
      else answer.reply == Failed(PairingExpired)
  {}

  /** The first poll after an approval collects the password of that approval, exactly within the hour;
      until then only a closing of the device, a restart or another approval can take it away. */
  lemma CollectedExactlyWithinTheHour(s: State, call: nat, at: int, after: seq<Event>, poll: nat, now: int, expiresAt: int)
    requires Enabled(s, ApproveEnds(call, at)) && Numbered(s) && s.calls[call].device in s.devices
    requires NobodyCloses(after, s.calls[call].device)
    requires StashUntouched(Step(s, ApproveEnds(call, at)), after, s.calls[call].device)
    ensures var device := s.calls[call].device;
      var answer := PollOn(Run(Step(s, ApproveEnds(call, at)), after), poll, device, true, now, expiresAt);
      if now - at <= 3_600_000 then
        && answer.reply == Awaiting && poll in answer.state.calls
        && answer.state.calls[poll] == Signing(Access(device, s.devices[device].tokenVersion, expiresAt), Some(s.calls[call].password))
      else answer.reply == Failed(PairingExpired)
  {
    var device := s.calls[call].device;
    ApprovalReadies(s, call, at);
    hide Run, Step, Enabled, PollOn, Standing, Stashed;
    var approved := Step(s, ApproveEnds(call, at));
    EveryRunKeepsStanding(approved, after, device, s.devices[device].tokenVersion);
    EveryRunKeepsStash(approved, after, device, s.calls[call].password, at);
    PollAnswers(Run(approved, after), poll, device, s.devices[device].tokenVersion, s.calls[call].password, at, now, expiresAt);
  }

  // ─── refresh tokens ──────────────────────────────────────────────────────────

  ghost predicate Redeemable(s: State, device: Id, version: nat, refresh: Refresh) {
    Standing(s, device, version) && s.devices[device].refresh == Some(refresh)
  }

  lemma SessionKeepsRedeemable(s: State, e: Event, device: Id, version: nat, refresh: Refresh)
    requires Enabled(s, e) && BySession(e) && Redeemable(s, device, version, refresh) && Receiver(s, e) != Some(device)
    ensures Redeemable(Step(s, e), device, version, refresh)
  {
    hide MintOn, ClaimOn, ClaimEndsOn, ApproveOn, ApproveEndsOn, RejectOn, RevokeOn, DeleteOn, PruneOn, DeleteFolderOn, SetPermissionsOn;
  }

  lemma OperatorKeepsRedeemable(s: State, e: Event, device: Id, version: nat, refresh: Refresh)
    requires Enabled(s, e) && ByOperator(e) && Redeemable(s, device, version, refresh) && !Closes(e, device)
    ensures Redeemable(Step(s, e), device, version, refresh)
  {
    hide DefaultPermissions, Upserted, MintOn, ClaimOn, ClaimEndsOn, PollOn, RefreshOn, IssueOn, PlayOn, DeleteOn, PruneOn, DeleteFolderOn, SetPermissionsOn;
  }

  lemma HousekeepingKeepsRedeemable(s: State, e: Event, device: Id, version: nat, refresh: Refresh)
    requires Enabled(s, e) && ByHousekeeping(e) && Redeemable(s, device, version, refresh) && !Closes(e, device)
    ensures Redeemable(Step(s, e), device, version, refresh)
  {
    hide Upserted, MintOn, ClaimOn, ClaimEndsOn, PollOn, RefreshOn, IssueOn, PlayOn, ApproveOn, ApproveEndsOn, RejectOn;
  }

  lemma StepKeepsRedeemable(s: State, e: Event, device: Id, version: nat, refresh: Refresh)
    requires Enabled(s, e) && Redeemable(s, device, version, refresh) && !Closes(e, device) && Receiver(s, e) != Some(device)
    ensures Redeemable(Step(s, e), device, version, refresh)
  {
    hide Step, Enabled, Receiver;
    if ByClaim(e) {
      ClaimStep(s, e);
    } else if BySession(e) {
      SessionKeepsRedeemable(s, e, device, version, refresh);
    } else if ByOperator(e) {
      OperatorKeepsRedeemable(s, e, device, version, refresh);
    } else {
      HousekeepingKeepsRedeemable(s, e, device, version, refresh);
    }
  }

  /** Nobody closes the device, and no other session is issued to it. */
  ghost predicate RefreshUntouched(s: State, events: seq<Event>, device: Id)
    decreases |events|
  {
    events == [] || !Enabled(s, events[0]) ||
    (&& !Closes(events[0], device) && Receiver(s, events[0]) != Some(device)
     && RefreshUntouched(Step(s, events[0]), events[1..], device))
  }

  lemma {:induction false} EveryRunKeepsRedeemable(s: State, events: seq<Event>, device: Id, version: nat, refresh: Refresh)
    requires Redeemable(s, device, version, refresh) && RefreshUntouched(s, events, device)
    ensures Redeemable(Run(s, events), device, version, refresh)
    decreases |events|
  {
    hide Step, Enabled, Redeemable, Receiver;
    if events != [] && Enabled(s, events[0]) {
      StepKeepsRedeemable(s, events[0], device, version, refresh);
      EveryRunKeepsRedeemable(Step(s, events[0]), events[1..], device, version, refresh);
    }
  }

  lemma RefreshAnswers(s: State, call: nat, device: Id, version: nat, refresh: Refresh, raw: Id, now: int, expiresAt: int)
    requires Redeemable(s, device, version, refresh)
    ensures var answer := RefreshOn(s, call, RefreshToken(device, raw), now, expiresAt);
      && (answer.reply == Awaiting <==> raw == refresh.raw && now <= refresh.expiresAt)
      && (answer.reply == Awaiting ==>
            call in answer.state.calls && answer.state.calls[call] == Signing(Access(device, version, expiresAt), None))
      && (raw == refresh.raw && now > refresh.expiresAt ==> answer.reply == Failed(TokenExpired))
      && (raw != refresh.raw ==> answer.reply == Failed(Unauthenticated))
  {}

  /** A refresh token that was handed out is redeemed exactly until it expires, and no other token of
      the device is, until the next session is issued or the device is closed. */
  lemma RedeemedExactlyUntilExpiry(s: State, call: nat, refreshExpiresAt: int, after: seq<Event>, again: nat, raw: Id, now: int, expiresAt: int)
    requires Enabled(s, SessionIssued(call, refreshExpiresAt)) && Numbered(s)
    requires var device := s.calls[call].access.device; device in s.devices && s.devices[device].status == Active
    requires RefreshUntouched(Step(s, SessionIssued(call, refreshExpiresAt)), after, s.calls[call].access.device)
    ensures var device := s.calls[call].access.device;
      var issued := Perform(s, SessionIssued(call, refreshExpiresAt)).reply;
      var answer := RefreshOn(Run(Step(s, SessionIssued(call, refreshExpiresAt)), after), again, RefreshToken(device, raw), now, expiresAt);
      && issued.Issued? && issued.refresh.device == device
      && (answer.reply == Awaiting <==> raw == issued.refresh.raw && now <= refreshExpiresAt)
      && (answer.reply == Awaiting ==>
            again in answer.state.calls && answer.state.calls[again].Signing? && answer.state.calls[again].access.device == device
            && answer.state.calls[again].access.expiresAt == expiresAt)
      && (raw == issued.refresh.raw && now > refreshExpiresAt ==> answer.reply == Failed(TokenExpired))
  {
    var device := s.calls[call].access.device;
    SignedIsHandedOut(s, call, refreshExpiresAt);
    IssuingKeepsStanding(s, call, refreshExpiresAt);
    hide Run, Step, Enabled, RefreshOn, Perform, Standing;
    var issued := Step(s, SessionIssued(call, refreshExpiresAt));
    var refresh := Refresh(s.next, refreshExpiresAt);
    var version := s.devices[device].tokenVersion;
    EveryRunKeepsRedeemable(issued, after, device, version, refresh);
    RefreshAnswers(Run(issued, after), again, device, version, refresh, raw, now, expiresAt);
  }

  lemma IssuingKeepsStanding(s: State, call: nat, refreshExpiresAt: int)
    requires Enabled(s, SessionIssued(call, refreshExpiresAt)) && Numbered(s)
    requires var device := s.calls[call].access.device; device in s.devices && s.devices[device].status == Active
    ensures var device := s.calls[call].access.device;
      Redeemable(Step(s, SessionIssued(call, refreshExpiresAt)), device, s.devices[device].tokenVersion, Refresh(s.next, refreshExpiresAt))
  {}

  // ─── the operator's doing ────────────────────────────────────────────────────

  /** A device may be approved unless it was closed: one that is active already gets a new password. */
  lemma ApprovesUnlessClosed(s: State, call: nat, device: Id)
    requires call !in s.calls
    ensures var answer := Perform(s, ApproveBegins(call, device));
      if device in s.devices && s.devices[device].status != Revoked then
        && answer.reply == Awaiting
        && answer.state == s.(calls := s.calls[call := Hashing(device, s.next)], next := s.next + 1)
      else answer.reply == Failed(if device in s.devices then DeviceRevoked else NotFound) && answer.state == s
  {}

  /** What a poll says before there is anything to collect, and that it then changes nothing. */
  lemma PollSaysWhy(s: State, poll: nat, device: Id, genuine: bool, now: int, expiresAt: int)
    requires !genuine || device !in s.devices || s.devices[device].status != Active || device !in s.stash
    ensures var answer := PollOn(s, poll, device, genuine, now, expiresAt);
      && answer.state == s
      && answer.reply ==
           if !genuine || device !in s.devices then Failed(NotFound)
           else match s.devices[device].status
                case Pending => StillPending
                case Revoked => Rejected
                case Active => Failed(PairingExpired)
  {}

  /** A restart forgets passwords nobody collected and whatever was under way, and nothing else. */
  lemma RestartForgets(s: State, poll: nat, device: Id, now: int, expiresAt: int)
    ensures var s' := Step(s, Restart);
      && s' == s.(stash := map[], calls := map[])
      && (device in s.devices && s.devices[device].status == Active ==>
            PollOn(s', poll, device, true, now, expiresAt) == Answer(s', Failed(PairingExpired)))
  {}

  /** Closing a device touches that device, its password and nothing else. */
  lemma ClosesOnlyThatDevice(s: State, e: Event, device: Id, other: Id)
    requires (e == Revoke(device) || e == Reject(device)) && device in s.devices
    ensures var s' := Step(s, e);
      && device in s'.devices && s'.devices[device].status == Revoked && s'.devices[device].refresh.None?
      && s'.devices[device].tokenVersion == s.devices[device].tokenVersion + 1 && s'.devices[device].dav == s.devices[device].dav
      && (other != device ==> (other in s'.devices <==> other in s.devices) && (other in s.devices ==> s'.devices[other] == s.devices[other]))
      && (e.Reject? ==> device !in s'.stash)
      && s'.codes == s.codes && s'.grants == s.grants && s'.folders == s.folders && s'.calls == s.calls
  {}

  /** Deleting a device takes with it exactly its grants, and the codes forget who spent them. */
  lemma DeletesExactlyTheDevice(s: State, device: Id, other: Id, key: (Id, Id), code: string)
    requires device in s.devices
    ensures var s' := Step(s, Delete(device));
      && device !in s'.devices
      && (other != device ==> (other in s'.devices <==> other in s.devices) && (other in s.devices ==> s'.devices[other] == s.devices[other]))
      && (key in s'.grants <==> key in s.grants && key.0 != device)
      && (key in s'.grants ==> s'.grants[key] == s.grants[key])
      && (code in s'.codes <==> code in s.codes)
      && (code in s.codes ==>
            s'.codes[code] == if s.codes[code].consumedBy == Some(device) then s.codes[code].(consumedBy := None) else s.codes[code])
  {}

  /** Deleting a folder takes with it exactly the grants of that folder. */
  lemma DeletesExactlyTheFolder(s: State, folder: Id, key: (Id, Id))
    ensures var s' := Step(s, DeleteFolder(folder));
      && s'.folders == s.folders - {folder} && s'.devices == s.devices
      && (key in s'.grants <==> key in s.grants && key.1 != folder)
      && (key in s'.grants ==> s'.grants[key] == s.grants[key])
  {}

  /** Setting permissions changes exactly the folders named, each to the last mode given for it, and
      nothing at all when the device or one of the folders does not exist. */
  lemma SetsExactlyWhatIsNamed(s: State, device: Id, permissions: seq<Permission>, key: (Id, Id))
    ensures var answer := Perform(s, SetPermissions(device, permissions));
      if device in s.devices && forall p | p in permissions :: p.folder in s.folders then
        && answer.reply == Done
        && (if key.0 == device && LastMode(permissions, key.1).Some?
            then key in answer.state.grants && answer.state.grants[key] == LastMode(permissions, key.1).value
            else (key in answer.state.grants <==> key in s.grants) && (key in s.grants ==> answer.state.grants[key] == s.grants[key]))
      else answer.reply == Failed(NotFound) && answer.state == s
  {
    hide Upserted, LastMode;
    UpsertedAt(s.grants, device, permissions, s.folders, key);
  }

  // ─── who is forgotten ────────────────────────────────────────────────────────

  /** A prune deletes exactly the devices that waited more than an hour for an answer and the rejected
      ones that never had a password and are older than a quarter of one. */
  lemma PrunesExactlyTheAbandoned(s: State, now: int, device: Id)
    ensures var s' := Step(s, Prune(now));
      && (device in s'.devices <==>
            && device in s.devices
            && !(s.devices[device].status == Pending && s.devices[device].createdAt < now - 3_600_000)
            && !(s.devices[device].status == Revoked && s.devices[device].dav.None? && s.devices[device].createdAt < now - 900_000))
      && (device in s'.devices ==> s'.devices[device] == s.devices[device])
  {}

  // ─── all of it ───────────────────────────────────────────────────────────────

  /** From a fresh code to a device that can log in, with nothing in between: the reply to its poll
      carries an access token and a refresh token that are accepted until they expire, and the password
      whose hash is on its row. */
  lemma PairsFromEndToEnd(s: State, call: nat, tries: seq<string>, secret: Id, permissions: seq<Permission>, now: int, codeUntil: int,
                          accessUntil: int, refreshUntil: int)
    requires Numbered(s) && call !in s.calls && |tries| == 20 && now < codeUntil
    requires FirstFree(tries, Unspent(s.codes, now)).Some?
    ensures var code := FirstFree(tries, Unspent(s.codes, now)).value;
      var device := s.next + 1;
      var s1 := Step(s, Mint(tries, secret, permissions, now, codeUntil));
      && Enabled(s1, ClaimBegins(call, code, Some(secret), now))
      && var s2 := Step(s1, ClaimBegins(call, code, Some(secret), now));
      && Enabled(s2, ClaimEnds(call))
      && var s3 := Step(s2, ClaimEnds(call));
      && Enabled(s3, ApproveBegins(call, device))
      && var s4 := Step(s3, ApproveBegins(call, device));
      && Enabled(s4, ApproveEnds(call, now))
      && var s5 := Step(s4, ApproveEnds(call, now));
      && Enabled(s5, PollBegins(call, device, true, now, accessUntil))
      && var s6 := Step(s5, PollBegins(call, device, true, now, accessUntil));
      && Enabled(s6, SessionIssued(call, refreshUntil))
      && var answer := Perform(s6, SessionIssued(call, refreshUntil));
      && answer.reply.Issued? && answer.reply.password.Some?
      && device in answer.state.devices && answer.state.devices[device].dav == answer.reply.password
      && (forall later :: VerifyAccess(answer.state, answer.reply.access, later).None? <==> later < accessUntil)
      && (forall again, later, until :: RefreshOn(answer.state, again, answer.reply.refresh, later, until).reply == Awaiting <==> later <= refreshUntil)
  {
    hide Step, Enabled, Perform;
    var code := FirstFree(tries, Unspent(s.codes, now)).value;
    Minted(s, tries, secret, permissions, now, codeUntil);
    var s1 := Step(s, Mint(tries, secret, permissions, now, codeUntil));
    Claims(s1, call, code, secret, now);
    var s3 := Step(Step(s1, ClaimBegins(call, code, Some(secret), now)), ClaimEnds(call));
    Approves(s3, call, s1.next, now);
    var s5 := Step(Step(s3, ApproveBegins(call, s1.next)), ApproveEnds(call, now));
    Collects(s5, call, s1.next, 1, s3.next, now, accessUntil, refreshUntil);
  }

  lemma Minted(s: State, tries: seq<string>, secret: Id, permissions: seq<Permission>, now: int, codeUntil: int)
    requires Numbered(s) && |tries| == 20 && now < codeUntil && FirstFree(tries, Unspent(s.codes, now)).Some?
    ensures Enabled(s, Mint(tries, secret, permissions, now, codeUntil))
    ensures var s' := Step(s, Mint(tries, secret, permissions, now, codeUntil));
      var code := FirstFree(tries, Unspent(s.codes, now)).value;
      && Open(s', code, now) && s'.codes[code].secret == secret
      && Numbered(s') && s'.next == s.next + 1 && s'.calls == s.calls && s'.devices == s.devices
  {
    hide FirstFree, Unspent;
  }

  lemma Claims(s: State, call: nat, code: string, secret: Id, now: int)
    requires Numbered(s) && call !in s.calls && Open(s, code, now) && s.codes[code].secret == secret
    ensures Enabled(s, ClaimBegins(call, code, Some(secret), now))
    ensures var s1 := Step(s, ClaimBegins(call, code, Some(secret), now));
      && Enabled(s1, ClaimEnds(call))
      && var s2 := Step(s1, ClaimEnds(call));
      && s.next in s2.devices && s2.devices[s.next] == Device(Pending, 1, None, None, now)
      && s2.next == s.next + 1 && s2.calls == s.calls && Numbered(s2)
  {
    ClaimPairsExactlyWhen(s, call, code, secret, now);
    var s1 := Step(s, ClaimBegins(call, code, Some(secret), now));
    StepGoesForward(s, ClaimBegins(call, code, Some(secret), now));
    StepGoesForward(s1, ClaimEnds(call));
    hide PollOn, RefreshOn, IssueOn, PlayOn, ApproveOn, ApproveEndsOn, RejectOn, RevokeOn, DeleteOn, PruneOn, DeleteFolderOn, SetPermissionsOn, MintOn;
  }

  lemma Approves(s: State, call: nat, device: Id, now: int)
    requires Numbered(s) && call !in s.calls && device in s.devices && s.devices[device].status == Pending && s.devices[device].tokenVersion == 1
    ensures Enabled(s, ApproveBegins(call, device))
    ensures var s1 := Step(s, ApproveBegins(call, device));
      && Enabled(s1, ApproveEnds(call, now))
      && var s2 := Step(s1, ApproveEnds(call, now));
      && Standing(s2, device, 1) && Stashed(s2, device, s.next, now) && s2.devices[device].dav == Some(s.next)
      && call !in s2.calls && Numbered(s2)
  {
    var s1 := Step(s, ApproveBegins(call, device));
    StepGoesForward(s, ApproveBegins(call, device));
    ApprovalReadies(s1, call, now);
    StepGoesForward(s1, ApproveEnds(call, now));
    hide ApproveEndsOn, PollOn, RefreshOn, IssueOn, PlayOn, ClaimOn, ClaimEndsOn, RejectOn, RevokeOn, DeleteOn, PruneOn, DeleteFolderOn, SetPermissionsOn, MintOn;
  }

  lemma Collects(s: State, call: nat, device: Id, version: nat, password: Id, now: int, accessUntil: int, refreshUntil: int)
    requires Standing(s, device, version) && Stashed(s, device, password, now) && Numbered(s) && call !in s.calls
    requires s.devices[device].dav == Some(password)
    ensures var poll := PollBegins(call, device, true, now, accessUntil);
      && Enabled(s, poll)
      && var s1 := Step(s, poll);
      && Enabled(s1, SessionIssued(call, refreshUntil))
      && var answer := Perform(s1, SessionIssued(call, refreshUntil));
      && answer.reply == Issued(Access(device, version, accessUntil), RefreshToken(device, s1.next), Some(password))
      && device in answer.state.devices && answer.state.devices[device].dav == Some(password)
      && (forall later :: VerifyAccess(answer.state, answer.reply.access, later).None? <==> later < accessUntil)
      && (forall again, later, until :: RefreshOn(answer.state, again, answer.reply.refresh, later, until).reply == Awaiting <==> later <= refreshUntil)
  {
    hide ApproveOn, ApproveEndsOn, PlayOn, ClaimOn, ClaimEndsOn, RejectOn, RevokeOn, DeleteOn, PruneOn, DeleteFolderOn, SetPermissionsOn, MintOn;
  }
}
