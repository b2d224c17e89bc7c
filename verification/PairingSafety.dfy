/** Pairing under any interleaving: one device a code, one poll a password, no grant beyond what the
    code was minted with, and when the lockout holds. */
module PairingSafety {
  import opened Text
  import opened Pairing
  import opened Revocation

  // ─── one device a code ───────────────────────────────────────────────────────

  /** Each row of `pairing_tokens` that has a device is consumed, each device has its own row, and
      the device a row names is the one it was consumed for, with the permissions of the code. */
  ghost predicate OneDevice(s: State) {
    Rows(s) && Pairs(s) && Spends(s) && Owners(s)
  }

  ghost predicate Rows(s: State) {
    && (forall code | code in s.codes :: s.codes[code].id < s.next)
    && (forall code, code' | code in s.codes && code' in s.codes && s.codes[code].id == s.codes[code'].id :: code == code')
  }

  ghost predicate Pairs(s: State) {
    && (forall d | d in s.devices :: d in s.record.paired)
    && (forall d | d in s.record.paired :: d < s.next && s.record.paired[d].row < s.next)
    && (forall d, d' | d in s.record.paired && d' in s.record.paired && s.record.paired[d].row == s.record.paired[d'].row :: d == d')
  }

  ghost predicate Spends(s: State) {
    forall d, code | d in s.record.paired && code in s.codes && s.record.paired[d].row == s.codes[code].id ::
      s.codes[code].consumedAt.Some?
  }

  ghost predicate Owners(s: State) {
    forall code | code in s.codes && s.codes[code].consumedBy.Some? :: Owns(s, s.codes[code])
  }

  ghost predicate Owns(s: State, row: Code)
    requires row.consumedBy.Some?
  {
    && row.consumedBy.value in s.devices && row.consumedBy.value in s.record.paired
    && s.record.paired[row.consumedBy.value] == Origin(row.id, row.permissions)
  }

  /** Codes, pairings and the set of devices are as they were. */
  ghost predicate PairingsKept(s: State, s': State) {
    s'.record.paired == s.record.paired && s'.codes == s.codes && s'.devices.Keys == s.devices.Keys && s.next <= s'.next
  }

  lemma SessionKeepsPairings(s: State, e: Event)
    requires Enabled(s, e) && BySession(e)
    ensures PairingsKept(s, Step(s, e))
  {}

  lemma OperatorKeepsPairings(s: State, e: Event)
    requires Enabled(s, e) && ByOperator(e)
    ensures PairingsKept(s, Step(s, e))
  {
    hide DefaultPermissions, Upserted;
  }

  lemma KeptOneDevice(s: State, s': State)
    requires OneDevice(s) && PairingsKept(s, s')
    ensures OneDevice(s')
  {}

  lemma RemovalKeepsRows(s: State, gone: set<Id>)
    requires Rows(s) && Pairs(s) && Spends(s)
    ensures Rows(Without(s, gone)) && Pairs(Without(s, gone)) && Spends(Without(s, gone))
  {}

  lemma RemovalOneDevice(s: State, gone: set<Id>)
    requires OneDevice(s)
    ensures OneDevice(Without(s, gone))
  {
    hide Rows, Pairs, Spends;
    RemovalKeepsRows(s, gone);
  }

  lemma ConsumeRows(s: State, code: string, row: Id, now: int)
    requires Rows(s)
    ensures Rows(ConsumeOn(s, code, row, now).state)
  {}

  lemma ConsumePairs(s: State, code: string, row: Id, now: int)
    requires Rows(s) && Pairs(s) && Spends(s)
    ensures Pairs(ConsumeOn(s, code, row, now).state)
  {}

  lemma ConsumeSpends(s: State, code: string, row: Id, now: int)
    requires Rows(s) && Pairs(s) && Spends(s)
    ensures Spends(ConsumeOn(s, code, row, now).state)
  {}

  lemma ConsumeOwners(s: State, code: string, row: Id, now: int)
    requires Rows(s) && Pairs(s) && Owners(s)
    ensures Owners(ConsumeOn(s, code, row, now).state)
  {}

  lemma ConsumeOneDevice(s: State, code: string, row: Id, now: int)
    requires OneDevice(s)
    ensures OneDevice(ConsumeOn(s, code, row, now).state)
  {
    hide Rows, Pairs, Spends, Owners;
    ConsumeRows(s, code, row, now);
    ConsumePairs(s, code, row, now);
    ConsumeSpends(s, code, row, now);
    ConsumeOwners(s, code, row, now);
  }

  lemma MintRows(s: State, tries: seq<string>, secret: Id, permissions: seq<Permission>, now: int, expiresAt: int)
    requires Rows(s)
    ensures Rows(MintOn(s, tries, secret, permissions, now, expiresAt).state)
  {
    hide FirstFree, Spent;
  }

  lemma MintPairs(s: State, tries: seq<string>, secret: Id, permissions: seq<Permission>, now: int, expiresAt: int)
    requires Pairs(s)
    ensures Pairs(MintOn(s, tries, secret, permissions, now, expiresAt).state)
  {
    hide FirstFree, Spent;
  }

  lemma MintSpends(s: State, tries: seq<string>, secret: Id, permissions: seq<Permission>, now: int, expiresAt: int)
    requires Rows(s) && Pairs(s) && Spends(s)
    ensures Spends(MintOn(s, tries, secret, permissions, now, expiresAt).state)
  {
    hide FirstFree, Spent;
  }

  lemma MintOwners(s: State, tries: seq<string>, secret: Id, permissions: seq<Permission>, now: int, expiresAt: int)
    requires Rows(s) && Pairs(s) && Owners(s)
    ensures Owners(MintOn(s, tries, secret, permissions, now, expiresAt).state)
  {
    hide FirstFree, Spent;
  }

  lemma MintOneDevice(s: State, tries: seq<string>, secret: Id, permissions: seq<Permission>, now: int, expiresAt: int)
    requires OneDevice(s)
    ensures OneDevice(MintOn(s, tries, secret, permissions, now, expiresAt).state)
  {
    hide Rows, Pairs, Spends, Owners;
    MintRows(s, tries, secret, permissions, now, expiresAt);
    MintPairs(s, tries, secret, permissions, now, expiresAt);
    MintSpends(s, tries, secret, permissions, now, expiresAt);
    MintOwners(s, tries, secret, permissions, now, expiresAt);
  }

  lemma FailureRows(s: State, code: string, row: Id, attempts: nat)
    requires Rows(s)
    ensures Rows(FailureOn(s, code, row, attempts))
  {}

  lemma FailurePairs(s: State, code: string, row: Id, attempts: nat)
    requires Pairs(s)
    ensures Pairs(FailureOn(s, code, row, attempts))
  {}

  lemma FailureSpends(s: State, code: string, row: Id, attempts: nat)
    requires Rows(s) && Pairs(s) && Spends(s)
    ensures Spends(FailureOn(s, code, row, attempts))
  {}

  lemma FailureOwners(s: State, code: string, row: Id, attempts: nat)
    requires Rows(s) && Pairs(s) && Owners(s)
    ensures Owners(FailureOn(s, code, row, attempts))
  {}

  lemma FailureOneDevice(s: State, code: string, row: Id, attempts: nat)
    requires OneDevice(s)
    ensures OneDevice(FailureOn(s, code, row, attempts))
  {
    hide Rows, Pairs, Spends, Owners;
    FailureRows(s, code, row, attempts);
    FailurePairs(s, code, row, attempts);
    FailureSpends(s, code, row, attempts);
    FailureOwners(s, code, row, attempts);
  }

  lemma HousekeepingOneDevice(s: State, e: Event)
    requires Enabled(s, e) && ByHousekeeping(e) && OneDevice(s)
    ensures OneDevice(Step(s, e))
  {
    hide Upserted, DefaultPermissions, OneDevice, Orphaned, Without;
    if e.Delete? && e.device in s.devices {
      KeptOneDevice(s, RevokeOn(s, e.device));
      RemovalOneDevice(RevokeOn(s, e.device), {e.device});
    } else if e.Prune? {
      RemovalOneDevice(s, set device | device in s.devices && Abandoned(s.devices[device], e.now));
    } else {
      KeptOneDevice(s, Step(s, e));
    }
  }

  lemma ClaimOneDevice(s: State, e: Event)
    requires Enabled(s, e) && ByClaim(e) && OneDevice(s)
    ensures OneDevice(Step(s, e))
  {
    hide OneDevice, MintOn, ConsumeOn, FailureOn;
    match e {
      case Mint(tries, secret, permissions, now, expiresAt) => MintOneDevice(s, tries, secret, permissions, now, expiresAt);
      case ClaimBegins(call, code, given, now) =>
        if code in s.codes {
          ConsumeOneDevice(s, code, s.codes[code].id, now);
        }
        KeptOneDevice(s, s.(calls := Step(s, e).calls));
      case ClaimEnds(call) =>
        var after := s.(calls := s.calls - {call});
        var pending := s.calls[call];
        KeptOneDevice(s, after);
        ConsumeOneDevice(after, pending.code, pending.row, pending.at);
        FailureOneDevice(after, pending.code, pending.row, pending.failed + 1);
    }
  }

  lemma StepOneDevice(s: State, e: Event)
    requires Enabled(s, e) && OneDevice(s)
    ensures OneDevice(Step(s, e))
  {
    hide Step, Enabled, OneDevice;
    if ByClaim(e) {
      ClaimOneDevice(s, e);
    } else if BySession(e) {
      SessionKeepsPairings(s, e);
      KeptOneDevice(s, Step(s, e));
    } else if ByOperator(e) {
      OperatorKeepsPairings(s, e);
      KeptOneDevice(s, Step(s, e));
    } else {
      HousekeepingOneDevice(s, e);
    }
  }

  lemma {:induction false} EveryRunKeepsOneDevice(s: State, events: seq<Event>)
    requires OneDevice(s)
    ensures OneDevice(Run(s, events))
    decreases |events|
  {
    hide Step, Enabled, OneDevice;
    if events != [] && Enabled(s, events[0]) {
      StepOneDevice(s, events[0]);
      EveryRunKeepsOneDevice(Step(s, events[0]), events[1..]);
    }
  }

  /** However claims on a code interleave at their awaits, it pairs at most one device. */
  lemma AtMostOneDevicePerCode(events: seq<Event>, d: Id, d': Id)
    requires d in Run(EMPTY, events).record.paired && d' in Run(EMPTY, events).record.paired
    requires Run(EMPTY, events).record.paired[d].row == Run(EMPTY, events).record.paired[d'].row
    ensures d == d'
  {
    hide Run;
    EveryRunKeepsOneDevice(EMPTY, events);
  }

  // ─── one poll a password ─────────────────────────────────────────────────────

  /** Where a WebDAV password can be: with a call in progress, in the stash, or handed out. */
  datatype Holder = InCall(call: nat) | InStash(device: Id) | InHand(index: nat)

  function Carried(call: Call): Option<Id> {
    match call
    case Verifying(_, _, _, _, _) => None
    case Hashing(_, password) => Some(password)
    case Signing(_, collected) => collected
  }

  ghost predicate Holds(s: State, h: Holder, password: Id) {
    match h
    case InCall(call) => call in s.calls && Carried(s.calls[call]) == Some(password)
    case InStash(device) => device in s.stash && s.stash[device].password == password
    case InHand(i) => i < |s.record.handedOut| && s.record.handedOut[i].password == password
  }

  ghost predicate OneHolder(s: State) {
    && (forall h, password: Id | Holds(s, h, password) :: password < s.next)
    && (forall h, h', password: Id | Holds(s, h, password) && Holds(s, h', password) :: h == h')
  }

  /** Where the password a holder has after the step was before it. */
  function HeldBefore(s: State, e: Event, h: Holder): Holder {
    match e
    case ApproveEnds(call, _) =>
      if call in s.calls && s.calls[call].Hashing? && h == InStash(s.calls[call].device) then InCall(call) else h
    case PollBegins(call, device, _, _, _) => if h == InCall(call) then InStash(device) else h
    case SessionIssued(call, _) => if h == InHand(|s.record.handedOut|) then InCall(call) else h
    case _ => h
  }

  /** A step moves passwords, or makes a new one for the approval it begins. */
  ghost predicate Moves(s: State, e: Event, s': State) {
    && s.next <= s'.next
    && (forall h, password: Id | Holds(s', h, password) ::
          Holds(s, HeldBefore(s, e, h), password)
          || (password == s.next < s'.next && e.ApproveBegins? && h == InCall(e.call)))
    && (forall h, h', p: Id, p': Id | Holds(s', h, p) && Holds(s', h', p') && HeldBefore(s, e, h) == HeldBefore(s, e, h') :: h == h')
  }

  /** No password came, went or moved. */
  ghost predicate PasswordsKept(s: State, s': State) {
    && s'.stash == s.stash && s'.record.handedOut == s.record.handedOut && s.next <= s'.next
    && forall call | call in s'.calls && Carried(s'.calls[call]).Some? :: call in s.calls && s'.calls[call] == s.calls[call]
  }

  lemma ConsumeKeepsPasswords(s: State, code: string, row: Id, now: int)
    ensures PasswordsKept(s, ConsumeOn(s, code, row, now).state)
  {}

  lemma ClaimKeepsPasswords(s: State, e: Event)
    requires Enabled(s, e) && ByClaim(e)
    ensures PasswordsKept(s, Step(s, e))
  {
    match e {
      case Mint(_, _, _, _, _) =>
      case ClaimBegins(call, code, given, now) =>
        if code in s.codes {
          ConsumeKeepsPasswords(s, code, s.codes[code].id, now);
        }
      case ClaimEnds(call) =>
        var pending := s.calls[call];
        ConsumeKeepsPasswords(s.(calls := s.calls - {call}), pending.code, pending.row, pending.at);
    }
    hide FirstFree, Unspent, ConsumeOn;
  }

  lemma ClaimMoves(s: State, e: Event)
    requires Enabled(s, e) && ByClaim(e)
    ensures Moves(s, e, Step(s, e))
  {
    hide Step, Enabled;
    ClaimKeepsPasswords(s, e);
  }

  lemma SessionMoves(s: State, e: Event)
    requires Enabled(s, e) && BySession(e)
    ensures Moves(s, e, Step(s, e))
  {
    hide DefaultPermissions, Upserted;
  }

  lemma OperatorMoves(s: State, e: Event)
    requires Enabled(s, e) && ByOperator(e)
    ensures Moves(s, e, Step(s, e))
  {
    hide DefaultPermissions, Upserted;
  }

  lemma HousekeepingMoves(s: State, e: Event)
    requires Enabled(s, e) && ByHousekeeping(e)
    ensures Moves(s, e, Step(s, e))
  {
    hide DefaultPermissions, Upserted;
  }

  lemma StepMoves(s: State, e: Event)
    requires Enabled(s, e)
    ensures Moves(s, e, Step(s, e))
  {
    hide Step, Enabled;
    if ByClaim(e) {
      ClaimMoves(s, e);
    } else if BySession(e) {
      SessionMoves(s, e);
    } else if ByOperator(e) {
      OperatorMoves(s, e);
    } else {
      HousekeepingMoves(s, e);
    }
  }

  lemma StepOneHolder(s: State, e: Event)
    requires Enabled(s, e) && OneHolder(s)
    ensures OneHolder(Step(s, e))
  {
    StepMoves(s, e);
    hide Step, Enabled, Holds, HeldBefore;
  }

  lemma {:induction false} EveryRunKeepsOneHolder(s: State, events: seq<Event>)
    requires OneHolder(s)
    ensures OneHolder(Run(s, events))
    decreases |events|
  {
    hide Step, Enabled, OneHolder;
    if events != [] && Enabled(s, events[0]) {
      StepOneHolder(s, events[0]);
      EveryRunKeepsOneHolder(Step(s, events[0]), events[1..]);
    }
  }

  /** Each approval's WebDAV password is returned by at most one poll. */
  lemma PasswordsAreHandedOutOnce(events: seq<Event>, i: nat, j: nat)
    requires i < j < |Run(EMPTY, events).record.handedOut|
    ensures Run(EMPTY, events).record.handedOut[i].password != Run(EMPTY, events).record.handedOut[j].password
  {
    hide Run;
    EveryRunKeepsOneHolder(EMPTY, events);
    var s := Run(EMPTY, events);
    assert Holds(s, InHand(i), s.record.handedOut[i].password);
    assert Holds(s, InHand(j), s.record.handedOut[j].password);
  }

  /** The password waiting for a device is the one whose hash is on its row. */
  ghost predicate StashFits(s: State) {
    && Numbered(s)
    && (forall call | call in s.calls && s.calls[call].Hashing? :: s.calls[call].device < s.next)
    && (forall d | d in s.stash :: d < s.next)
    && (forall d | d in s.stash && d in s.devices :: s.devices[d].dav == Some(s.stash[d].password))
  }

  lemma ClaimStashFits(s: State, e: Event)
    requires Enabled(s, e) && ByClaim(e) && StashFits(s)
    ensures StashFits(Step(s, e))
  {
    ClaimStep(s, e);
    hide Step, Enabled;
  }

  lemma SessionStashFits(s: State, e: Event)
    requires Enabled(s, e) && BySession(e) && StashFits(s)
    ensures StashFits(Step(s, e))
  {
    hide MintOn, ClaimOn, ClaimEndsOn, ApproveOn, ApproveEndsOn, RejectOn, RevokeOn, DeleteOn, PruneOn, DeleteFolderOn, SetPermissionsOn;
  }

  lemma OperatorStashFits(s: State, e: Event)
    requires Enabled(s, e) && ByOperator(e) && StashFits(s)
    ensures StashFits(Step(s, e))
  {
    hide DefaultPermissions, Upserted, MintOn, ClaimOn, ClaimEndsOn, PollOn, RefreshOn, IssueOn, PlayOn, DeleteOn, PruneOn, DeleteFolderOn, SetPermissionsOn;
  }

  lemma HousekeepingStashFits(s: State, e: Event)
    requires Enabled(s, e) && ByHousekeeping(e) && StashFits(s)
    ensures StashFits(Step(s, e))
  {
    hide Upserted, MintOn, ClaimOn, ClaimEndsOn, PollOn, RefreshOn, IssueOn, PlayOn, ApproveOn, ApproveEndsOn, RejectOn;
  }

  lemma StepStashFits(s: State, e: Event)
    requires Enabled(s, e) && StashFits(s)
    ensures StashFits(Step(s, e))
  {
    hide Step, Enabled;
    if ByClaim(e) {
      ClaimStashFits(s, e);
    } else if BySession(e) {
      SessionStashFits(s, e);
    } else if ByOperator(e) {
      OperatorStashFits(s, e);
    } else {
      HousekeepingStashFits(s, e);
    }
  }

  lemma {:induction false} EveryRunKeepsStashFits(s: State, events: seq<Event>)
    requires StashFits(s)
    ensures StashFits(Run(s, events))
    decreases |events|
  {
    hide Step, Enabled, StashFits;
    if events != [] && Enabled(s, events[0]) {
      StepStashFits(s, events[0]);
      EveryRunKeepsStashFits(Step(s, events[0]), events[1..]);
    }
  }

  /** What a poll takes away is what the device can log in with. */
  lemma CollectedPasswordOpensTheDrive(events: seq<Event>, call: nat, device: Id, genuine: bool, now: int, expiresAt: int)
    requires PollOn(Run(EMPTY, events), call, device, genuine, now, expiresAt).reply == Awaiting
    ensures var s := PollOn(Run(EMPTY, events), call, device, genuine, now, expiresAt).state;
      s.calls[call].Signing? && device in s.devices && s.calls[call].collected.Some? && s.devices[device].dav == s.calls[call].collected
  {
    hide Run;
    EveryRunKeepsStashFits(EMPTY, events);
  }
}
