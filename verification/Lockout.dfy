/** The lockout of a pairing code after five wrong secrets. */
module Lockout {
  import opened Text
  import opened Pairing
  import opened Revocation
  import opened PairingSafety

  /** A claim is being checked against this row. */
  predicate Checking(s: State, row: Id) {
    exists call | call in s.calls :: s.calls[call].Verifying? && s.calls[call].row == row
  }

  /** No second claim with a secret starts on a row while one is being checked. */
  predicate Serial(s: State, e: Event) {
    match e
    case ClaimBegins(_, code, given, _) => given.None? || code !in s.codes || !Checking(s, s.codes[code].id)
    case _ => true
  }

  ghost predicate SerialRun(s: State, events: seq<Event>)
    decreases |events|
  {
    events == [] || !Enabled(s, events[0]) || (Serial(s, events[0]) && SerialRun(Step(s, events[0]), events[1..]))
  }

  /** The row counts every wrong secret it saw, is locked once that is five, and a check in progress
      read the count as it is. */
  ghost predicate Counted(s: State) {
    Rows(s) && Tally(s) && Reads(s)
  }

  ghost predicate Tally(s: State) {
    && (forall code | code in s.codes ::
          s.codes[code].failed == Wrong(s, s.codes[code].id) && (s.codes[code].locked <==> s.codes[code].failed >= MAX_FAILED_ATTEMPTS))
    && (forall row | row in s.record.wrong :: row < s.next && s.record.wrong[row] <= MAX_FAILED_ATTEMPTS)
  }

  ghost predicate Reads(s: State) {
    && (forall call | call in s.calls && s.calls[call].Verifying? ::
          && s.calls[call].row < s.next
          && s.calls[call].failed == Wrong(s, s.calls[call].row) < MAX_FAILED_ATTEMPTS
          && forall code | code in s.codes && s.codes[code].id == s.calls[call].row :: code == s.calls[call].code)
    && (forall call, other | call in s.calls && other in s.calls && s.calls[call].Verifying? && s.calls[other].Verifying?
                          && s.calls[call].row == s.calls[other].row :: call == other)
  }

  ghost predicate CountKept(s: State, s': State) {
    && s'.codes.Keys == s.codes.Keys && s'.record.wrong == s.record.wrong && s.next <= s'.next
    && (forall code | code in s.codes ::
          && s'.codes[code].id == s.codes[code].id && s'.codes[code].failed == s.codes[code].failed
          && s'.codes[code].locked == s.codes[code].locked)
    && (forall call | call in s'.calls && s'.calls[call].Verifying? :: call in s.calls && s'.calls[call] == s.calls[call])
  }

  lemma SessionKeepsCount(s: State, e: Event)
    requires Enabled(s, e) && BySession(e)
    ensures CountKept(s, Step(s, e))
  {
    hide MintOn, ClaimOn, ClaimEndsOn, ApproveOn, ApproveEndsOn, RejectOn, RevokeOn, DeleteOn, PruneOn, DeleteFolderOn, SetPermissionsOn;
  }

  lemma OperatorKeepsCount(s: State, e: Event)
    requires Enabled(s, e) && ByOperator(e)
    ensures CountKept(s, Step(s, e))
  {
    hide DefaultPermissions, Upserted, MintOn, ClaimOn, ClaimEndsOn, PollOn, RefreshOn, IssueOn, PlayOn, DeleteOn, PruneOn, DeleteFolderOn, SetPermissionsOn;
  }

  lemma HousekeepingKeepsCount(s: State, e: Event)
    requires Enabled(s, e) && ByHousekeeping(e)
    ensures CountKept(s, Step(s, e))
  {
    hide Upserted, MintOn, ClaimOn, ClaimEndsOn, PollOn, RefreshOn, IssueOn, PlayOn, ApproveOn, ApproveEndsOn, RejectOn;
  }

  lemma KeptCount(s: State, s': State)
    requires Counted(s) && CountKept(s, s')
    ensures Counted(s')
  {}

  lemma ConsumeKeepsCount(s: State, code: string, row: Id, now: int)
    ensures CountKept(s, ConsumeOn(s, code, row, now).state)
  {}

  lemma MintTally(s: State, tries: seq<string>, secret: Id, permissions: seq<Permission>, now: int, expiresAt: int)
    requires Tally(s)
    ensures Tally(MintOn(s, tries, secret, permissions, now, expiresAt).state)
  {
    hide FirstFree, Spent;
  }

  lemma MintReads(s: State, tries: seq<string>, secret: Id, permissions: seq<Permission>, now: int, expiresAt: int)
    requires Reads(s)
    ensures Reads(MintOn(s, tries, secret, permissions, now, expiresAt).state)
  {
    hide FirstFree, Spent;
  }

  lemma MintCounted(s: State, tries: seq<string>, secret: Id, permissions: seq<Permission>, now: int, expiresAt: int)
    requires Counted(s)
    ensures Counted(MintOn(s, tries, secret, permissions, now, expiresAt).state)
  {
    hide Rows, Tally, Reads;
    MintRows(s, tries, secret, permissions, now, expiresAt);
    MintTally(s, tries, secret, permissions, now, expiresAt);
    MintReads(s, tries, secret, permissions, now, expiresAt);
  }

  lemma WaitingCounted(s: State, call: nat, code: string, matches: bool, now: int)
    requires Counted(s) && call !in s.calls && code in s.codes && !s.codes[code].locked && !Checking(s, s.codes[code].id)
    ensures Counted(s.(calls := s.calls[call := Verifying(code, s.codes[code].id, s.codes[code].failed, matches, now)]))
  {}

  lemma ClaimBeginsCounted(s: State, call: nat, code: string, given: Option<Id>, now: int)
    requires Counted(s) && call !in s.calls
    requires given.None? || code !in s.codes || !Checking(s, s.codes[code].id)
    ensures Counted(ClaimOn(s, call, code, given, now).state)
  {
    hide Counted, CountKept, Checking, ConsumeOn;
    if code in s.codes {
      ConsumeKeepsCount(s, code, s.codes[code].id, now);
      KeptCount(s, ConsumeOn(s, code, s.codes[code].id, now).state);
      if given.Some? && !s.codes[code].locked {
        WaitingCounted(s, call, code, given.value == s.codes[code].secret, now);
      }
    }
  }

  lemma FailureRowsAndTally(s: State, call: nat)
    requires Counted(s) && call in s.calls && s.calls[call].Verifying? && !s.calls[call].matches
    ensures Rows(ClaimEndsOn(s, call).state) && Tally(ClaimEndsOn(s, call).state)
  {}

  lemma FailureReads(s: State, call: nat)
    requires Rows(s) && Reads(s) && call in s.calls && s.calls[call].Verifying? && !s.calls[call].matches
    ensures Reads(ClaimEndsOn(s, call).state)
  {}

  lemma ClaimEndsCounted(s: State, call: nat)
    requires Counted(s) && call in s.calls && s.calls[call].Verifying?
    ensures Counted(ClaimEndsOn(s, call).state)
  {
    if s.calls[call].matches {
      var after := s.(calls := s.calls - {call});
      var pending := s.calls[call];
      ConsumeKeepsCount(after, pending.code, pending.row, pending.at);
      KeptCount(s, ConsumeOn(after, pending.code, pending.row, pending.at).state);
    } else {
      FailureRowsAndTally(s, call);
      FailureReads(s, call);
    }
    hide ConsumeOn, Rows, Tally, Reads;
  }

  lemma StepCounted(s: State, e: Event)
    requires Enabled(s, e) && Counted(s) && Serial(s, e)
    ensures Counted(Step(s, e))
  {
    hide Counted, CountKept, Checking, MintOn, ClaimOn, ClaimEndsOn;
    match e {
      case Mint(tries, secret, permissions, now, expiresAt) => MintCounted(s, tries, secret, permissions, now, expiresAt);
      case ClaimBegins(call, code, given, now) => ClaimBeginsCounted(s, call, code, given, now);
      case ClaimEnds(call) => ClaimEndsCounted(s, call);
      case _ => OtherCounted(s, e);
    }
  }

  lemma OtherCounted(s: State, e: Event)
    requires Enabled(s, e) && Counted(s) && !ByClaim(e)
    ensures Counted(Step(s, e))
  {
    hide Counted, CountKept, Step;
    if BySession(e) {
      SessionKeepsCount(s, e);
    } else if ByOperator(e) {
      OperatorKeepsCount(s, e);
    } else {
      HousekeepingKeepsCount(s, e);
    }
    KeptCount(s, Step(s, e));
  }

  lemma {:induction false} EverySerialRunCounts(s: State, events: seq<Event>)
    requires Counted(s) && SerialRun(s, events)
    ensures Counted(Run(s, events))
    decreases |events|
  {
    hide Step, Enabled, Counted, Serial;
    if events != [] && Enabled(s, events[0]) {
      StepCounted(s, events[0]);
      EverySerialRunCounts(Step(s, events[0]), events[1..]);
    }
  }

  /** When claims on one code come one after another, nobody gets more than five wrong secrets at a
      code, and after the fifth it refuses every claim. */
  lemma FiveGuesses(events: seq<Event>, row: Id)
    requires SerialRun(EMPTY, events)
    ensures Wrong(Run(EMPTY, events), row) <= MAX_FAILED_ATTEMPTS
    ensures forall code, call, given, now | code in Run(EMPTY, events).codes && Run(EMPTY, events).codes[code].id == row
      && Wrong(Run(EMPTY, events), row) == MAX_FAILED_ATTEMPTS ::
      ClaimOn(Run(EMPTY, events), call, code, given, now) == Answer(Run(EMPTY, events), Failed(PairingLocked))
  {
    hide Run;
    EverySerialRunCounts(EMPTY, events);
  }

  // ─── claims that overlap ─────────────────────────────────────────────────────

  /** A failed check writes the count it read plus one and the lock that goes with it: it counts the
      failure exactly when the count it read was still the count, and leaves a lock in place exactly
      when the count it read was the last one below the limit, or past it. */
  lemma StaleFailure(s: State, call: nat)
    requires call in s.calls && s.calls[call].Verifying? && !s.calls[call].matches
    requires s.calls[call].code in s.codes && s.codes[s.calls[call].code].id == s.calls[call].row
    ensures var before := s.codes[s.calls[call].code];
      var after := ClaimEndsOn(s, call).state.codes[s.calls[call].code];
      && (after.failed == before.failed + 1 <==> s.calls[call].failed == before.failed)
      && (before.locked ==> (after.locked <==> s.calls[call].failed + 1 >= MAX_FAILED_ATTEMPTS))
  {}

  lemma BothBeingChecked(s: State, code: string, wrong: Id, now: int)
    requires code in s.codes && !s.codes[code].locked && s.codes[code].consumedAt.None? && s.codes[code].expiresAt > now
    requires s.codes[code].secret != wrong && s.calls == map[]
    ensures var pending := Verifying(code, s.codes[code].id, s.codes[code].failed, false, now);
            var e0, e1 := ClaimBegins(0, code, Some(wrong), now), ClaimBegins(1, code, Some(wrong), now);
      && Enabled(s, e0) && Enabled(Step(s, e0), e1)
      && Step(Step(s, e0), e1) == s.(calls := map[0 := pending, 1 := pending])
  {
    hide ConsumeOn;
    var pending := Verifying(code, s.codes[code].id, s.codes[code].failed, false, now);
    assert ClaimOn(s, 0, code, Some(wrong), now).state == s.(calls := map[0 := pending]);
    assert ClaimOn(s.(calls := map[0 := pending]), 1, code, Some(wrong), now).state.calls == map[0 := pending, 1 := pending];
  }

  lemma BothFail(s: State, pending: Call)
    requires pending.Verifying? && !pending.matches && s.calls == map[0 := pending, 1 := pending]
    requires pending.code in s.codes && s.codes[pending.code].id == pending.row
    ensures Enabled(s, ClaimEnds(0)) && Enabled(Step(s, ClaimEnds(0)), ClaimEnds(1))
    ensures var end := Step(Step(s, ClaimEnds(0)), ClaimEnds(1));
      && pending.code in end.codes && end.codes[pending.code].failed == pending.failed + 1
      && Wrong(end, pending.row) == Wrong(s, pending.row) + 2
  {
    hide ConsumeOn;
    assert s.calls - {0} == map[1 := pending];
    assert ClaimEndsOn(s, 0).state.calls == map[1 := pending];
  }

  /** Two failures that overlap are counted as one, so the count is exact only for claims that come
      one after another. */
  lemma OverlappingFailuresCountOnce(s: State, code: string, wrong: Id, now: int)
    requires code in s.codes && !s.codes[code].locked && s.codes[code].consumedAt.None? && s.codes[code].expiresAt > now
    requires s.codes[code].secret != wrong && s.calls == map[]
    ensures var end := Run(s, [ClaimBegins(0, code, Some(wrong), now), ClaimBegins(1, code, Some(wrong), now), ClaimEnds(0), ClaimEnds(1)]);
      && code in end.codes && end.codes[code].failed == s.codes[code].failed + 1
      && Wrong(end, s.codes[code].id) == Wrong(s, s.codes[code].id) + 2
  {
    hide Run, Step, Enabled, Wrong;
    var e0, e1 := ClaimBegins(0, code, Some(wrong), now), ClaimBegins(1, code, Some(wrong), now);
    BothBeingChecked(s, code, wrong, now);
    var pending := Verifying(code, s.codes[code].id, s.codes[code].failed, false, now);
    var s2 := s.(calls := map[0 := pending, 1 := pending]);
    BothFail(s2, pending);
    WrongIgnoresCalls(s, s2.calls, pending.row);
    EndOfRun(Step(Step(s2, ClaimEnds(0)), ClaimEnds(1)));
    OneStep(Step(s2, ClaimEnds(0)), ClaimEnds(1), []);
    OneStep(s2, ClaimEnds(0), [ClaimEnds(1)]);
    OneStep(Step(s, e0), e1, [ClaimEnds(0), ClaimEnds(1)]);
    OneStep(s, e0, [e1, ClaimEnds(0), ClaimEnds(1)]);
    assert [e0, e1, ClaimEnds(0), ClaimEnds(1)] == [e0] + [e1, ClaimEnds(0), ClaimEnds(1)];
    assert [e1, ClaimEnds(0), ClaimEnds(1)] == [e1] + [ClaimEnds(0), ClaimEnds(1)];
    assert [ClaimEnds(0), ClaimEnds(1)] == [ClaimEnds(0)] + [ClaimEnds(1)];
    assert [ClaimEnds(1)] == [ClaimEnds(1)] + [];
  }

  lemma WrongIgnoresCalls(s: State, calls: map<nat, Call>, row: Id)
    ensures Wrong(s.(calls := calls), row) == Wrong(s, row)
  {}

  lemma EndOfRun(s: State)
    ensures Run(s, []) == s
  {}

  lemma OneStep(s: State, e: Event, rest: seq<Event>)
    requires Enabled(s, e)
    ensures Run(s, [e] + rest) == Run(Step(s, e), rest)
  {
    hide Step, Enabled;
    assert ([e] + rest)[1..] == rest;
  }
}
