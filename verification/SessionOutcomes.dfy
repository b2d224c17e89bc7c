/** What the callers of a refresh are handed: the session the server issued, or an error when there
    is a reason for one. */
module SessionOutcomes {
  import opened Text
  import opened Session
  import opened SessionSafety

  // ─── errors have a cause ─────────────────────────────────────────────────────

  /** The request was lost on the way, its answer was lost, or it was refused. */
  predicate Fails(s: State, e: Event) {
    || e.Drop? || e.LoseAnswer?
    || (e.Deliver? && s.client.flight.Some? && s.client.flight.value.stage.Awaiting?
        && s.client.flight.value.stage.request in s.server.requests
        && s.server.requests[s.client.flight.value.stage.request].Refused?)
  }

  predicate Unfailing(s: State, events: seq<Event>)
    decreases |events|
  {
    events == [] || !Enabled(s, events[0]) || (!Fails(s, events[0]) && Unfailing(Step(s, events[0]), events[1..]))
  }

  predicate FailurePending(s: State) {
    s.client.flight.Some? && s.client.flight.value.stage.Failing?
  }

  predicate HasThrown(s: State, id: nat) {
    id in s.client.callers && s.client.callers[id].Finished? && s.client.callers[id].outcome.Threw?
  }

  lemma NobodyThrows(s: State, e: Event, id: nat)
    requires Enabled(s, e) && !Fails(s, e) && !FailurePending(s) && !HasThrown(s, id)
    ensures !FailurePending(Step(s, e)) && !HasThrown(Step(s, e), id)
  {}

  /** A call ends in an error only if, since it was made, a request or an answer was lost or a refusal
      came back, or such a failure had not yet been handed out when it was made. */
  lemma {:induction false} ErrorsHaveACause(s: State, events: seq<Event>, id: nat)
    requires !HasThrown(s, id) && !FailurePending(s) && Unfailing(s, events)
    ensures !HasThrown(Run(s, events), id) && !FailurePending(Run(s, events))
    decreases |events|
  {
    hide Step, Enabled, HasThrown, FailurePending, Fails;
    if events != [] && Enabled(s, events[0]) {
      NobodyThrows(s, events[0], id);
      ErrorsHaveACause(Step(s, events[0]), events[1..], id);
    }
  }

  /** That last case: a call that joins a refresh which has failed already gets its error too. */
  lemma LateCallerSharesTheError(s: State, id: nat, now: int)
    requires FailurePending(s) && s.client.memory.Held? && id !in s.client.callers
    requires s.client.memory.session.expiresAt - now <= 300_000
    ensures HasThrown(Run(s, [Call(id, EnsureFresh), Decide(id, now), Release]), id)
  {
    var s1 := Step(s, Call(id, EnsureFresh));
    var s2 := Step(s1, Decide(id, now));
    assert s2.client.callers[id] == Waiting(EnsureFresh) && s2.client.flight == s.client.flight;
    assert Run(s, [Call(id, EnsureFresh), Decide(id, now), Release])
        == Run(s1, [Decide(id, now), Release]) == Run(s2, [Release]) == Run(Step(s2, Release), []);
  }

  // ─── the session the server issued ───────────────────────────────────────────

  /** The tokens and the expiry of a rotation, as the server put them into its answer. */
  datatype Rotation = Rotation(access: Token, refresh: Token, expiresAt: int)

  /** The last rotation of a run, if there was one. */
  function LastRotation(s: State, events: seq<Event>, before: Option<Rotation>): Option<Rotation>
    decreases |events|
  {
    if events == [] || !Enabled(s, events[0]) then before
    else
      var next := match events[0]
                  case Rotate(_, expiresAt, _) => Some(Rotation(s.server.nextToken, s.server.nextToken + 1, expiresAt))
                  case _ => before;
      LastRotation(Step(s, events[0]), events[1..], next)
  }

  /** What is on its way to the callers is what was rotated last, and the server's live token with it. */
  ghost predicate OnItsWay(s: State, last: Option<Rotation>) {
    s.client.flight.Some? && !s.server.revoked ==>
      match s.client.flight.value.stage
      case Awaiting(request) =>
        request in s.server.requests && s.server.requests[request].Accepted? ==>
          var answer := s.server.requests[request];
          last == Some(Rotation(answer.access, answer.refresh, answer.expiresAt))
      case Writing(next) => last == Some(Rotation(next.access, next.refresh, next.expiresAt))
      case Written(next) => last == Some(Rotation(next.access, next.refresh, next.expiresAt))
      case Installed(next) => last == Some(Rotation(next.access, next.refresh, next.expiresAt))
      case Failing => true
  }

  function RotationAfter(s: State, e: Event, before: Option<Rotation>): Option<Rotation> {
    match e
    case Rotate(_, expiresAt, _) => Some(Rotation(s.server.nextToken, s.server.nextToken + 1, expiresAt))
    case _ => before
  }

  lemma StaysOnItsWay(s: State, e: Event, last: Option<Rotation>)
    requires Invariant(s) && Enabled(s, e) && Admissible(s, e) && OnItsWay(s, last)
    ensures OnItsWay(Step(s, e), RotationAfter(s, e, last))
  {}

  lemma {:induction false} EveryRunStaysOnItsWay(s: State, events: seq<Event>, last: Option<Rotation>)
    requires Invariant(s) && AdmissibleRun(s, events) && OnItsWay(s, last)
    ensures OnItsWay(Run(s, events), LastRotation(s, events, last))
    decreases |events|
  {
    hide Invariant, Step, Enabled, Admissible, OnItsWay;
    if events != [] && Enabled(s, events[0]) {
      StaysOnItsWay(s, events[0], last);
      StepKeeps(s, events[0]);
      EveryRunStaysOnItsWay(Step(s, events[0]), events[1..], RotationAfter(s, events[0], last));
    }
  }

  /** When the gate opens on a refresh that went through, everyone who waited is handed one session:
      it carries the tokens and the expiry of the last rotation, and while nobody closed the device its
      refresh token is the server's live one. */
  lemma WaitersGetWhatWasIssued(s0: State, events: seq<Event>)
    requires JustPaired(s0) && AdmissibleRun(s0, events)
    requires var s := Run(s0, events);
      !s.server.revoked && Enabled(s, Release) && !FailurePending(s)
    ensures var s := Run(s0, events);
      var last := LastRotation(s0, events, None);
      last.Some? && exists session: Session ::
        && session.access == last.value.access && session.refresh == last.value.refresh && session.expiresAt == last.value.expiresAt
        && s.server.live == Some(session.refresh) && s.client.memory == Held(session) && s.client.store == Some(session)
        && forall id | id in s.client.callers && s.client.callers[id].Waiting? ::
             id in Step(s, Release).client.callers
             && Step(s, Release).client.callers[id] == Finished(s.client.callers[id].purpose, Returned(session))
  {
    EveryRunKeeps(s0, events);
    EveryRunStaysOnItsWay(s0, events, None);
    var s := Run(s0, events);
    hide Run, LastRotation, AdmissibleRun;
    var next := s.client.flight.value.stage.next;
    assert next.access == LastRotation(s0, events, None).value.access;
  }

  /** In a run that loses nothing, of a device nobody closed, every call that has ended returned a
      session. */
  lemma EveryCallSucceeds(s0: State, events: seq<Event>, id: nat)
    requires JustPaired(s0) && AdmissibleRun(s0, events) && Lossless(events) && !Run(s0, events).server.revoked
    requires id in Run(s0, events).client.callers && Run(s0, events).client.callers[id].Finished?
    ensures Run(s0, events).client.callers[id].outcome.Returned?
  {
    EveryRunKeeps(s0, events);
    LosslessIsUnfailing(s0, events);
    ErrorsHaveACause(s0, events, id);
    hide Run;
    SingleFlight(s0, events);
  }

  predicate Lossless(events: seq<Event>) {
    forall e | e in events :: !e.Drop? && !e.LoseAnswer? && !e.Relaunch?
  }

  lemma {:induction false} RevokedStays(s: State, events: seq<Event>)
    requires s.server.revoked
    ensures Run(s, events).server.revoked
    decreases |events|
  {
    if events != [] && Enabled(s, events[0]) {
      RevokedStays(Step(s, events[0]), events[1..]);
    }
  }

  lemma {:induction false} LosslessIsUnfailing(s: State, events: seq<Event>)
    requires Invariant(s) && AdmissibleRun(s, events) && Lossless(events) && !Run(s, events).server.revoked
    ensures Unfailing(s, events)
    decreases |events|
  {
    hide Step, Enabled, Admissible;
    if events != [] && Enabled(s, events[0]) {
      assert events[0] in events && forall e | e in events[1..] :: e in events;
      if s.server.revoked {
        RevokedStays(s, events);
      }
      OpenIsNotRefused(s, events[0]);
      StepKeeps(s, events[0]);
      hide Invariant, Fails;
      LosslessIsUnfailing(Step(s, events[0]), events[1..]);
    }
  }

  lemma OpenIsNotRefused(s: State, e: Event)
    requires Invariant(s) && !s.server.revoked && !e.Drop? && !e.LoseAnswer?
    ensures !Fails(s, e)
  {}

  // ─── fresh enough ────────────────────────────────────────────────────────────

  /** `ensureFresh` hands back what it has exactly when that is good for more than five minutes;
      otherwise there is a refresh in flight afterwards and the caller waits for it. */
  lemma ReturnsAtOnceExactlyWhenFresh(s: State, id: nat, now: int)
    requires Enabled(s, Decide(id, now)) && s.client.callers[id].purpose == EnsureFresh
    requires s.client.callers[id].snapshot.Some?
    ensures var session := s.client.callers[id].snapshot.value;
      var after := Step(s, Decide(id, now)).client;
      if session.expiresAt > now + 300_000 then
        after.callers[id] == Finished(EnsureFresh, Returned(session)) && after.flight == s.client.flight
      else after.callers[id] == Waiting(EnsureFresh) && after.flight.Some?
  {}

  /** `refreshAfter` hands back what is there exactly when that is not the token that was reported. */
  lemma ReturnsAtOnceExactlyWhenAnother(s: State, id: nat, now: int, stale: Token)
    requires Enabled(s, Decide(id, now)) && s.client.callers[id].purpose == RefreshAfter(stale)
    requires s.client.callers[id].snapshot.Some?
    ensures var session := s.client.callers[id].snapshot.value;
      var after := Step(s, Decide(id, now)).client;
      if session.access != stale then
        after.callers[id] == Finished(RefreshAfter(stale), Returned(session)) && after.flight == s.client.flight
      else after.callers[id] == Waiting(RefreshAfter(stale)) && after.flight.Some?
  {}

  // ─── what a closed device is told ────────────────────────────────────────────

  /** Once a device is closed the server knows no refresh token of it, whichever it sends; if a request
      that had passed the check is carried out after that, the token it yields is refused as well. */
  lemma ClosedThenRefused(s: State, request: nat, passed: nat, now: int, accessExpiresAt: int, refreshExpiresAt: int)
    requires request in s.server.requests && s.server.requests[request].Sent? && request != passed
    ensures var s' := Run(s, [Revoke, Check(request, now)]);
      request in s'.server.requests && s'.server.requests[request] == Refused(Unauthenticated)
    ensures passed in s.server.requests && s.server.requests[passed].Checked? ==>
      var s' := Run(s, [Revoke, Rotate(passed, accessExpiresAt, refreshExpiresAt), Check(request, now)]);
      request in s'.server.requests && s'.server.requests[request] == Refused(DeviceRevoked)
  {
    EnabledFirst(s, Revoke, [Check(request, now)]);
    var closed := Step(s, Revoke);
    EnabledFirst(closed, Check(request, now), []);
    assert [Check(request, now)] + [] == [Check(request, now)];
    assert [Revoke] + [Check(request, now)] == [Revoke, Check(request, now)];
    if passed in s.server.requests && s.server.requests[passed].Checked? {
      var rotate := Rotate(passed, accessExpiresAt, refreshExpiresAt);
      EnabledFirst(s, Revoke, [rotate, Check(request, now)]);
      EnabledFirst(closed, rotate, [Check(request, now)]);
      EnabledFirst(Step(closed, rotate), Check(request, now), []);
      assert [rotate] + [Check(request, now)] == [rotate, Check(request, now)];
      assert [Revoke] + [rotate, Check(request, now)] == [Revoke, rotate, Check(request, now)];
    }
  }

  // ─── a refresh that meets no trouble ─────────────────────────────────────────

  /** The events of one call on a device whose session has not been read yet. */
  function Undisturbed(s: State, id: nat, now: int, expiresAt: int, refreshExpiresAt: int): seq<Event> {
    var request := s.client.nextRequest;
    [Call(id, EnsureFresh), StoreRead, Decide(id, now), Check(request, now), Rotate(request, expiresAt, refreshExpiresAt)]
    + [Deliver, WriteLands, Install, Release]
  }

  lemma EnabledFirst(s: State, e: Event, rest: seq<Event>)
    requires Enabled(s, e)
    ensures Run(s, [e] + rest) == Run(Step(s, e), rest)
  {
    hide Step, Enabled;
    assert ([e] + rest)[1..] == rest;
  }

  /** One call on an idle device whose access token is running out: the caller is handed a new session
      with the new expiry, which is stored, held and live. */
  lemma UndisturbedRefresh(s: State, id: nat, now: int, expiresAt: int, refreshExpiresAt: int)
    requires JustPaired(s) && now <= s.server.refreshExpiresAt && s.client.store.value.expiresAt <= now + 300_000
    ensures var s' := Run(s, Undisturbed(s, id, now, expiresAt, refreshExpiresAt));
      var session := Session(s.server.nextToken, s.server.nextToken + 1, expiresAt);
      && id in s'.client.callers && s'.client.callers[id] == Finished(EnsureFresh, Returned(session))
      && s'.client.store == Some(session) && s'.client.memory == Held(session) && s'.client.flight.None?
      && s'.server.live == Some(session.refresh) && s'.server.refreshExpiresAt == refreshExpiresAt
  {
    hide Run, Step;
    var request := s.client.nextRequest;
    var asked := [Call(id, EnsureFresh), StoreRead, Decide(id, now)];
    var served := [Check(request, now), Rotate(request, expiresAt, refreshExpiresAt)];
    var landed := [Deliver, WriteLands, Install, Release];
    Asked(s, id, now, served + landed);
    Served(Waits(s, id), request, now, expiresAt, refreshExpiresAt, landed);
    Landed(Answered(Waits(s, id), request, expiresAt, refreshExpiresAt), id, request);
    assert Undisturbed(s, id, now, expiresAt, refreshExpiresAt) == asked + (served + landed);
  }

  /** The request is on the wire. */
  function Waits(s: State, id: nat): State
    requires s.client.store.Some?
  {
    var known := s.client.store.value;
    var request := s.client.nextRequest;
    State(Client(Held(known), s.client.store, Some(Flight(known, Awaiting(request))), map[id := Waiting(EnsureFresh)], request + 1),
          s.server.(requests := map[request := Sent(known.refresh)]))
  }

  lemma Asked(s: State, id: nat, now: int, rest: seq<Event>)
    requires JustPaired(s) && s.client.store.value.expiresAt <= now + 300_000
    ensures Run(s, [Call(id, EnsureFresh), StoreRead, Decide(id, now)] + rest) == Run(Waits(s, id), rest)
  {
    var s1 := Step(s, Call(id, EnsureFresh));
    var s2 := Step(s1, StoreRead);
    assert s2.client.callers == map[id := Holding(EnsureFresh, s.client.store)];
    var s3 := Step(s2, Decide(id, now));
    assert s3.client.callers == map[id := Waiting(EnsureFresh)] && s3 == Waits(s, id);
    EnabledFirst(s, Call(id, EnsureFresh), [StoreRead] + ([Decide(id, now)] + rest));
    EnabledFirst(s1, StoreRead, [Decide(id, now)] + rest);
    EnabledFirst(s2, Decide(id, now), rest);
    hide *;
    assert [Call(id, EnsureFresh), StoreRead, Decide(id, now)] + rest
        == [Call(id, EnsureFresh)] + ([StoreRead] + ([Decide(id, now)] + rest));
  }

  /** The server has answered. */
  function Answered(s: State, request: nat, expiresAt: int, refreshExpiresAt: int): State {
    var access := s.server.nextToken;
    s.(server := Server(Some(access + 1), refreshExpiresAt, false, access + 2, map[request := Accepted(access, access + 1, expiresAt)]))
  }

  lemma Served(s: State, request: nat, now: int, expiresAt: int, refreshExpiresAt: int, rest: seq<Event>)
    requires !s.server.revoked && s.server.live.Some? && s.server.requests == map[request := Sent(s.server.live.value)]
    requires now <= s.server.refreshExpiresAt
    ensures Run(s, [Check(request, now), Rotate(request, expiresAt, refreshExpiresAt)] + rest)
         == Run(Answered(s, request, expiresAt, refreshExpiresAt), rest)
  {
    var s1 := Step(s, Check(request, now));
    assert s1.server.requests == map[request := Checked];
    var s2 := Step(s1, Rotate(request, expiresAt, refreshExpiresAt));
    assert s2 == Answered(s, request, expiresAt, refreshExpiresAt);
    EnabledFirst(s, Check(request, now), [Rotate(request, expiresAt, refreshExpiresAt)] + rest);
    EnabledFirst(s1, Rotate(request, expiresAt, refreshExpiresAt), rest);
    hide *;
    assert [Check(request, now), Rotate(request, expiresAt, refreshExpiresAt)] + rest
        == [Check(request, now)] + ([Rotate(request, expiresAt, refreshExpiresAt)] + rest);
  }

  /** The answer, the store, the memory, the gate. */
  lemma Landed(s: State, id: nat, request: nat)
    requires s.client.flight.Some? && s.client.flight.value.stage == Awaiting(request)
    requires request in s.server.requests && s.server.requests[request].Accepted?
    requires s.client.callers == map[id := Waiting(EnsureFresh)]
    ensures var answer := s.server.requests[request];
      var session := Session(answer.access, answer.refresh, answer.expiresAt);
      var s' := Run(s, [Deliver, WriteLands, Install, Release]);
      && id in s'.client.callers && s'.client.callers[id] == Finished(EnsureFresh, Returned(session))
      && s'.client.store == Some(session) && s'.client.memory == Held(session) && s'.client.flight.None?
      && s'.server.live == s.server.live && s'.server.refreshExpiresAt == s.server.refreshExpiresAt
  {
    var s1 := Step(s, Deliver);
    var s2 := Step(s1, WriteLands);
    var s3 := Step(s2, Install);
    var s4 := Step(s3, Release);
    assert s3.client.callers == s.client.callers;
    assert Run(s, [Deliver, WriteLands, Install, Release])
        == Run(s1, [WriteLands, Install, Release]) == Run(s2, [Install, Release]) == Run(s3, [Release]) == Run(s4, []);
  }
}
