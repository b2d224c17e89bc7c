/** What every run of the token refresh keeps: one refresh at a time, with the server's live token,
    and nobody signed out who was not closed. */
module SessionSafety {
  import opened Text
  import opened Session

  // ─── what is asked of the surroundings ───────────────────────────────────────

  /** Callers that took their snapshot before the new session was installed run before the gate
      opens: their continuations were queued before the promise could settle. */
  ghost predicate NobodyHoldsAnOldSnapshot(c: Client) {
    forall id | id in c.callers && c.callers[id].Holding? && c.callers[id].snapshot.Some? ::
      c.memory == Held(c.callers[id].snapshot.value)
  }

  ghost predicate Admissible(s: State, e: Event) {
    match e
    case Call(caller, purpose) =>
      // A token that came back 401 was issued at some point, and not in this very turn.
      purpose.RefreshAfter? ==>
        && purpose.stale < s.server.nextToken
        && (s.client.flight.Some? && s.client.flight.value.stage.Installed? ==>
              purpose.stale != s.client.flight.value.stage.next.access)
    case Check(request, now) => now <= s.server.refreshExpiresAt
    case Release => NobodyHoldsAnOldSnapshot(s.client)
    // An answer may be lost while the server has not acted on the request,
    case LoseAnswer => HarmlessToLose(s)
    case Relaunch => HarmlessToLose(s)
    // and it must not act on it afterwards.
    case Rotate(request, _, _) => s.server.revoked || Awaited(s, request)
    case _ => true
  }

  predicate Awaited(s: State, request: nat) {
    s.client.flight.Some? && s.client.flight.value.stage == Awaiting(request)
  }

  /** No new token is lost: the server has not acted on the request, or the client has already
      stored what it was sent. */
  predicate HarmlessToLose(s: State) {
    s.server.revoked || s.client.flight.None? ||
    match s.client.flight.value.stage
    case Awaiting(request) => request in s.server.requests ==> !s.server.requests[request].Accepted?
    case Writing(_) => false
    case _ => true
  }

  ghost predicate AdmissibleRun(s: State, events: seq<Event>)
    decreases |events|
  {
    events == [] || !Enabled(s, events[0]) ||
    (Admissible(s, events[0]) && AdmissibleRun(Step(s, events[0]), events[1..]))
  }

  // ─── the invariant ───────────────────────────────────────────────────────────

  /** The gate stands for one request at the server; any other was abandoned there. */
  ghost predicate OneRefresh(s: State) {
    && (s.client.flight.Some? && s.client.flight.value.stage.Awaiting? ==>
          s.client.flight.value.stage.request in s.server.requests)
    && forall request | request in s.server.requests :: request < s.client.nextRequest
  }

  /** The session the device would fall back on: the one the next refresh will present. */
  ghost predicate Anchored(s: State, session: Session) {
    && session.access < s.server.nextToken && session.refresh < s.server.nextToken
    && (!s.server.revoked ==> s.server.live == Some(session.refresh))
  }

  /** Server, store and memory agree, and what is in flight is on its way to agreeing. */
  ghost predicate Consistent(s: State) {
    var c, v := s.client, s.server;
    match c.flight
    case None =>
      && c.store.Some? && Anchored(s, c.store.value)
      && (c.memory.Unread? || c.memory == Held(c.store.value))
    case Some(Flight(known, stage)) =>
      && known.access < v.nextToken && known.refresh < v.nextToken
      && match stage
         case Awaiting(request) =>
           && c.memory == Held(known) && c.store == Some(known)
           && request in v.requests && RequestOk(s, known, v.requests[request])
         case Writing(next) =>
           && c.memory == Held(known) && c.store == Some(known) && Anchored(s, next)
           && next.access != known.access && next.refresh != known.refresh
         case Written(next) =>
           c.memory == Held(known) && c.store == Some(next) && Anchored(s, next) && next.access != known.access
         case Installed(next) =>
           c.memory == Held(next) && c.store == Some(next) && Anchored(s, next) && next.access != known.access
         case Failing => c.memory == Held(known) && c.store == Some(known) && Anchored(s, known)
  }

  ghost predicate RequestOk(s: State, known: Session, request: Request) {
    match request
    case Sent(token) => token == known.refresh && Anchored(s, known)
    case Checked => Anchored(s, known)
    case Accepted(access, refresh, _) =>
      access != known.access && refresh != known.refresh && Anchored(s, known.(access := access, refresh := refresh))
    case Refused(_) => s.server.revoked && Anchored(s, known)
  }

  /** After an operator closed the device and the client found out: whatever a late caller still
      sends is refused. */
  ghost predicate Closed(s: State) {
    var c, v := s.client, s.server;
    && v.revoked && c.store == None
    && (c.memory == Nobody || c.memory.Unread?)
    && (c.memory.Unread? ==> c.flight.None?)
    && match c.flight
       case None => true
       case Some(Flight(known, stage)) =>
         || stage.Failing?
         || (&& stage.Awaiting? && stage.request in v.requests
             && (v.requests[stage.request].Sent? || v.requests[stage.request].Refused?))
  }

  ghost predicate CallerOk(s: State, caller: Caller) {
    var c := s.client;
    match caller
    case Loading(_) => c.memory.Unread?
    case Holding(purpose, snapshot) =>
      && !c.memory.Unread?
      && (match snapshot
          case None => s.server.revoked
          case Some(session) =>
            || c.memory == Nobody
            || c.memory == Held(session)
            || (c.flight.Some? && c.flight.value.stage.Installed? && session == c.flight.value.known))
    case Waiting(purpose) => c.flight.Some?
    case Finished(_, NotPaired) => s.server.revoked
    case Finished(RefreshAfter(stale), Returned(session)) => session.access != stale
    case _ => true
  }

  /** Whoever reports a token as stale is not handed the same one back. */
  ghost predicate StaleOk(s: State, caller: Caller) {
    var c := s.client;
    (c.memory != Nobody && c.flight.Some?) ==>
      match caller
      case Holding(RefreshAfter(stale), Some(session)) =>
        (match c.flight.value.stage
         case Installed(next) => session == next ==> stale != next.access
         case _ => true)
      case Waiting(RefreshAfter(stale)) =>
        (match c.flight.value.stage
         case Installed(next) => next.access != stale
         case _ => c.flight.value.known.access == stale)
      case _ => true
  }

  ghost predicate Invariant(s: State) {
    && OneRefresh(s)
    && (Consistent(s) || Closed(s))
    && forall id | id in s.client.callers :: CallerOk(s, s.client.callers[id]) && StaleOk(s, s.client.callers[id])
  }

  // ─── every step keeps it ─────────────────────────────────────────────────────

  lemma CallKeeps(s: State, caller: nat, purpose: Purpose)
    requires Invariant(s) && Enabled(s, Call(caller, purpose)) && Admissible(s, Call(caller, purpose))
    ensures Invariant(Step(s, Call(caller, purpose)))
  {}

  lemma DecideKeeps(s: State, id: nat, now: int)
    requires Invariant(s) && Enabled(s, Decide(id, now))
    ensures Invariant(Step(s, Decide(id, now)))
  {}

  /** The server never turns down the request of a device that was not closed, and the gap
      between checking the old hash and storing the new one lets nobody else in. */
  lemma ServerKeeps(s: State, e: Event)
    requires e.Check? || e.Rotate? || e.Revoke?
    requires Invariant(s) && Enabled(s, e) && Admissible(s, e)
    ensures Invariant(Step(s, e))
  {
    var s' := Step(s, e);
    assert forall id | id in s'.client.callers :: CallerOk(s, s'.client.callers[id]) && StaleOk(s, s'.client.callers[id]);
  }

  lemma FlightKeeps(s: State, e: Event)
    requires e.Drop? || e.Deliver? || e.WriteLands? || e.Install?
    requires Invariant(s) && Enabled(s, e) && Admissible(s, e)
    ensures Invariant(Step(s, e))
  {}

  lemma SettleKeeps(s: State, e: Event)
    requires e.StoreRead? || e.Release? || e.Relaunch? || e.LoseAnswer?
    requires Invariant(s) && Enabled(s, e) && Admissible(s, e)
    ensures Invariant(Step(s, e))
  {}

  lemma StepKeeps(s: State, e: Event)
    requires Invariant(s) && Enabled(s, e) && Admissible(s, e)
    ensures Invariant(Step(s, e))
  {
    hide Invariant, Step, Enabled;
    match e
    case Call(id, purpose) => CallKeeps(s, id, purpose);
    case Decide(id, now) => DecideKeeps(s, id, now);
    case Check(_, _) => ServerKeeps(s, e);
    case Rotate(_, _, _) => ServerKeeps(s, e);
    case Revoke => ServerKeeps(s, e);
    case Drop => FlightKeeps(s, e);
    case Deliver => FlightKeeps(s, e);
    case WriteLands => FlightKeeps(s, e);
    case Install => FlightKeeps(s, e);
    case _ => SettleKeeps(s, e);
  }

  lemma {:induction false} EveryRunKeeps(s: State, events: seq<Event>)
    requires Invariant(s) && AdmissibleRun(s, events)
    ensures Invariant(Run(s, events))
    decreases |events|
  {
    hide Invariant, Step, Enabled, Admissible;
    if events != [] && Enabled(s, events[0]) {
      StepKeeps(s, events[0]);
      EveryRunKeeps(Step(s, events[0]), events[1..]);
    }
  }

  // ─── what that means ─────────────────────────────────────────────────────────

  /** A device as pairing leaves it: the session is in the store and nothing is running. */
  ghost predicate JustPaired(s: State) {
    && s.client.store.Some? && Anchored(s, s.client.store.value)
    && s.client.memory.Unread? && s.client.flight.None? && s.client.callers == map[]
    && s.server.requests == map[] && !s.server.revoked
  }

  /** How often the client stopped listening or was started again. */
  function Losses(events: seq<Event>): nat {
    if events == [] then 0
    else (if events[0].LoseAnswer? || events[0].Relaunch? then 1 else 0) + Losses(events[1..])
  }

  function Abandoned(s: State): set<nat> {
    set request | request in s.server.requests && !Awaited(s, request)
  }

  lemma StepAbandonsOnlyByLoss(s: State, e: Event)
    requires OneRefresh(s) && Enabled(s, e)
    ensures e.LoseAnswer? || e.Relaunch? || Abandoned(Step(s, e)) <= Abandoned(s)
    ensures |Abandoned(Step(s, e))| <= |Abandoned(s)| + (if e.LoseAnswer? || e.Relaunch? then 1 else 0)
  {
    var after := Abandoned(Step(s, e));
    if e.LoseAnswer? || e.Relaunch? {
      if s.client.flight.Some? && s.client.flight.value.stage.Awaiting? {
        assert after <= Abandoned(s) + {s.client.flight.value.stage.request};
        SubsetSize(after, Abandoned(s) + {s.client.flight.value.stage.request});
      } else {
        assert after == Abandoned(s);
      }
    } else {
      SubsetSize(after, Abandoned(s));
    }
  }

  lemma SubsetSize(a: set<nat>, b: set<nat>)
    requires a <= b
    ensures |a| <= |b|
  {
    assert b == a + (b - a);
  }

  lemma {:induction false} EachLossAbandonsOne(s: State, events: seq<Event>)
    requires Invariant(s) && AdmissibleRun(s, events)
    ensures |Abandoned(Run(s, events))| <= |Abandoned(s)| + Losses(events)
    decreases |events|
  {
    if events != [] && Enabled(s, events[0]) {
      StepAbandonsOnlyByLoss(s, events[0]);
      hide Invariant, Step, Enabled, Admissible, Abandoned;
      StepKeeps(s, events[0]);
      EachLossAbandonsOne(Step(s, events[0]), events[1..]);
    }
  }

  /** However many callers there are, however they interleave, and however often the client stops
      listening before the server acts: one refresh at a time, with the token the server holds, no
      more requests at the server than that and one for each loss, and a device nobody closed is
      never signed out. */
  lemma SingleFlight(s0: State, events: seq<Event>)
    requires JustPaired(s0) && AdmissibleRun(s0, events)
    ensures var s := Run(s0, events);
            && |s.server.requests| <= 1 + Losses(events)
            && (!s.server.revoked ==>
                  && s.client.memory != Nobody && s.client.store.Some?
                  && (forall r | r in s.server.requests && Awaited(s, r) ::
                        !s.server.requests[r].Refused?
                        && (s.server.requests[r].Sent? ==> s.server.live == Some(s.server.requests[r].token)))
                  && (forall id | id in s.client.callers && s.client.callers[id].Finished? ::
                        s.client.callers[id].outcome != NotPaired))
  {
    hide Run, AdmissibleRun, Losses;
    EveryRunKeeps(s0, events);
    EachLossAbandonsOne(s0, events);
    assert Abandoned(s0) == {};
    AllButOneAbandoned(Run(s0, events));
  }

  lemma AllButOneAbandoned(s: State)
    ensures |s.server.requests| <= |Abandoned(s)| + 1
  {
    var awaited := if s.client.flight.Some? && s.client.flight.value.stage.Awaiting? then {s.client.flight.value.stage.request} else {};
    SubsetSize(s.server.requests.Keys, Abandoned(s) + awaited);
    assert |s.server.requests| == |s.server.requests.Keys|;
  }

  /** Whenever no refresh is in flight, the store, the memory and the server hold the same token. */
  lemma AgreementBetweenRefreshes(s0: State, events: seq<Event>)
    requires JustPaired(s0) && AdmissibleRun(s0, events)
    requires !Run(s0, events).server.revoked && Run(s0, events).client.flight.None?
    ensures var s := Run(s0, events);
            && s.client.store.Some? && s.server.live == Some(s.client.store.value.refresh)
            && (s.client.memory.Unread? || s.client.memory == Held(s.client.store.value))
            && (Losses(events) == 0 ==> s.server.requests == map[])
  {
    EveryRunKeeps(s0, events);
    EachLossAbandonsOne(s0, events);
    assert Abandoned(s0) == {};
    var s := Run(s0, events);
    assert Abandoned(s) == s.server.requests.Keys;
  }

  /** A caller that reported a stale token gets another one or an error, never the same again:
      the retry behind the gate does not repeat the request that failed. */
  lemma RetryCarriesAnotherToken(s0: State, events: seq<Event>, id: nat)
    requires JustPaired(s0) && AdmissibleRun(s0, events)
    requires id in Run(s0, events).client.callers
    ensures match Run(s0, events).client.callers[id]
            case Finished(RefreshAfter(stale), Returned(session)) => session.access != stale
            case _ => true
  {
    EveryRunKeeps(s0, events);
  }

  /** In any reachable state a request passes the check exactly when the device is open and the
      refresh token has not run out. */
  lemma CheckPassesExactlyWhenOpen(s: State, request: nat, now: int)
    requires Invariant(s) && Awaited(s, request) && request in s.server.requests && s.server.requests[request].Sent?
    ensures CheckOn(s.server, request, now).requests[request].Checked?
        <==> !s.server.revoked && now <= s.server.refreshExpiresAt
  {}

  /** A client whose refresh token is not the server's live one is signed out by its next refresh,
      although nobody closed the device. */
  lemma DeadTokenSignsOut(s: State, id: nat, now: int)
    requires !s.server.revoked && s.client.flight.None? && id !in s.client.callers
    requires s.client.memory.Held? && s.server.live != Some(s.client.memory.session.refresh)
    requires s.client.memory.session.expiresAt - now <= REFRESH_SKEW_MS
    ensures var s' := Run(s, [Call(id, EnsureFresh), Decide(id, now), Check(s.client.nextRequest, now), Deliver]);
            && !s'.server.revoked && s'.client.memory == Nobody && s'.client.store == None
            && id in s'.client.callers && s'.client.callers[id] == Finished(EnsureFresh, Threw)
  {
    var request := s.client.nextRequest;
    var s1 := Step(s, Call(id, EnsureFresh));
    var s2 := Step(s1, Decide(id, now));
    var s3 := Step(s2, Check(request, now));
    assert s3.server.requests[request] == Refused(Unauthenticated);
    assert Run(s, [Call(id, EnsureFresh), Decide(id, now), Check(request, now), Deliver])
        == Run(s1, [Decide(id, now), Check(request, now), Deliver])
        == Run(s2, [Check(request, now), Deliver])
        == Run(s3, [Deliver]) == Run(Step(s3, Deliver), []);
  }

  // ─── which losses are harmless ───────────────────────────────────────────────

  /** The session the device will present next, wherever it is on its way. */
  function Presents(s: State): Option<Session> {
    var c := s.client;
    match c.flight
    case None => if c.memory.Held? then Some(c.memory.session) else c.store
    case Some(Flight(known, stage)) =>
      match stage
      case Awaiting(request) =>
        if request in s.server.requests && s.server.requests[request].Accepted? then
          var answer := s.server.requests[request];
          Some(known.(access := answer.access, refresh := answer.refresh, expiresAt := answer.expiresAt))
        else Some(known)
      case Writing(next) => Some(next)
      case Written(next) => Some(next)
      case Installed(next) => Some(next)
      case Failing => Some(known)
  }

  predicate HoldsLiveToken(s: State) {
    Presents(s).Some? && s.server.live == Some(Presents(s).value.refresh)
  }

  lemma OpenDeviceHoldsLiveToken(s: State)
    requires Invariant(s) && !s.server.revoked
    ensures HoldsLiveToken(s)
  {}

  /** A loss in any reachable state leaves the device with the server's token exactly when the
      server had not acted, or the client had already stored what it did. */
  lemma LossIsHarmlessExactlyWhen(s: State, loss: Event)
    requires Invariant(s) && !s.server.revoked && (loss.LoseAnswer? || loss.Relaunch?) && Enabled(s, loss)
    ensures HoldsLiveToken(Step(s, loss)) <==> HarmlessToLose(s)
  {}

  /** What is abandoned may still be carried out: of all the requests the server is about to act
      on, rotating the awaited one keeps the device's token live and rotating any other kills it. */
  lemma RotationIsHarmlessExactlyWhenAwaited(s: State, request: nat, accessExpiresAt: int, refreshExpiresAt: int)
    requires Invariant(s) && !s.server.revoked && Enabled(s, Rotate(request, accessExpiresAt, refreshExpiresAt))
    ensures HoldsLiveToken(Step(s, Rotate(request, accessExpiresAt, refreshExpiresAt))) <==> Awaited(s, request)
  {}

  predicate AboutRequest(events: seq<Event>, request: nat) {
    forall e | e in events :: (e.Check? || e.Rotate?) && e.request == request
  }

  /** After a lost answer, whatever the server still does with the request: the device's token is
      live exactly as long as the server has not accepted it. */
  lemma LiveExactlyWhileNotAccepted(s: State, loss: Event, request: nat, events: seq<Event>)
    requires Invariant(s) && !s.server.revoked && Awaited(s, request)
    requires (loss.LoseAnswer? || loss.Relaunch?) && AboutRequest(events, request)
    ensures var after := Run(Step(s, loss), events);
            && request in after.server.requests
            && (HoldsLiveToken(after) <==> !after.server.requests[request].Accepted?)
  {
    ServerActsAlone(Step(s, loss), s.client.flight.value.known.refresh, request, events);
  }

  lemma {:induction false} ServerActsAlone(s: State, token: Token, request: nat, events: seq<Event>)
    requires request in s.server.requests && AboutRequest(events, request) && token < s.server.nextToken
    requires s.server.live == Some(token) <==> !s.server.requests[request].Accepted?
    ensures var after := Run(s, events);
      && after.client == s.client && request in after.server.requests
      && (after.server.live == Some(token) <==> !after.server.requests[request].Accepted?)
    decreases |events|
  {
    if events != [] && Enabled(s, events[0]) {
      assert events[0] in events;
      ServerActsAlone(Step(s, events[0]), token, request, events[1..]);
    }
  }
}
