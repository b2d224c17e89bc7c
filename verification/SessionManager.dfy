/** `SessionManager` as it is written: `#session`, `#refreshing` and the store, changed in place by
    whichever continuation runs. Each method is one stretch between two awaits and computes the
    client half of one step of `Session`. */
module SessionManager {
  import opened Text
  import opened Session
  import opened SessionSafety

  class Manager {
    var session: Memory
    var refreshing: Option<Flight>
    var store: Option<Session>
    /** The calls in progress, each suspended at its own await. */
    var callers: map<nat, Caller>
    var nextRequest: nat

    ghost function Model(): Client
      reads this
    {
      Client(session, store, refreshing, callers, nextRequest)
    }

    constructor (store: Option<Session>, nextRequest: nat)
      ensures Model() == Client(Unread, store, None, map[], nextRequest)
    {
      session, refreshing, callers := Unread, None, map[];
      this.store := store;
      this.nextRequest := nextRequest;
    }

    /** `ensureFresh` and `refreshAfter` up to `await this.load()`. */
    method Begin(id: nat, purpose: Purpose)
      requires id !in callers
      modifies this`callers
      ensures Model() == CallOn(old(Model()), id, purpose)
    {
      match session
      case Unread => callers := callers[id := Loading(purpose)];
      case Nobody => callers := callers[id := Holding(purpose, None)];
      case Held(held) => callers := callers[id := Holding(purpose, Some(held))];
    }

    /** The shared store read settles. */
    method OnStoreRead()
      requires session.Unread?
      modifies this`session, this`callers
      ensures Model() == ReadOn(old(Model()))
    {
      session := if store.Some? then Held(store.value) else Nobody;
      callers := map id | id in callers :: Wake(callers[id], store);
    }

    /** What follows `await this.load()`, through the single-flight gate. `opened` is the session a
        new refresh presents, when this caller is the one that starts it. */
    method Continue(id: nat, now: int) returns (opening: Option<Session>)
      requires id in callers && callers[id].Holding?
      modifies this`callers, this`refreshing, this`nextRequest
      ensures Model() == DecideOn(old(Model()), id, now)
      ensures opening.Some? <==> old(refreshing).None? && refreshing.Some?
      ensures opening.Some? ==> refreshing == Some(Flight(opening.value, Awaiting(old(nextRequest))))
      ensures old(refreshing).Some? ==> refreshing == old(refreshing)
    {
      var Holding(purpose, snapshot) := callers[id];
      opening := None;
      if snapshot.None? {
        callers := callers[id := Finished(purpose, NotPaired)];
        return;
      }
      if StillFresh(snapshot.value, purpose, now) {
        callers := callers[id := Finished(purpose, Returned(snapshot.value))];
        return;
      }
      if refreshing.None? {
        opening := snapshot;
        refreshing := Some(Flight(snapshot.value, Awaiting(nextRequest)));
        nextRequest := nextRequest + 1;
      }
      callers := callers[id := Waiting(purpose)];
    }

    /** The answer to `POST /token/refresh`. */
    method OnAnswer(answer: Request)
      requires refreshing.Some?
      modifies this`session, this`refreshing, this`store, this`callers
      ensures Model() == AnswerOn(old(Model()), answer)
    {
      if !answer.Accepted? {
        SignOut();
        return;
      }
      var known := refreshing.value.known;
      var next := known.(access := answer.access, refresh := answer.refresh, expiresAt := answer.expiresAt);
      refreshing := Some(Flight(known, Writing(next)));
    }

    method SignOut()
      modifies this`session, this`refreshing, this`store, this`callers
      ensures Model() == SignedOut(old(Model()))
    {
      session := Nobody;
      refreshing := None;
      store := None;
      callers := map id | id in callers :: Settle(callers[id], Threw);
    }

    /** The write to the store lands: from here on a new process would find the live token. */
    method OnWriteLanded(ghost server: Server)
      requires refreshing.Some? && refreshing.value.stage.Writing?
      requires Invariant(State(Model(), server))
      modifies this`store, this`refreshing
      ensures Model() == Step(State(old(Model()), server), WriteLands).client
      ensures Invariant(State(Model(), server)) && HarmlessToLose(State(Model(), server))
    {
      var next := refreshing.value.stage.next;
      store := Some(next);
      refreshing := Some(refreshing.value.(stage := Written(next)));
      FlightKeeps(State(old(Model()), server), WriteLands);
    }

    /** Only then is the session installed: memory, store and an open server agree. */
    method OnWritten(ghost server: Server)
      requires refreshing.Some? && refreshing.value.stage.Written?
      requires Invariant(State(Model(), server))
      modifies this`session, this`refreshing
      ensures Model() == Step(State(old(Model()), server), Install).client
      ensures Invariant(State(Model(), server))
      ensures session.Held? && store == Some(session.session)
      ensures !server.revoked ==> server.live == Some(session.session.refresh)
    {
      var next := refreshing.value.stage.next;
      session := Held(next);
      refreshing := Some(refreshing.value.(stage := Installed(next)));
      FlightKeeps(State(old(Model()), server), Install);
    }

    /** `.finally`: the gate opens and everyone who waited gets the one result. */
    method OnSettled()
      requires refreshing.Some? && (refreshing.value.stage.Installed? || refreshing.value.stage.Failing?)
      modifies this`refreshing, this`callers
      ensures Model() == ReleaseOn(old(Model()))
    {
      var outcome := if refreshing.value.stage.Installed? then Returned(refreshing.value.stage.next) else Threw;
      refreshing := None;
      callers := map id | id in callers :: Settle(callers[id], outcome);
    }
  }
}
