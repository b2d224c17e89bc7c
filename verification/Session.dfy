/** The single-flight refresh of `packages/client-core/src/session.ts` against the rotating
    refresh tokens of `apps/server/src/auth/tokens.ts`, for one paired device.

    Every await is a step boundary on both sides: a caller between `load()` and what follows it,
    the request on the wire, the server between checking the old hash and storing the new one,
    the client between the answer, the store and its own memory, and the promise between being
    settled and giving up the gate. */
module Session {
  import opened Text

  /** Tokens are numbered as the server issues them, which is all that matters of them here. */
  type Token = nat

  datatype Session = Session(access: Token, refresh: Token, expiresAt: int)

  /** `#session`: not read yet, read and absent, or held. */
  datatype Memory = Unread | Nobody | Held(session: Session)

  datatype Purpose = EnsureFresh | RefreshAfter(stale: Token)

  datatype Outcome = Returned(session: Session) | NotPaired | Threw

  datatype Caller =
    | Loading(purpose: Purpose)
    /** `load()` has an answer; the code after the await has not run yet. */
    | Holding(purpose: Purpose, snapshot: Option<Session>)
    | Waiting(purpose: Purpose)
    | Finished(purpose: Purpose, outcome: Outcome)

  /** How far `#performRefresh` has come behind the gate. */
  datatype Stage =
    | Awaiting(request: nat)
    | Writing(next: Session)
    | Written(next: Session)
    | Installed(next: Session)
    | Failing

  datatype Flight = Flight(known: Session, stage: Stage)

  datatype Client = Client(
    memory: Memory,
    store: Option<Session>,
    flight: Option<Flight>,
    callers: map<nat, Caller>,
    nextRequest: nat)

  datatype Refusal = Unauthenticated | DeviceRevoked | TokenExpired

  datatype Request =
    | Sent(token: Token)
    | Checked
    | Accepted(access: Token, refresh: Token, expiresAt: int)
    | Refused(reason: Refusal)

  datatype Server = Server(
    live: Option<Token>,
    refreshExpiresAt: int,
    revoked: bool,
    nextToken: Token,
    requests: map<nat, Request>)

  datatype State = State(client: Client, server: Server)

  const REFRESH_SKEW_MS: int := 5 * 60_000

  datatype Event =
    | Call(caller: nat, purpose: Purpose)
    | StoreRead
    | Decide(caller: nat, now: int)
    /** The request never reached the server. */
    | Drop
    | Check(request: nat, now: int)
    | Rotate(request: nat, accessExpiresAt: int, refreshExpiresAt: int)
    | Deliver
    | WriteLands
    | Install
    | Release
    | Revoke
    /** The client stops listening although the server goes on: the answer is lost. */
    | LoseAnswer
    /** The client process died and was started again. */
    | Relaunch

  // ─── the client ──────────────────────────────────────────────────────────────

  function CallOn(c: Client, caller: nat, purpose: Purpose): Client {
    match c.memory
    case Unread => c.(callers := c.callers[caller := Loading(purpose)])
    case Nobody => c.(callers := c.callers[caller := Holding(purpose, None)])
    case Held(session) => c.(callers := c.callers[caller := Holding(purpose, Some(session))])
  }

  function Wake(caller: Caller, snapshot: Option<Session>): Caller {
    if caller.Loading? then Holding(caller.purpose, snapshot) else caller
  }

  /** The shared store read settles: memory is set and every caller behind it wakes. */
  function ReadOn(c: Client): Client {
    c.(memory := if c.store.Some? then Held(c.store.value) else Nobody,
       callers := map id | id in c.callers :: Wake(c.callers[id], c.store))
  }

  predicate StillFresh(session: Session, purpose: Purpose, now: int) {
    match purpose
    case EnsureFresh => session.expiresAt - now > REFRESH_SKEW_MS
    case RefreshAfter(stale) => session.access != stale
  }

  /** What the awaiting caller does with its snapshot, up to joining or opening the gate. */
  function DecideOn(c: Client, id: nat, now: int): Client
    requires id in c.callers && c.callers[id].Holding?
  {
    var Holding(purpose, snapshot) := c.callers[id];
    match snapshot
    case None => c.(callers := c.callers[id := Finished(purpose, NotPaired)])
    case Some(session) =>
      if StillFresh(session, purpose, now) then c.(callers := c.callers[id := Finished(purpose, Returned(session))])
      else if c.flight.Some? then c.(callers := c.callers[id := Waiting(purpose)])
      else
        c.(callers := c.callers[id := Waiting(purpose)],
           flight := Some(Flight(session, Awaiting(c.nextRequest))),
           nextRequest := c.nextRequest + 1)
  }

  /** A refusal on the refresh route is terminal: the session is gone from memory and store. */
  function SignedOut(c: Client): Client {
    c.(memory := Nobody, store := None, flight := None,
       callers := map id | id in c.callers :: Settle(c.callers[id], Threw))
  }

  function Settle(caller: Caller, outcome: Outcome): Caller {
    if caller.Waiting? then Finished(caller.purpose, outcome) else caller
  }

  function AnswerOn(c: Client, answer: Request): Client
    requires c.flight.Some?
  {
    var known := c.flight.value.known;
    match answer
    case Accepted(access, refresh, expiresAt) =>
      c.(flight := Some(Flight(known, Writing(known.(access := access, refresh := refresh, expiresAt := expiresAt)))))
    case _ => SignedOut(c)
  }

  /** The promise settles for everyone who waits on it, and the gate opens. */
  function ReleaseOn(c: Client): Client
    requires c.flight.Some? && (c.flight.value.stage.Installed? || c.flight.value.stage.Failing?)
  {
    var outcome := if c.flight.value.stage.Installed? then Returned(c.flight.value.stage.next) else Threw;
    c.(flight := None, callers := map id | id in c.callers :: Settle(c.callers[id], outcome))
  }

  /** Only the store outlives the process. */
  function RelaunchOn(c: Client): Client {
    c.(memory := Unread, flight := None, callers := map[])
  }

  function StageOf(c: Client, stage: Stage): Client
    requires c.flight.Some?
  {
    c.(flight := Some(c.flight.value.(stage := stage)))
  }

  // ─── the server ──────────────────────────────────────────────────────────────

  /** `redeemRefreshToken` up to the await. */
  function CheckOn(v: Server, request: nat, now: int): Server
    requires request in v.requests && v.requests[request].Sent?
  {
    var verdict :=
      if v.revoked then (if v.live.None? then Refused(Unauthenticated) else Refused(DeviceRevoked))
      else if v.live != Some(v.requests[request].token) then Refused(Unauthenticated)
      else if v.refreshExpiresAt < now then Refused(TokenExpired)
      else Checked;
    v.(requests := v.requests[request := verdict])
  }

  /** `issueRefreshToken`: the old token dies as the new one is stored. */
  function RotateOn(v: Server, request: nat, accessExpiresAt: int, refreshExpiresAt: int): Server
    requires request in v.requests && v.requests[request].Checked?
  {
    var access, refresh := v.nextToken, v.nextToken + 1;
    v.(live := Some(refresh), refreshExpiresAt := refreshExpiresAt, nextToken := v.nextToken + 2,
       requests := v.requests[request := Accepted(access, refresh, accessExpiresAt)])
  }

  // ─── together ────────────────────────────────────────────────────────────────

  predicate Enabled(s: State, e: Event) {
    var c, v := s.client, s.server;
    match e
    case Call(caller, _) => caller !in c.callers
    case StoreRead => c.memory.Unread?
    case Decide(caller, _) => caller in c.callers && c.callers[caller].Holding?
    case Drop =>
      c.flight.Some? && c.flight.value.stage.Awaiting?
      && c.flight.value.stage.request in v.requests && v.requests[c.flight.value.stage.request].Sent?
    case Check(request, _) => request in v.requests && v.requests[request].Sent?
    case Rotate(request, _, _) => request in v.requests && v.requests[request].Checked?
    case Deliver =>
      c.flight.Some? && c.flight.value.stage.Awaiting?
      && c.flight.value.stage.request in v.requests
      && (v.requests[c.flight.value.stage.request].Accepted? || v.requests[c.flight.value.stage.request].Refused?)
    case WriteLands => c.flight.Some? && c.flight.value.stage.Writing?
    case Install => c.flight.Some? && c.flight.value.stage.Written?
    case Release => c.flight.Some? && (c.flight.value.stage.Installed? || c.flight.value.stage.Failing?)
    case Revoke => true
    case Relaunch => true
    case LoseAnswer => c.flight.Some? && c.flight.value.stage.Awaiting?
  }

  function Step(s: State, e: Event): State
    requires Enabled(s, e)
  {
    var c, v := s.client, s.server;
    match e
    case Call(caller, purpose) => s.(client := CallOn(c, caller, purpose))
    case StoreRead => s.(client := ReadOn(c))
    case Decide(caller, now) =>
      var c' := DecideOn(c, caller, now);
      // Opening the gate puts a request with the snapshot's refresh token on the wire.
      var v' := if c.flight.None? && c'.flight.Some?
                then v.(requests := v.requests[c.nextRequest := Sent(c'.flight.value.known.refresh)]) else v;
      State(c', v')
    case Drop =>
      State(StageOf(c, Failing), v.(requests := v.requests - {c.flight.value.stage.request}))
    case Check(request, now) => s.(server := CheckOn(v, request, now))
    case Rotate(request, accessExpiresAt, refreshExpiresAt) =>
      s.(server := RotateOn(v, request, accessExpiresAt, refreshExpiresAt))
    case Deliver =>
      var request := c.flight.value.stage.request;
      State(AnswerOn(c, v.requests[request]), v.(requests := v.requests - {request}))
    case WriteLands =>
      s.(client := StageOf(c.(store := Some(c.flight.value.stage.next)), Written(c.flight.value.stage.next)))
    case Install =>
      s.(client := StageOf(c.(memory := Held(c.flight.value.stage.next)), Installed(c.flight.value.stage.next)))
    case Release => s.(client := ReleaseOn(c))
    case Revoke => s.(server := v.(revoked := true, live := None))
    case LoseAnswer => s.(client := StageOf(c, Failing))
    case Relaunch => s.(client := RelaunchOn(c))
  }

  function Run(s: State, events: seq<Event>): State
    decreases |events|
  {
    if events == [] || !Enabled(s, events[0]) then s else Run(Step(s, events[0]), events[1..])
  }
}
