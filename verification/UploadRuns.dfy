/** The two upload clients against the server of `Uploads`: every answer they get is one the server
    gave, while requests it has not finished with go on writing to the same file. */
module UploadRuns {
  import opened Text
  import opened Uploads
  import opened UploadClients

  // ─── one turn ────────────────────────────────────────────────────────────────

  function Dto(u: Upload, chunkSize: nat): Session {
    Session(u.received, u.total, chunkSize, u.status)
  }

  datatype Response = Ok(session: Session) | Err(error: Error)

  /** What the server says to one request, and the row it says it of. */
  function ResponseAt(u: Upload, id: nat, e: Event, chunkSize: nat): Option<Response>
    requires Enabled(u, e)
  {
    match e
    case Begin(i, offset, declared) =>
      var answer := BeginOn(u, i, offset, declared);
      if i == id && answer.reply.Failed? then Some(Err(answer.reply.error)) else None
    case End(i) =>
      var answer := EndOn(u, i);
      if i != id || answer.reply.Finalizing? then None
      else if answer.reply.Failed? then Some(Err(answer.reply.error))
      else Some(Ok(Dto(answer.upload, chunkSize)))
    case Finish(i) =>
      var answer := FinishOn(u, i);
      if i != id then None
      else if answer.reply.Failed? then Some(Err(answer.reply.error))
      else Some(Ok(Dto(answer.upload, chunkSize)))
    case _ => None
  }

  function Responded(u: Upload, id: nat, events: seq<Event>, chunkSize: nat): Option<Response>
    decreases |events|
  {
    if events == [] || !Enabled(u, events[0]) then None
    else
      var response := ResponseAt(u, id, events[0], chunkSize);
      if response.Some? then response else Responded(Step(u, events[0]), id, events[1..], chunkSize)
  }

  /** What happens at the server during one turn of a client, whether the client hears the answer,
      and whether it can be reached when the client asks how far it got. */
  datatype Exchange = Exchange(events: seq<Event>, heard: bool, reachable: bool)

  function FailureOf(error: Error): Failure {
    match error
    case SessionUnknown => Refused(false, 404)
    case OffsetMismatch(_) => Refused(true, 409)
    case TooLarge => Refused(false, 413)
    case Gone => Refused(false, 500)
  }

  function TurnOf(u: Upload, id: nat, x: Exchange, chunkSize: nat): Turn {
    var asked := if x.reachable then Some(Dto(Run(u, x.events), chunkSize)) else None;
    match Responded(u, id, x.events, chunkSize)
    case Some(Ok(session)) => if x.heard then Counted(session) else Missed(Network, asked)
    case Some(Err(error)) => Missed(if x.heard then FailureOf(error) else Network, asked)
    case None => Missed(Network, asked)
  }

  /** The turn's own request carries this chunk, whole if it ends; requests of earlier turns may
      arrive further, end or break. */
  predicate Plausible(u: Upload, source: seq<byte>, id: nat, chunk: Chunk, e: Event) {
    && Honest(u, source, e)
    && (e.Begin? ==> e.id == id && e.offset == chunk.offset && e.declared == Some(|chunk.bytes|))
    && (e.End? && e.id == id && id in u.writers ==> u.writers[id].read == |chunk.bytes|)
  }

  predicate PlausibleTurn(u: Upload, source: seq<byte>, id: nat, chunk: Chunk, events: seq<Event>)
    decreases |events|
  {
    events == [] || !Enabled(u, events[0]) ||
    (Plausible(u, source, id, chunk, events[0]) && PlausibleTurn(Step(u, events[0]), source, id, chunk, events[1..]))
  }

  // ─── what the server keeps during a turn ─────────────────────────────────────

  /** Sound, and a row says complete only of a published file. */
  predicate Kept(u: Upload, source: seq<byte>) {
    Sound(u, source) && (u.status == Complete ==> u.published)
  }

  /** Requests are numbered by turn: this turn's is new, and where it writes it began at its offset. */
  predicate Numbered(u: Upload, id: nat, offset: nat) {
    && (forall i | i in u.writers :: i <= id)
    && (forall i | i in u.finishing :: i <= id)
    && (id in u.writers ==> u.writers[id].start == offset)
  }

  lemma EventKeeps(u: Upload, source: seq<byte>, id: nat, chunk: Chunk, e: Event)
    requires Kept(u, source) && Numbered(u, id, chunk.offset) && Enabled(u, e) && Plausible(u, source, id, chunk, e)
    ensures Kept(Step(u, e), source) && Numbered(Step(u, e), id, chunk.offset)
    ensures u.published ==> Step(u, e).published
  {
    StepKeeps(u, source, e);
    hide WriteAt, From, Sound, Within;
  }

  /** A response that counts something is of a row past the chunk's offset, and true of the file. */
  lemma OkIsPastTheChunk(u: Upload, source: seq<byte>, id: nat, chunk: Chunk, e: Event, chunkSize: nat)
    requires Kept(u, source) && Numbered(u, id, chunk.offset) && Enabled(u, e) && Plausible(u, source, id, chunk, e)
    requires chunk.bytes != [] && From(source, chunk.offset, chunk.bytes)
    requires ResponseAt(u, id, e, chunkSize).Some? && ResponseAt(u, id, e, chunkSize).value.Ok?
    ensures var s := ResponseAt(u, id, e, chunkSize).value.session;
      && s.total == |source| && s.chunkSize == chunkSize
      && chunk.offset < s.received <= |Step(u, e).file|
      && (s.status == Complete ==> Step(u, e).published)
  {
    hide WriteAt;
    assert chunk.offset < |source|;
    StepKeeps(u, source, e);
    if e.End? {
      assert Within(u.writers[id], |u.file|);
    }
  }

  predicate TrueOf(s: Session, u: Upload, source: seq<byte>, chunkSize: nat) {
    && s.total == |source| && s.chunkSize == chunkSize
    && s.received <= |u.file|
    && (s.status == Complete ==> u.published)
  }

  lemma {:induction false} TurnKeeps(u: Upload, source: seq<byte>, id: nat, chunk: Chunk, events: seq<Event>, chunkSize: nat)
    requires Kept(u, source) && Numbered(u, id, chunk.offset) && PlausibleTurn(u, source, id, chunk, events)
    requires chunk.bytes != [] && From(source, chunk.offset, chunk.bytes)
    ensures Kept(Run(u, events), source) && Numbered(Run(u, events), id, chunk.offset)
    ensures |u.file| <= |Run(u, events).file| && (u.published ==> Run(u, events).published)
    ensures match Responded(u, id, events, chunkSize)
            case Some(Ok(s)) => TrueOf(s, Run(u, events), source, chunkSize) && s.received > chunk.offset
            case _ => true
    decreases |events|
  {
    hide Step, Enabled, Plausible, From, Sound, ResponseAt;
    if events != [] && Enabled(u, events[0]) {
      var e := events[0];
      EventKeeps(u, source, id, chunk, e);
      assert Honest(u, source, e) by {
        PlausibleIsHonest(u, source, id, chunk, e);
      }
      StepGrows(u, source, e);
      TurnKeeps(Step(u, e), source, id, chunk, events[1..], chunkSize);
      var response := ResponseAt(u, id, e, chunkSize);
      if response.Some? && response.value.Ok? {
        OkIsPastTheChunk(u, source, id, chunk, e, chunkSize);
      }
    }
  }

  lemma PlausibleIsHonest(u: Upload, source: seq<byte>, id: nat, chunk: Chunk, e: Event)
    requires Plausible(u, source, id, chunk, e)
    ensures Honest(u, source, e)
  {}

  // ─── whole uploads ───────────────────────────────────────────────────────────

  /** One upload of `source`: the row the client starts from, the session it was told, the number of
      its first request, and what happens in each turn. */
  datatype Play = Play(source: seq<byte>, server: Upload, session: Session, first: nat, maxAttempts: nat, exchanges: nat -> Exchange)

  /** The server and the phone's loop before turn `k`; no loop once it has returned or thrown. */
  datatype World = World(server: Upload, loop: Option<Loop>)

  function At(k: nat, p: Play): World {
    if k == 0 then World(p.server, Some(Loop(p.session, 0)))
    else
      var w := At(k - 1, p);
      if w.loop.None? || !Going(w.loop.value) then World(w.server, None)
      else
        World(Run(w.server, p.exchanges(k - 1).events),
              AfterTurn(w.loop.value, TurnAt(k - 1, p, w.server), p.maxAttempts))
  }

  function TurnAt(k: nat, p: Play, server: Upload): Turn {
    TurnOf(server, p.first + k, p.exchanges(k), p.session.chunkSize)
  }

  /** The server, as the answers the clients' loops are written against. */
  function Answers(p: Play): (nat, Chunk) -> Turn {
    (k: nat, c: Chunk) => TurnAt(k, p, At(k, p).server)
  }

  lemma AnswersAre(p: Play, k: nat, c: Chunk)
    ensures Answers(p)(k, c) == TurnAt(k, p, At(k, p).server)
  {
    hide TurnAt, At;
  }

  /** The loop of `UploadClients` against these answers is the loop of this play. */
  lemma {:induction false} LoopIsTheSame(k: nat, p: Play)
    ensures LoopBefore(k, Loop(p.session, 0), p.source, p.maxAttempts, Answers(p)) == At(k, p).loop
  {
    hide TurnAt, ChunkAt, AfterTurn, Answers;
    if k > 0 {
      LoopIsTheSame(k - 1, p);
      var w := At(k - 1, p);
      if w.loop.Some? && Going(w.loop.value) {
        AnswersAre(p, k - 1, ChunkAt(p.source, w.loop.value.session));
      }
      OneTurnLater(k - 1, Loop(p.session, 0), p.source, p.maxAttempts, Answers(p), TurnAt(k - 1, p, w.server));
    }
  }

  ghost predicate PlausibleAt(k: nat, p: Play) {
    var w := At(k, p);
    w.loop.Some? && Going(w.loop.value) ==>
      PlausibleTurn(w.server, p.source, p.first + k, ChunkAt(p.source, w.loop.value.session), p.exchanges(k).events)
  }

  /** A source of the declared size, a session that is true of the row, requests of our own numbers,
      and turns in which the network does what networks do. */
  ghost predicate PlausiblePlay(p: Play) {
    && p.session.chunkSize > 0
    && WorldOk(0, World(p.server, Some(Loop(p.session, 0))), p)
    && forall k: nat :: PlausibleAt(k, p)
  }

  ghost predicate WorldOk(k: nat, w: World, p: Play) {
    && Kept(w.server, p.source)
    && (forall i | i in w.server.writers :: i < p.first + k)
    && (forall i | i in w.server.finishing :: i < p.first + k)
    && (w.loop.Some? ==> TrueOf(w.loop.value.session, w.server, p.source, p.session.chunkSize))
  }

  /** A client that has just created its upload starts well. */
  lemma CreatedIsPlausible(source: seq<byte>, chunkSize: nat, p: Play)
    requires chunkSize > 0
    requires p.source == source && p.server == Created(|source|) && p.session == Dto(p.server, chunkSize)
    ensures PlausiblePlay(p) <==> forall k: nat :: PlausibleAt(k, p)
  {
    hide PlausibleAt;
    CreatedIsSound(source);
  }

  /** While the loop goes on there is something left to send. */
  lemma ChunkIsSome(source: seq<byte>, s: Session)
    requires s.received < s.total == |source| && s.chunkSize > 0
    ensures ChunkAt(source, s).offset == s.received
    ensures ChunkAt(source, s).bytes != [] && From(source, s.received, ChunkAt(source, s).bytes)
  {}

  lemma TurnKeepsWorld(k: nat, w: World, p: Play)
    requires WorldOk(k, w, p) && p.session.chunkSize > 0
    requires w.loop.Some? && Going(w.loop.value)
    requires PlausibleTurn(w.server, p.source, p.first + k, ChunkAt(p.source, w.loop.value.session), p.exchanges(k).events)
    ensures WorldOk(k + 1, World(Run(w.server, p.exchanges(k).events), AfterTurn(w.loop.value, TurnAt(k, p, w.server), p.maxAttempts)), p)
    ensures match TurnAt(k, p, w.server)
            case Counted(s) => s.total == |p.source| && s.received > w.loop.value.session.received
            case Missed(_, asked) => asked.Some? ==> asked.value == Dto(Run(w.server, p.exchanges(k).events), p.session.chunkSize)
  {
    var chunk := ChunkAt(p.source, w.loop.value.session);
    ChunkIsSome(p.source, w.loop.value.session);
    hide Run, PlausibleTurn, Sound, ChunkAt, Responded, From;
    TurnKeeps(w.server, p.source, p.first + k, chunk, p.exchanges(k).events, p.session.chunkSize);
    SoundCount(Run(w.server, p.exchanges(k).events), p.source);
  }

  lemma SoundCount(u: Upload, source: seq<byte>)
    requires Sound(u, source)
    ensures u.total == |source| && u.received <= |u.file|
  {}

  lemma {:induction false} PlayKeeps(k: nat, p: Play)
    requires PlausiblePlay(p)
    ensures WorldOk(k, At(k, p), p)
  {
    if k > 0 {
      PlayKeeps(k - 1, p);
      var w := At(k - 1, p);
      assert PlausibleAt(k - 1, p);
      hide Sound, PlausibleTurn, Run, TurnAt, ChunkAt;
      if w.loop.Some? && Going(w.loop.value) {
        TurnKeepsWorld(k - 1, w, p);
      }
    }
  }

  /** In every turn of every upload, whatever the network does to it and to the requests before it:
      the file at the server is a prefix of the source and holds everything the client was told is
      there. Once the loop is over without having thrown, unless somebody aborted the upload, the
      file is the source; when the session says complete it is published. */
  lemma UploadedFilesAreWhole(k: nat, p: Play)
    requires PlausiblePlay(p)
    ensures var w := At(k, p);
            && w.server.file <= p.source
            && (w.loop.Some? ==> w.loop.value.session.received <= |w.server.file|)
            && (w.loop.Some? && !Going(w.loop.value) ==>
                  && (w.loop.value.session.status == Active ==> w.server.file == p.source)
                  && (w.loop.value.session.status == Complete ==> w.server.published && w.server.file == p.source))
  {
    PlayKeeps(k, p);
    hide At, PlausiblePlay;
  }

  // ─── when the count can go back ──────────────────────────────────────────────

  /** A request that has not ended and would leave a count below `n`. */
  predicate Behind(w: Writer, n: nat) {
    w.received < n && w.start + 1 < n
  }

  ghost predicate Calm(u: Upload, n: nat) {
    u.received >= n && forall id | id in u.writers :: !Behind(u.writers[id], n)
  }

  lemma EventKeepsCalm(u: Upload, source: seq<byte>, n: nat, e: Event)
    requires Sound(u, source) && Calm(u, n) && n <= |source| && Enabled(u, e) && Honest(u, source, e)
    ensures Calm(Step(u, e), n)
  {
    assert forall id | id in u.writers :: Within(u.writers[id], |u.file|) && !Behind(u.writers[id], n);
    hide WriteAt, From;
  }

  lemma {:induction false} RunKeepsCalm(u: Upload, source: seq<byte>, n: nat, events: seq<Event>)
    requires Sound(u, source) && Calm(u, n) && n <= |source| && HonestRun(u, source, events)
    ensures Calm(Run(u, events), n)
    decreases |events|
  {
    hide Step, Enabled, Honest, Sound, Calm;
    if events != [] && Enabled(u, events[0]) {
      EventKeepsCalm(u, source, n, events[0]);
      StepKeeps(u, source, events[0]);
      RunKeepsCalm(Step(u, events[0]), source, n, events[1..]);
    }
  }

  /** The server can come to count less than the `n` a client knows of exactly when it does already,
      or when an older request is still open further back. */
  lemma CountGoesBackExactlyWhenNotCalm(u: Upload, source: seq<byte>, n: nat)
    requires Sound(u, source) && n <= |source|
    ensures (exists events :: HonestRun(u, source, events) && Run(u, events).received < n) <==> !Calm(u, n)
  {
    if Calm(u, n) {
      forall events | HonestRun(u, source, events) ensures Run(u, events).received >= n {
        RunKeepsCalm(u, source, n, events);
      }
    } else if u.received < n {
      var nothing: seq<Event> := [];
      assert HonestRun(u, source, nothing) && Run(u, nothing).received < n;
    } else {
      var id :| id in u.writers && Behind(u.writers[id], n);
      var events := FallsBehind(u, source, n, id);
    }
  }

  lemma FallsBehind(u: Upload, source: seq<byte>, n: nat, id: nat) returns (events: seq<Event>)
    requires Sound(u, source) && n <= |source| && id in u.writers && Behind(u.writers[id], n)
    ensures HonestRun(u, source, events) && Run(u, events).received < n
  {
    var w := u.writers[id];
    assert Within(w, |u.file|);
    if w.received != w.start {
      events := [Break(id)];
      assert events[1..] == [] && HonestRun(BreakOn(u, id), source, []) && BreakOn(u, id).received == w.received;
      assert Run(u, events) == Run(BreakOn(u, id), []);
    } else {
      var bytes := source[w.start..w.start + 1];
      var u1 := ArriveOn(u, id, bytes);
      events := [Arrive(id, bytes), Break(id)];
      assert events[1..] == [Break(id)] && [Break(id)][1..] == [];
      assert u1.writers[id] == Writer(w.start, w.start + 1, 1, false);
      assert Run(u1, [Break(id)]) == Run(BreakOn(u1, id), []);
      assert HonestRun(u1, source, [Break(id)]);
    }
  }

  lemma {:induction false} PlausibleRunIsHonest(u: Upload, source: seq<byte>, id: nat, chunk: Chunk, events: seq<Event>)
    requires PlausibleTurn(u, source, id, chunk, events)
    ensures HonestRun(u, source, events)
    decreases |events|
  {
    hide Step, Enabled, Honest;
    if events != [] && Enabled(u, events[0]) {
      PlausibleRunIsHonest(Step(u, events[0]), source, id, chunk, events[1..]);
    }
  }

  ghost predicate CalmAt(k: nat, p: Play) {
    var w := At(k, p);
    w.loop.Some? && Going(w.loop.value) ==> Calm(w.server, w.loop.value.session.received)
  }

  /** As long as each turn begins with no older request open further back, every turn of the phone's
      loop brings it further or uses up an attempt, which is what its end rests on. */
  lemma CalmPlayMovesOn(p: Play)
    requires PlausiblePlay(p) && forall k: nat :: CalmAt(k, p)
    ensures MovesOn(Loop(p.session, 0), p.source, p.maxAttempts, Answers(p))
  {
    hide At, PlausibleTurn, TurnAt, ChunkAt, Calm;
    forall k: nat
      ensures match LoopBefore(k, Loop(p.session, 0), p.source, p.maxAttempts, Answers(p))
              case Some(l) => Going(l) ==> Moves(Answers(p)(k, ChunkAt(p.source, l.session)), l.session)
              case None => true
    {
      LoopIsTheSame(k, p);
      if At(k, p).loop.Some? && Going(At(k, p).loop.value) {
        CalmTurnMoves(k, p);
      }
    }
  }

  lemma CalmTurnMoves(k: nat, p: Play)
    requires PlausiblePlay(p) && CalmAt(k, p)
    requires At(k, p).loop.Some? && Going(At(k, p).loop.value)
    ensures Moves(TurnAt(k, p, At(k, p).server), At(k, p).loop.value.session)
  {
    PlayKeeps(k, p);
    assert PlausibleAt(k, p);
    hide At, PlausibleTurn, TurnAt, ChunkAt, HonestRun, Sound, Run;
    var w := At(k, p);
    var n := w.loop.value.session.received;
    TurnKeepsWorld(k, w, p);
    PlausibleRunIsHonest(w.server, p.source, p.first + k, ChunkAt(p.source, w.loop.value.session), p.exchanges(k).events);
    RunKeepsCalm(w.server, p.source, n, p.exchanges(k).events);
    SoundCount(Run(w.server, p.exchanges(k).events), p.source);
  }

  // ─── the clients themselves ──────────────────────────────────────────────────

  /** `uploadFile` against this server: it ends, and what it returns is true of the file. */
  method UploadToServer(p: Play) returns (result: Option<Session>, ghost turns: nat)
    requires PlausiblePlay(p) && forall k: nat :: CalmAt(k, p)
    ensures var w := At(turns, p);
            && w.server.file <= p.source
            && (result.Some? ==> w.loop.Some? && w.loop.value.session == result.value && !Going(w.loop.value))
            && (result.Some? && result.value.status == Active ==> w.server.file == p.source)
            && (result.Some? && result.value.status == Complete ==> w.server.published && w.server.file == p.source)
  {
    CalmPlayMovesOn(p);
    var sent;
    result, sent := UploadFile(p.source, p.session, p.maxAttempts, Answers(p));
    turns := |sent|;
    LoopIsTheSame(turns, p);
    UploadedFilesAreWhole(turns, p);
  }

  /** What the desktop client sees of a turn: it does not ask again after a failure. */
  function PatchedOf(turn: Turn): Patched {
    if turn.Counted? then Accepted(turn.session) else Threw
  }

  function PatchAnswers(p: Play): (nat, Chunk) -> Patched {
    (k: nat, c: Chunk) => PatchedOf(TurnAt(k, p, At(k, p).server))
  }

  /** The desktop client's loop is the phone's with a single attempt. */
  lemma {:induction false} SendIsOneAttempt(k: nat, p: Play, sent: seq<Chunk>)
    requires PlausiblePlay(p) && k <= |sent|
    requires Continues(p.source, |p.source|, p.session, PatchAnswers(p), sent)
    requires k > 0 ==> PatchAnswers(p)(k - 1, sent[k - 1]).Accepted?
    ensures At(k, p).loop == Some(Loop(SessionBefore(k, p.session, PatchAnswers(p), sent), 0))
  {
    hide PlausiblePlay, Kept, TurnAt, ReadAt, ChunkAt, At;
    if k == 0 {
      StartOfPlay(p);
    } else {
      assert ContinuesAt(p.source, |p.source|, p.session, PatchAnswers(p), sent, k - 1);
      SendIsOneAttempt(k - 1, p, sent);
      PlayKeeps(k - 1, p);
      CountedGoesOn(k - 1, p);
      assert sent[..k][k - 1] == sent[k - 1];
    }
  }

  lemma CountedGoesOn(k: nat, p: Play)
    requires At(k, p).loop.Some? && Going(At(k, p).loop.value) && TurnAt(k, p, At(k, p).server).Counted?
    ensures At(k + 1, p).loop == Some(Loop(TurnAt(k, p, At(k, p).server).session, 0))
  {
    hide TurnAt;
  }

  /** `#send` against this server: the guard against an answer that does not move on never fires, and
      an upload that is reported done is published and equal to the source. */
  method SendToServer(p: Play) returns (ending: Ending, ghost turns: nat)
    requires PlausiblePlay(p)
    ensures At(turns, p).server.file <= p.source
    ensures ending != NotMoving
    ensures ending == Done ==> At(turns, p).server.published && At(turns, p).server.file == p.source
  {
    hide *;
    var sent, last;
    ending, sent, last := Send(p.source, |p.source|, p.session, PatchAnswers(p));
    turns := |sent|;
    UploadedFilesAreWhole(turns, p);
    if sent == [] {
      StartOfPlay(p);
    } else if ending != Lost {
      LastTurn(p, sent);
    }
    if ending == Done {
      CompleteIsOver(At(turns, p));
    }
  }

  lemma StartOfPlay(p: Play)
    ensures At(0, p).loop == Some(Loop(p.session, 0))
  {}

  lemma CompleteIsOver(w: World)
    requires w.loop.Some? && w.loop.value.session.status == Complete
    ensures !Going(w.loop.value)
  {}

  lemma LastTurn(p: Play, sent: seq<Chunk>)
    requires PlausiblePlay(p) && sent != []
    requires Continues(p.source, |p.source|, p.session, PatchAnswers(p), sent)
    requires PatchAnswers(p)(|sent| - 1, sent[|sent| - 1]).Accepted?
    ensures LastAnswer(PatchAnswers(p), sent).received > sent[|sent| - 1].offset
    ensures At(|sent|, p).loop == Some(Loop(LastAnswer(PatchAnswers(p), sent), 0))
  {
    hide PlausiblePlay, Kept, TurnAt, PlausibleTurn, ReadAt, ChunkAt, At;
    var k := |sent| - 1;
    SendIsOneAttempt(|sent|, p, sent);
    assert sent[..|sent|] == sent;
    assert ContinuesAt(p.source, |p.source|, p.session, PatchAnswers(p), sent, k);
    SendIsOneAttempt(k, p, sent);
    PlayKeeps(k, p);
    CountedMoves(k, p);
  }

  lemma CountedMoves(k: nat, p: Play)
    requires PlausiblePlay(p) && At(k, p).loop.Some? && Going(At(k, p).loop.value)
    ensures TurnAt(k, p, At(k, p).server).Counted? ==>
              TurnAt(k, p, At(k, p).server).session.received > At(k, p).loop.value.session.received
  {
    PlayKeeps(k, p);
    assert PlausibleAt(k, p);
    hide PlausiblePlay, TurnAt, PlausibleTurn, ChunkAt, At;
    TurnKeepsWorld(k, At(k, p), p);
  }
}
