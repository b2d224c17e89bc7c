/** An upload over a network that comes back: how it ends. */
module UploadProgress {
  import opened Text
  import opened Uploads
  import opened UploadClients
  import opened UploadRuns

  /** What becomes of one request: answered; carried out, but the answer is lost; broken off after `n`
      bytes of it had landed; or never arrived. */
  datatype Fate = Answered | Unheard | Broken(n: nat) | Unreached

  function WholeRequest(id: nat, chunk: Chunk, total: nat): seq<Event> {
    [Begin(id, chunk.offset, Some(|chunk.bytes|)), Arrive(id, chunk.bytes), End(id)]
    + (if chunk.offset + |chunk.bytes| >= total then [Finish(id)] else [])
  }

  /** One request of the client, and nothing else going on; afterwards the server can be asked. */
  function ExchangeOf(fate: Fate, id: nat, chunk: Chunk, total: nat): Exchange {
    match fate
    case Answered => Exchange(WholeRequest(id, chunk, total), true, true)
    case Unheard => Exchange(WholeRequest(id, chunk, total), false, true)
    case Broken(n) =>
      Exchange([Begin(id, chunk.offset, Some(|chunk.bytes|)), Arrive(id, chunk.bytes[..Smaller(n, |chunk.bytes|)]), Break(id)], false, true)
    case Unreached => Exchange([], false, true)
  }

  /** The row is being filled and nobody is at work on it. */
  ghost predicate Idle(u: Upload, source: seq<byte>) {
    && Kept(u, source) && u.status == Active && !u.published && !u.removed
    && u.writers == map[] && u.finishing == {} && u.received < u.total
  }

  ghost predicate Finished(u: Upload, source: seq<byte>) {
    u.status == Complete && u.published && u.file == source && u.received == u.total == |source|
  }

  lemma OneEvent(u: Upload, e: Event, rest: seq<Event>, id: nat, size: nat)
    requires Enabled(u, e)
    ensures Run(u, [e] + rest) == Run(Step(u, e), rest)
    ensures var now := ResponseAt(u, id, e, size);
      Responded(u, id, [e] + rest, size) == if now.Some? then now else Responded(Step(u, e), id, rest, size)
  {
    hide Step, Enabled, ResponseAt;
    assert ([e] + rest)[1..] == rest;
  }

  lemma NoEvents(u: Upload, id: nat, size: nat)
    ensures Run(u, []) == u && Responded(u, id, [], size) == None
  {}

  // ─── one request ─────────────────────────────────────────────────────────────

  /** The request is being read and these bytes of it have landed. */
  ghost predicate Taken(u: Upload, u': Upload, source: seq<byte>, id: nat, chunk: Chunk, n: nat) {
    && u'.writers == map[id := Writer(u.received, u.received + n, n, false)]
    && u' == u.(writers := u'.writers, file := u'.file)
    && Kept(u', source) && u.received + n <= |u'.file|
  }

  lemma Begins(u: Upload, source: seq<byte>, id: nat, chunk: Chunk)
    requires Idle(u, source) && chunk.offset == u.received && From(source, chunk.offset, chunk.bytes)
    ensures var begin := Begin(id, chunk.offset, Some(|chunk.bytes|));
      && Enabled(u, begin) && Taken(u, Step(u, begin), source, id, chunk, 0)
      && forall size: nat :: ResponseAt(u, id, begin, size) == None
  {
    StepKeeps(u, source, Begin(id, chunk.offset, Some(|chunk.bytes|)));
    hide WriteAt;
  }

  lemma Arrives(u0: Upload, u: Upload, source: seq<byte>, id: nat, chunk: Chunk, n: nat)
    requires Idle(u0, source) && Taken(u0, u, source, id, chunk, 0)
    requires chunk.offset == u0.received && From(source, chunk.offset, chunk.bytes) && n <= |chunk.bytes|
    ensures var arrive := Arrive(id, chunk.bytes[..n]);
      && Enabled(u, arrive) && Taken(u0, Step(u, arrive), source, id, chunk, n)
      && forall size: nat :: ResponseAt(u, id, arrive, size) == None
  {
    var bytes := chunk.bytes[..n];
    assert source[u0.received..u0.received + n] == source[u0.received..u0.received + |chunk.bytes|][..n];
    WritingTheSource(u.file, u0.received, bytes, source);
    hide WriteAt, Sound;
    StepKeeps(u, source, Arrive(id, bytes));
  }

  lemma BeginAndArrive(u: Upload, source: seq<byte>, id: nat, chunk: Chunk, n: nat, rest: seq<Event>, size: nat)
    requires Idle(u, source) && chunk.offset == u.received && From(source, chunk.offset, chunk.bytes) && n <= |chunk.bytes|
    ensures var begin := Begin(id, chunk.offset, Some(|chunk.bytes|));
      var arrive := Arrive(id, chunk.bytes[..n]);
      && Enabled(u, begin) && Enabled(Step(u, begin), arrive)
      && var u' := Step(Step(u, begin), arrive);
      && Taken(u, u', source, id, chunk, n)
      && Run(u, [begin, arrive] + rest) == Run(u', rest)
      && Responded(u, id, [begin, arrive] + rest, size) == Responded(u', id, rest, size)
  {
    hide Idle, Taken, From, Step, Enabled, Run, Responded, ResponseAt;
    var begin := Begin(id, chunk.offset, Some(|chunk.bytes|));
    var arrive := Arrive(id, chunk.bytes[..n]);
    Begins(u, source, id, chunk);
    Arrives(u, Step(u, begin), source, id, chunk, n);
    OneEvent(u, begin, [arrive] + rest, id, size);
    OneEvent(Step(u, begin), arrive, rest, id, size);
    assert [begin, arrive] + rest == [begin] + ([arrive] + rest);
  }

  lemma EndOfRequest(u0: Upload, u: Upload, source: seq<byte>, id: nat, chunk: Chunk, size: nat)
    requires Idle(u0, source) && Taken(u0, u, source, id, chunk, |chunk.bytes|) && chunk.bytes != []
    requires chunk.offset == u0.received && From(source, chunk.offset, chunk.bytes)
    ensures var finish := if chunk.offset + |chunk.bytes| >= u0.total then [Finish(id)] else [];
      var u' := Run(u, [End(id)] + finish);
      && Responded(u, id, [End(id)] + finish, size) == Some(Ok(Dto(u', size)))
      && (if chunk.offset + |chunk.bytes| < u0.total
          then Idle(u', source) && u'.received == chunk.offset + |chunk.bytes|
          else Finished(u', source))
      && u'.total == u0.total
  {
    var u1 := Step(u, End(id));
    StepKeeps(u, source, End(id));
    if chunk.offset + |chunk.bytes| >= u0.total {
      OneEvent(u, End(id), [Finish(id)], id, size);
      OneEvent(u1, Finish(id), [], id, size);
      StepKeeps(u1, source, Finish(id));
      NoEvents(Step(u1, Finish(id)), id, size);
      assert [Finish(id)] + [] == [Finish(id)];
    } else {
      OneEvent(u, End(id), [], id, size);
      NoEvents(u1, id, size);
    }
  }

  /** A request that arrives whole is counted, and the last one publishes the file. */
  lemma WholeRequestCounts(u: Upload, source: seq<byte>, id: nat, chunk: Chunk, size: nat)
    requires Idle(u, source) && chunk.offset == u.received && chunk.bytes != [] && From(source, chunk.offset, chunk.bytes)
    ensures var u' := Run(u, WholeRequest(id, chunk, u.total));
      && Responded(u, id, WholeRequest(id, chunk, u.total), size) == Some(Ok(Dto(u', size)))
      && (if chunk.offset + |chunk.bytes| < u.total
          then Idle(u', source) && u'.received == chunk.offset + |chunk.bytes|
          else Finished(u', source))
      && u'.total == u.total
  {
    hide Run, Responded, Step, Enabled, Idle, Taken, From, Finished;
    var begin, arrive := Begin(id, chunk.offset, Some(|chunk.bytes|)), Arrive(id, chunk.bytes);
    var last := [End(id)] + (if chunk.offset + |chunk.bytes| >= u.total then [Finish(id)] else []);
    assert chunk.bytes[..|chunk.bytes|] == chunk.bytes;
    BeginAndArrive(u, source, id, chunk, |chunk.bytes|, last, size);
    EndOfRequest(u, Step(Step(u, begin), arrive), source, id, chunk, size);
    assert WholeRequest(id, chunk, u.total) == [begin, arrive] + last;
  }

  /** A request that breaks off leaves what had landed, counted but never published. */
  lemma BrokenRequestCounts(u: Upload, source: seq<byte>, id: nat, chunk: Chunk, n: nat, size: nat)
    requires Idle(u, source) && chunk.offset == u.received && From(source, chunk.offset, chunk.bytes) && n <= |chunk.bytes|
    ensures var events := [Begin(id, chunk.offset, Some(|chunk.bytes|)), Arrive(id, chunk.bytes[..n]), Break(id)];
      var u' := Run(u, events);
      && Responded(u, id, events, size) == None
      && Kept(u', source) && u' == u.(file := u'.file, received := u.received + n)
  {
    var begin, arrive := Begin(id, chunk.offset, Some(|chunk.bytes|)), Arrive(id, chunk.bytes[..n]);
    BeginAndArrive(u, source, id, chunk, n, [Break(id)], size);
    var u2 := Step(Step(u, begin), arrive);
    Breaks(u, u2, source, id, chunk, n, size);
    assert [begin, arrive] + [Break(id)] == [begin, arrive, Break(id)];
    hide Run, Responded, Step, Enabled, Taken, From;
  }

  lemma Breaks(u0: Upload, u: Upload, source: seq<byte>, id: nat, chunk: Chunk, n: nat, size: nat)
    requires Idle(u0, source) && Taken(u0, u, source, id, chunk, n)
    ensures var u' := Run(u, [Break(id)]);
      && Responded(u, id, [Break(id)], size) == None
      && Kept(u', source) && u' == u0.(file := u'.file, received := u0.received + n)
  {
    var u' := Step(u, Break(id));
    StepKeeps(u, source, Break(id));
    OneEvent(u, Break(id), [], id, size);
    NoEvents(u', id, size);
    assert [Break(id)] + [] == [Break(id)];
    assert u.writers - {id} == map[];
  }

  // ─── one turn of the phone ───────────────────────────────────────────────────

  /** Turn `k` of the play meets this fate. */
  ghost predicate Meets(p: Play, fates: nat -> Fate, k: nat) {
    var w := At(k, p);
    w.loop.Some? && Going(w.loop.value) ==>
      p.exchanges(k) == ExchangeOf(fates(k), p.first + k, ChunkAt(p.source, w.loop.value.session), w.server.total)
  }

  /** The client knows what the server has, and has failed `attempt` times in a row. */
  ghost predicate Ready(p: Play, k: nat, attempt: nat) {
    var w := At(k, p);
    Idle(w.server, p.source) && w.loop == Some(Loop(Dto(w.server, p.session.chunkSize), attempt))
  }

  /** The loop has returned: the file is published, or all of it is there and nobody will publish it. */
  ghost predicate Over(p: Play, k: nat, published: bool) {
    var w := At(k, p);
    && w.loop.Some? && !Going(w.loop.value) && w.server.file == p.source
    && w.server.published == published
    && w.loop.value.session.status == if published then Complete else Active
  }

  lemma NextWorld(p: Play, k: nat)
    requires At(k, p).loop.Some? && Going(At(k, p).loop.value)
    ensures At(k + 1, p) == World(Run(At(k, p).server, p.exchanges(k).events),
                                  AfterTurn(At(k, p).loop.value, TurnAt(k, p, At(k, p).server), p.maxAttempts))
  {
    hide Run, AfterTurn, TurnAt;
  }

  /** A whole request, whether or not its answer is heard. */
  lemma WholeTurn(u: Upload, source: seq<byte>, session: Session, id: nat, heard: bool)
    requires Idle(u, source) && session == Dto(u, session.chunkSize) && session.chunkSize > 0
    ensures var x := Exchange(WholeRequest(id, ChunkAt(source, session), u.total), heard, true);
      var u' := Run(u, x.events);
      var told := Dto(u', session.chunkSize);
      && TurnOf(u, id, x, session.chunkSize) == (if heard then Counted(told) else Missed(Network, Some(told)))
      && (Finished(u', source) || (Idle(u', source) && u'.received > u.received)) && u'.total == u.total
  {
    ChunkIsSome(source, session);
    hide Run, Responded, ChunkAt, From, WholeRequest;
    WholeRequestCounts(u, source, id, ChunkAt(source, session), session.chunkSize);
  }

  lemma BrokenTurn(u: Upload, source: seq<byte>, session: Session, id: nat, n: nat)
    requires Idle(u, source) && session == Dto(u, session.chunkSize) && session.chunkSize > 0
    ensures var x := ExchangeOf(Broken(n), id, ChunkAt(source, session), u.total);
      var u' := Run(u, x.events);
      && TurnOf(u, id, x, session.chunkSize) == Missed(Network, Some(Dto(u', session.chunkSize)))
      && Kept(u', source) && u'.received >= u.received
      && (Idle(u', source) || (u'.status == Active && u'.received == u'.total && !u'.published && u'.file == source)) && u'.total == u.total
  {
    var chunk := ChunkAt(source, session);
    ChunkIsSome(source, session);
    hide Run, Responded, ChunkAt;
    BrokenRequestCounts(u, source, id, chunk, Smaller(n, |chunk.bytes|), session.chunkSize);
  }

  lemma UnreachedTurn(u: Upload, source: seq<byte>, session: Session, id: nat)
    requires session.received < session.total
    ensures var x := ExchangeOf(Unreached, id, ChunkAt(source, session), u.total);
      TurnOf(u, id, x, session.chunkSize) == Missed(Network, Some(Dto(u, session.chunkSize))) && Run(u, x.events) == u
  {
    NoEvents(u, id, session.chunkSize);
    hide ChunkAt;
  }

  /** One turn: on the way, or over. */
  lemma TurnMeets(p: Play, k: nat, attempt: nat, fate: Fate)
    requires p.session.chunkSize > 0 && Ready(p, k, attempt)
    requires p.exchanges(k) == ExchangeOf(fate, p.first + k, ChunkAt(p.source, At(k, p).loop.value.session), At(k, p).server.total)
    requires fate.Answered? || attempt + 1 < p.maxAttempts
    ensures var was := At(k, p).server;
      var now := At(k + 1, p).server;
      || (Ready(p, k + 1, if fate.Answered? then 0 else attempt + 1) && now.total == was.total
          && now.received >= was.received && (fate.Answered? ==> now.received > was.received))
      || Over(p, k + 1, !fate.Broken?)
  {
    hide At, Run, TurnOf, ChunkAt, WholeRequest, Kept;
    var w := At(k, p);
    var session := w.loop.value.session;
    var id := p.first + k;
    NextWorld(p, k);
    match fate {
      case Answered => WholeTurn(w.server, p.source, session, id, true);
      case Unheard => WholeTurn(w.server, p.source, session, id, false);
      case Broken(n) => BrokenTurn(w.server, p.source, session, id, n);
      case Unreached => UnreachedTurn(w.server, p.source, session, id);
    }
  }

  // ─── the whole upload ────────────────────────────────────────────────────────

  predicate AnsweredAfter(fates: nat -> Fate, k: nat, j: nat) {
    fates(k + j).Answered?
  }

  ghost predicate AnsweredSoon(fates: nat -> Fate, k: nat, maxAttempts: nat) {
    exists j: nat :: j < maxAttempts && AnsweredAfter(fates, k, j)
  }

  /** Never as many failures in a row as the client gives up after. */
  ghost predicate Recovers(fates: nat -> Fate, maxAttempts: nat) {
    forall k: nat :: AnsweredSoon(fates, k, maxAttempts)
  }

  ghost predicate Undergoes(p: Play, fates: nat -> Fate) {
    forall k: nat :: Meets(p, fates, k)
  }

  lemma ReadyIsGoing(p: Play, k: nat, attempt: nat)
    requires Ready(p, k, attempt)
    ensures At(k, p).loop.Some? && Going(At(k, p).loop.value) && At(k, p).server.received <= At(k, p).server.total
  {
    hide At, Kept;
  }

  /** From turn `k`, with an answer not further off than the client's patience: the turn before the last
      was a turn like any other, and after the last one the upload is over. */
  lemma {:induction false} ItComesToAnEnd(p: Play, fates: nat -> Fate, k: nat, attempt: nat, j: nat) returns (n: nat, failed: nat)
    requires p.session.chunkSize > 0 && Undergoes(p, fates) && Recovers(fates, p.maxAttempts)
    requires Ready(p, k, attempt) && attempt + j < p.maxAttempts && AnsweredAfter(fates, k, j)
    ensures n >= k && Over(p, n + 1, !fates(n).Broken?) && Ready(p, n, failed)
    decreases At(k, p).server.total - At(k, p).server.received, j
  {
    hide At, Run, ChunkAt, ExchangeOf, Kept, Over, Ready, Recovers, Undergoes;
    ReadyIsGoing(p, k, attempt);
    TurnUndergone(p, fates, k, attempt);
    if Over(p, k + 1, !fates(k).Broken?) {
      n, failed := k, attempt;
    } else if fates(k).Answered? {
      ReadyIsGoing(p, k + 1, 0);
      var next := NextAnswer(fates, k + 1, p.maxAttempts);
      n, failed := ItComesToAnEnd(p, fates, k + 1, 0, next);
    } else {
      ReadyIsGoing(p, k + 1, attempt + 1);
      assert k + 1 + (j - 1) == k + j;
      n, failed := ItComesToAnEnd(p, fates, k + 1, attempt + 1, j - 1);
    }
  }

  lemma TurnUndergone(p: Play, fates: nat -> Fate, k: nat, attempt: nat)
    requires p.session.chunkSize > 0 && Undergoes(p, fates) && Ready(p, k, attempt)
    requires fates(k).Answered? || attempt + 1 < p.maxAttempts
    ensures var was := At(k, p).server;
      var now := At(k + 1, p).server;
      || (Ready(p, k + 1, if fates(k).Answered? then 0 else attempt + 1) && now.total == was.total
          && now.received >= was.received && (fates(k).Answered? ==> now.received > was.received))
      || Over(p, k + 1, !fates(k).Broken?)
  {
    assert Meets(p, fates, k);
    ReadyIsGoing(p, k, attempt);
    hide At, Run, ChunkAt, ExchangeOf, Kept, Over, Ready;
    TurnMeets(p, k, attempt, fates(k));
  }

  lemma NextAnswer(fates: nat -> Fate, k: nat, maxAttempts: nat) returns (j: nat)
    requires Recovers(fates, maxAttempts)
    ensures j < maxAttempts && AnsweredAfter(fates, k, j)
  {
    assert AnsweredSoon(fates, k, maxAttempts);
    j :| j < maxAttempts && AnsweredAfter(fates, k, j);
  }

  /** An upload over a network that recovers, by a client that knows how far it is: the loop ends with
      all of the file at the server, and the file is published exactly when the last request was not
      broken off after its last byte. */
  lemma RecoveringUploadEnds(p: Play, fates: nat -> Fate) returns (n: nat, failed: nat)
    requires p.session == Dto(p.server, p.session.chunkSize) && p.session.chunkSize > 0 && Idle(p.server, p.source)
    requires Undergoes(p, fates) && Recovers(fates, p.maxAttempts)
    ensures Over(p, n + 1, !fates(n).Broken?) && Ready(p, n, failed)
  {
    var j := NextAnswer(fates, 0, p.maxAttempts);
    n, failed := ItComesToAnEnd(p, fates, 0, 0, j);
  }

  /** A request that breaks off before its last byte leaves something to send. */
  lemma BrokenEarlyGoesOn(p: Play, fates: nat -> Fate, k: nat, attempt: nat)
    requires p.session.chunkSize > 0 && Ready(p, k, attempt) && Meets(p, fates, k)
    requires fates(k).Broken? && fates(k).n < |ChunkAt(p.source, At(k, p).loop.value.session).bytes|
    ensures At(k + 1, p).loop.Some? ==> Going(At(k + 1, p).loop.value)
  {
    ReadyIsGoing(p, k, attempt);
    hide At, Run, TurnOf, ChunkAt, Kept, ExchangeOf, Meets;
    var w := At(k, p);
    var session := w.loop.value.session;
    var id := p.first + k;
    MetIs(p, fates, k);
    NextWorld(p, k);
    BrokenTurn(w.server, p.source, session, id, fates(k).n);
    BrokenShort(w.server, p.source, session, id, fates(k).n);
    AskedIsGoing(w.loop.value, Run(w.server, p.exchanges(k).events), p.session.chunkSize, p.maxAttempts);
  }

  lemma MetIs(p: Play, fates: nat -> Fate, k: nat)
    requires Meets(p, fates, k) && At(k, p).loop.Some? && Going(At(k, p).loop.value)
    ensures p.exchanges(k) == ExchangeOf(fates(k), p.first + k, ChunkAt(p.source, At(k, p).loop.value.session), At(k, p).server.total)
  {
    hide At, ExchangeOf, ChunkAt;
  }

  lemma AskedIsGoing(l: Loop, u: Upload, size: nat, maxAttempts: nat)
    requires u.status == Active && u.received < u.total
    ensures var next := AfterTurn(l, Missed(Network, Some(Dto(u, size))), maxAttempts); next.Some? ==> Going(next.value)
  {}

  lemma BrokenShort(u: Upload, source: seq<byte>, session: Session, id: nat, n: nat)
    requires Idle(u, source) && session == Dto(u, session.chunkSize) && session.chunkSize > 0
    requires n < |ChunkAt(source, session).bytes|
    ensures var u' := Run(u, ExchangeOf(Broken(n), id, ChunkAt(source, session), u.total).events); u'.received < u'.total == u.total
  {
    var chunk := ChunkAt(source, session);
    ChunkIsSome(source, session);
    hide Run, Responded, ChunkAt;
    BrokenRequestCounts(u, source, id, chunk, Smaller(n, |chunk.bytes|), session.chunkSize);
  }

  /** In particular it is when requests that break off do so before their last byte. */
  lemma RecoveringUploadIsPublished(p: Play, fates: nat -> Fate) returns (n: nat)
    requires p.session == Dto(p.server, p.session.chunkSize) && p.session.chunkSize > 0 && Idle(p.server, p.source)
    requires Undergoes(p, fates) && Recovers(fates, p.maxAttempts)
    requires forall k: nat | At(k, p).loop.Some? && Going(At(k, p).loop.value) && fates(k).Broken? ::
               fates(k).n < |ChunkAt(p.source, At(k, p).loop.value.session).bytes|
    ensures At(n, p).loop.Some? && At(n, p).loop.value.session.status == Complete
    ensures At(n, p).server.published && At(n, p).server.file == p.source
  {
    hide At, Ready, Idle, ChunkAt, ExchangeOf, Undergoes, Recovers;
    var failed;
    n, failed := RecoveringUploadEnds(p, fates);
    ReadyIsGoing(p, n, failed);
    if fates(n).Broken? {
      AllMeet(p, fates, n);
      BrokenEarlyGoesOn(p, fates, n, failed);
    }
    n := n + 1;
  }

  lemma AllMeet(p: Play, fates: nat -> Fate, k: nat)
    requires Undergoes(p, fates)
    ensures Meets(p, fates, k)
  {}

  /** Otherwise the file is never published: the session still says active, the client sees nothing
      left to send, and picking the upload up again ends before its first request. */
  lemma {:induction false} LastByteThenSilence(p: Play, k: nat)
    requires p.server.status == Active && p.server.received >= p.server.total && !p.server.published
    requires p.session == Dto(p.server, p.session.chunkSize)
    ensures !Going(Loop(p.session, 0)) && At(0, p).loop == Some(Loop(p.session, 0))
    ensures At(k, p).server == p.server && (k > 0 ==> At(k, p).loop.None?)
  {
    if k > 0 {
      LastByteThenSilence(p, k - 1);
    }
  }

  /** A client whose idea of the offset is stale is told so, asks, and goes on from the server's own
      number. */
  lemma StaleOffsetIsCorrected(u: Upload, source: seq<byte>, l: Loop, id: nat, maxAttempts: nat)
    requires u.status == Active && id !in u.writers && id !in u.finishing
    requires l.session.received < l.session.total && l.session.received != u.received && l.attempt + 1 < maxAttempts
    ensures var chunk := ChunkAt(source, l.session);
      var x := Exchange([Begin(id, chunk.offset, Some(|chunk.bytes|))], true, true);
      AfterTurn(l, TurnOf(u, id, x, l.session.chunkSize), maxAttempts) == Some(Loop(Dto(u, l.session.chunkSize), l.attempt + 1))
  {
    var chunk := ChunkAt(source, l.session);
    var begin := Begin(id, chunk.offset, Some(|chunk.bytes|));
    assert Run(u, [begin]) == Run(Step(u, begin), []);
  }
}
