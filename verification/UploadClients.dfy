/** The two clients that send a file in chunks: `UploadManager.#send` of
    `apps/desktop-client/src/main/uploads.ts` and `uploadFile` of `apps/pwa/src/uploads/uploader.ts`. */
module UploadClients {
  import opened Text
  import opened Uploads

  /** What the server answers about an upload. */
  datatype Session = Session(received: nat, total: nat, chunkSize: nat, status: Status)

  datatype Chunk = Chunk(offset: nat, bytes: seq<byte>)

  function Smaller(a: nat, b: nat): nat {
    if a < b then a else b
  }

  /** Every chunk that was sent is the source's own bytes at its offset, and no longer than asked. */
  predicate SentTruthfully(sent: seq<Chunk>, source: seq<byte>) {
    forall c | c in sent :: c.bytes == [] || From(source, c.offset, c.bytes)
  }

  // ─── the desktop client ──────────────────────────────────────────────────────

  datatype Patched = Accepted(session: Session) | Threw

  datatype Ending = Done | NotWhole | NotMoving | Lost

  function ReadAt(source: seq<byte>, offset: nat, size: nat): (bytes: seq<byte>)
    ensures |bytes| <= size && (bytes != [] ==> From(source, offset, bytes))
    ensures bytes == [] <==> offset >= |source| || size == 0
  {
    if offset >= |source| then [] else source[offset..Smaller(offset + size, |source|)]
  }

  ghost predicate StrictlyOnward(sent: seq<Chunk>) {
    forall i, j | 0 <= i < j < |sent| :: sent[i].offset < sent[j].offset
  }

  function LastAnswer(answers: (nat, Chunk) -> Patched, sent: seq<Chunk>): Session
    requires sent != []
  {
    match answers(|sent| - 1, sent[|sent| - 1])
    case Accepted(session) => session
    case Threw => Session(0, 0, 0, Aborted)
  }

  /** What the loop goes by before its `k`-th request. */
  function SessionBefore(k: nat, created: Session, answers: (nat, Chunk) -> Patched, sent: seq<Chunk>): Session
    requires k <= |sent|
  {
    if k == 0 then created else LastAnswer(answers, sent[..k])
  }

  /** Request `k` continues where the answer to the one before it left off. */
  predicate ContinuesAt(source: seq<byte>, totalBytes: nat, created: Session, answers: (nat, Chunk) -> Patched, sent: seq<Chunk>, k: nat)
    requires k < |sent|
  {
    var s := SessionBefore(k, created, answers, sent);
    && s.status == Active && s.received < totalBytes
    && sent[k] == Chunk(s.received, ReadAt(source, s.received, created.chunkSize))
    && (k > 0 ==> answers(k - 1, sent[k - 1]).Accepted? && s.received > sent[k - 1].offset)
  }

  ghost predicate Continues(source: seq<byte>, totalBytes: nat, created: Session, answers: (nat, Chunk) -> Patched, sent: seq<Chunk>) {
    forall k: nat | k < |sent| :: ContinuesAt(source, totalBytes, created, answers, sent, k)
  }

  lemma ContinuesFromNothing(source: seq<byte>, totalBytes: nat, created: Session, answers: (nat, Chunk) -> Patched)
    ensures Continues(source, totalBytes, created, answers, [])
  {}

  lemma ContinuesWith(source: seq<byte>, totalBytes: nat, created: Session, answers: (nat, Chunk) -> Patched, sent: seq<Chunk>, chunk: Chunk)
    requires Continues(source, totalBytes, created, answers, sent)
    requires var s := SessionBefore(|sent|, created, answers, sent);
      && s.status == Active && s.received < totalBytes
      && chunk == Chunk(s.received, ReadAt(source, s.received, created.chunkSize))
      && (sent != [] ==> answers(|sent| - 1, sent[|sent| - 1]).Accepted? && s.received > sent[|sent| - 1].offset)
    ensures Continues(source, totalBytes, created, answers, sent + [chunk])
  {
    hide LastAnswer, ReadAt;
    forall k: nat | k <= |sent|
      ensures ContinuesAt(source, totalBytes, created, answers, sent + [chunk], k)
    {
      assert (sent + [chunk])[..k] == sent[..k];
      if k < |sent| {
        assert ContinuesAt(source, totalBytes, created, answers, sent, k);
      }
    }
  }

  /** `#send`, whatever the server answers to each request: `answers(k, chunk)` is its answer to the
      `k`-th. The loop ends by itself because an answer that does not move past the chunk ends it. */
  method Send(source: seq<byte>, totalBytes: nat, created: Session, answers: (nat, Chunk) -> Patched)
    returns (ending: Ending, sent: seq<Chunk>, last: Session)
    ensures SentTruthfully(sent, source) && StrictlyOnward(sent)
    ensures Continues(source, totalBytes, created, answers, sent)
    ensures forall c | c in sent :: 0 < |c.bytes| <= created.chunkSize
    ensures |sent| <= totalBytes
    ensures ending == Done ==> last.status == Complete
    ensures ending == NotWhole ==> last.status != Complete
    ensures ending == NotWhole ==>
      (last.status != Active || last.received >= totalBytes || last.received >= |source| || created.chunkSize == 0)
    ensures ending.Done? || ending.NotWhole? ==>
      last == if sent == [] then created else LastAnswer(answers, sent)
    ensures ending.Done? || ending.NotWhole? ==> sent == [] || answers(|sent| - 1, sent[|sent| - 1]).Accepted?
    ensures ending == Lost ==> sent != [] && answers(|sent| - 1, sent[|sent| - 1]).Threw?
    ensures ending == NotMoving ==> sent != [] && answers(|sent| - 1, sent[|sent| - 1]).Accepted?
    ensures ending == NotMoving ==> LastAnswer(answers, sent).received <= sent[|sent| - 1].offset
  {
    hide Continues, From, ReadAt;
    last := created;
    sent := [];
    ContinuesFromNothing(source, totalBytes, created, answers);
    while last.received < totalBytes && last.status == Active
      invariant SentTruthfully(sent, source) && StrictlyOnward(sent)
      invariant Continues(source, totalBytes, created, answers, sent)
      invariant sent != [] ==> answers(|sent| - 1, sent[|sent| - 1]).Accepted? && last.received > sent[|sent| - 1].offset
      invariant forall c | c in sent :: 0 < |c.bytes| <= created.chunkSize && c.offset < last.received
      invariant last == if sent == [] then created else LastAnswer(answers, sent)
      invariant |sent| <= last.received && |sent| <= totalBytes
      invariant forall c | c in sent :: c.offset < totalBytes
      decreases totalBytes - last.received
    {
      var offset := last.received;
      var bytes := ReadAt(source, offset, created.chunkSize);
      if bytes == [] { break; }
      var chunk := Chunk(offset, bytes);
      assert sent[..|sent|] == sent;
      ContinuesWith(source, totalBytes, created, answers, sent, chunk);
      sent := sent + [chunk];
      match answers(|sent| - 1, chunk) {
        case Threw =>
          ending := Lost;
          return;
        case Accepted(next) =>
          if next.received <= offset {
            ending := NotMoving;
            return;
          }
          last := next;
      }
    }
    ending := if last.status == Complete then Done else NotWhole;
  }

  // ─── the phone ───────────────────────────────────────────────────────────────

  datatype Failure = Network | Refused(mismatch: bool, status: nat) | Unknown

  /** A dropped connection, a stale offset, or a server that is not ready. */
  predicate IsResumable(f: Failure) {
    match f
    case Network => true
    case Refused(mismatch, status) => mismatch || status == 503
    case Unknown => false
  }

  /** What one turn of the loop meets: the PATCH, and when that fails the question where it got to. */
  datatype Turn = Counted(session: Session) | Missed(failure: Failure, asked: Option<Session>)

  datatype Loop = Loop(session: Session, attempt: nat)

  function ChunkAt(source: seq<byte>, s: Session): Chunk
    requires s.received < s.total
  {
    Chunk(s.received, ReadAt(source, s.received, Smaller(s.received + s.chunkSize, s.total) - s.received))
  }

  predicate Going(l: Loop) {
    l.session.status == Active && l.session.received < l.session.total
  }

  /** One turn; no state when it throws. */
  function AfterTurn(l: Loop, turn: Turn, maxAttempts: nat): Option<Loop> {
    match turn
    case Counted(session) => Some(Loop(session, 0))
    case Missed(failure, asked) =>
      if !IsResumable(failure) || l.attempt + 1 >= maxAttempts || asked.None? then None
      else Some(Loop(asked.value, l.attempt + 1))
  }

  /** The state before turn `k`, for as long as the loop goes on. */
  function LoopBefore(k: nat, start: Loop, source: seq<byte>, maxAttempts: nat, answers: (nat, Chunk) -> Turn): Option<Loop> {
    if k == 0 then Some(start)
    else
      match LoopBefore(k - 1, start, source, maxAttempts, answers)
      case None => None
      case Some(l) => if !Going(l) then None else AfterTurn(l, answers(k - 1, ChunkAt(source, l.session)), maxAttempts)
  }

  lemma OneTurnLater(k: nat, start: Loop, source: seq<byte>, maxAttempts: nat, answers: (nat, Chunk) -> Turn, turn: Turn)
    requires match LoopBefore(k, start, source, maxAttempts, answers)
             case Some(l) => Going(l) ==> answers(k, ChunkAt(source, l.session)) == turn
             case None => true
    ensures LoopBefore(k + 1, start, source, maxAttempts, answers) ==
      match LoopBefore(k, start, source, maxAttempts, answers)
      case None => None
      case Some(l) => if !Going(l) then None else AfterTurn(l, turn, maxAttempts)
  {
    hide ChunkAt, AfterTurn;
  }

  lemma AtFirst(start: Loop, source: seq<byte>, maxAttempts: nat, answers: (nat, Chunk) -> Turn)
    ensures LoopBefore(0, start, source, maxAttempts, answers) == Some(start)
  {}

  lemma ChunkIsTruthful(source: seq<byte>, s: Session)
    requires s.received < s.total
    ensures var c := ChunkAt(source, s); c.offset == s.received && (c.bytes == [] || From(source, c.offset, c.bytes))
  {}

  /** A PATCH that succeeds is counted, and the question is not answered with less than was known. */
  predicate Moves(turn: Turn, known: Session) {
    match turn
    case Counted(s) => s.total == known.total && s.received > known.received
    case Missed(_, asked) => asked.Some? ==> asked.value.total == known.total && asked.value.received >= known.received
  }

  /** It is so in every turn the loop comes to. */
  ghost predicate MovesOn(start: Loop, source: seq<byte>, maxAttempts: nat, answers: (nat, Chunk) -> Turn) {
    forall k: nat ::
      match LoopBefore(k, start, source, maxAttempts, answers)
      case Some(l) => Going(l) ==> Moves(answers(k, ChunkAt(source, l.session)), l.session)
      case None => true
  }

  /** `uploadFile`. It ends because each turn brings the server further or uses up an attempt. */
  method UploadFile(source: seq<byte>, created: Session, maxAttempts: nat, answers: (nat, Chunk) -> Turn)
    returns (result: Option<Session>, sent: seq<Chunk>)
    requires MovesOn(Loop(created, 0), source, maxAttempts, answers)
    ensures SentTruthfully(sent, source)
    ensures result.Some? ==> !Going(Loop(result.value, 0))
    ensures result.Some? ==> exists l | LoopBefore(|sent|, Loop(created, 0), source, maxAttempts, answers) == Some(l) :: l.session == result.value
    ensures result.None? ==> LoopBefore(|sent|, Loop(created, 0), source, maxAttempts, answers).None?
  {
    hide LoopBefore, ChunkAt, From;
    var session, attempt := created, 0;
    sent := [];
    AtFirst(Loop(created, 0), source, maxAttempts, answers);
    while session.status == Active && session.received < session.total
      invariant session.total == created.total && SentTruthfully(sent, source)
      invariant attempt == 0 || attempt < maxAttempts
      invariant LoopBefore(|sent|, Loop(created, 0), source, maxAttempts, answers) == Some(Loop(session, attempt))
      decreases session.total - session.received, maxAttempts - attempt
    {
      var chunk := ChunkAt(source, session);
      var turn := answers(|sent|, chunk);
      assert Moves(turn, session);
      OneTurnLater(|sent|, Loop(created, 0), source, maxAttempts, answers, turn);
      ChunkIsTruthful(source, session);
      sent := sent + [chunk];
      match turn {
        case Counted(next) =>
          session := next;
          attempt := 0;
        case Missed(failure, asked) =>
          attempt := attempt + 1;
          if !IsResumable(failure) || attempt >= maxAttempts || asked.None? { return None, sent; }
          session := asked.value;
      }
    }
    result := Some(session);
  }

  /** Where every success is counted, the loop comes to an end. */
  lemma {:induction false} ItEnds(k: nat, start: Loop, source: seq<byte>, maxAttempts: nat, answers: (nat, Chunk) -> Turn) returns (n: nat)
    requires LoopBefore(k, start, source, maxAttempts, answers).Some?
    requires LoopBefore(k, start, source, maxAttempts, answers).value.attempt <= maxAttempts
    requires LoopBefore(k, start, source, maxAttempts, answers).value.session.total == start.session.total
    requires MovesOn(start, source, maxAttempts, answers)
    ensures LoopBefore(n, start, source, maxAttempts, answers).None?
    decreases start.session.total - LoopBefore(k, start, source, maxAttempts, answers).value.session.received,
              maxAttempts - LoopBefore(k, start, source, maxAttempts, answers).value.attempt
  {
    var l := LoopBefore(k, start, source, maxAttempts, answers).value;
    var after := LoopBefore(k + 1, start, source, maxAttempts, answers);
    if after.None? {
      n := k + 1;
    } else {
      n := ItEnds(k + 1, start, source, maxAttempts, answers);
    }
  }

  /** Where a success is not counted it does not: the attempts start over with every one of them. */
  lemma {:induction false} OtherwiseItNeedNot(k: nat, session: Session, source: seq<byte>, maxAttempts: nat, answers: (nat, Chunk) -> Turn)
    requires Going(Loop(session, 0)) && forall i: nat, c: Chunk :: answers(i, c) == Counted(session)
    ensures LoopBefore(k, Loop(session, 0), source, maxAttempts, answers) == Some(Loop(session, 0))
  {
    if k > 0 {
      OtherwiseItNeedNot(k - 1, session, source, maxAttempts, answers);
    }
  }
}
