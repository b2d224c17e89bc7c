/** One upload on the server (`apps/server/src/modules/uploads/sessions.ts`): requests that append to
    the same temporary file at the same time, and the rename that publishes it. */
module Uploads {
  import opened Text

  datatype Status = Active | Complete | Aborted

  /** An `append` that holds the file open: where it began, what it wrote up to, how much of its body it
      has read, and whether it is only draining the rest. */
  datatype Writer = Writer(start: nat, received: nat, read: nat, overflow: bool)

  /** The row, the file behind `temp_path`, and who is at work on them. A rename moves the file, it does
      not copy it, so a writer that still holds it goes on writing to the published one. */
  datatype Upload = Upload(
    status: Status, total: nat, received: nat,
    file: seq<byte>, published: bool, removed: bool,
    writers: map<nat, Writer>, finishing: set<nat>)

  datatype Error = SessionUnknown | OffsetMismatch(received: nat) | TooLarge | Gone

  datatype Reply = Reading | Appended(received: nat) | Finalizing | Published | Failed(error: Error)

  datatype Answer = Answer(upload: Upload, reply: Reply)

  datatype Event =
    | Begin(id: nat, offset: nat, declared: Option<nat>)
    | Arrive(id: nat, bytes: seq<byte>)
    /** The disk took only the first `n` bytes and the write threw. */
    | WriteFails(id: nat, bytes: seq<byte>, n: nat)
    | End(id: nat)
    /** The connection dropped: the count is kept, nothing is answered. */
    | Break(id: nat)
    | Finish(id: nat)
    | Abort

  /** A positional write; past the end of the file the gap reads as zeros. */
  function WriteAt(file: seq<byte>, position: nat, bytes: seq<byte>): (after: seq<byte>)
    ensures |after| == if bytes == [] then |file| else if |file| >= position + |bytes| then |file| else position + |bytes|
  {
    if bytes == [] then file
    else
      var padded := if |file| < position then file + seq(position - |file|, _ => 0) else file;
      padded[..position] + bytes + (if position + |bytes| <= |padded| then padded[position + |bytes|..] else [])
  }

  function BeginOn(u: Upload, id: nat, offset: nat, declared: Option<nat>): Answer {
    if u.status != Active then Answer(u, Failed(SessionUnknown))
    else if offset != u.received then Answer(u, Failed(OffsetMismatch(u.received)))
    else if declared.Some? && offset + declared.value > u.total then Answer(u, Failed(TooLarge))
    else if u.published || u.removed then Answer(u, Failed(Gone))
    else Answer(u.(writers := u.writers[id := Writer(offset, offset, 0, false)]), Reading)
  }

  function ArriveOn(u: Upload, id: nat, bytes: seq<byte>): Upload
    requires id in u.writers
  {
    var w := u.writers[id];
    var seen := w.(read := w.read + |bytes|);
    if bytes == [] then u
    else if w.overflow || w.received + |bytes| > u.total then u.(writers := u.writers[id := seen.(overflow := true)])
    else
      u.(file := WriteAt(u.file, w.received, bytes),
         writers := u.writers[id := seen.(received := w.received + |bytes|)])
  }

  function Persisted(u: Upload, w: Writer): Upload {
    if w.received != w.start then u.(received := w.received) else u
  }

  function WriteFailsOn(u: Upload, id: nat, bytes: seq<byte>, n: nat): Upload
    requires id in u.writers && n <= |bytes|
  {
    var w := u.writers[id];
    if bytes == [] || w.overflow || w.received + |bytes| > u.total then ArriveOn(u, id, bytes)
    else Persisted(u.(file := WriteAt(u.file, w.received, bytes[..n]), writers := u.writers - {id}), w)
  }

  function EndOn(u: Upload, id: nat): Answer
    requires id in u.writers
  {
    var w := u.writers[id];
    var after := Persisted(u.(writers := u.writers - {id}), w);
    if w.overflow then Answer(after, Failed(TooLarge))
    else if after.received >= after.total then Answer(after.(finishing := after.finishing + {id}), Finalizing)
    else Answer(after, Appended(after.received))
  }

  function BreakOn(u: Upload, id: nat): Upload
    requires id in u.writers
  {
    Persisted(u.(writers := u.writers - {id}), u.writers[id])
  }

  /** The rename, and the row that says so. */
  function FinishOn(u: Upload, id: nat): Answer {
    var after := u.(finishing := u.finishing - {id});
    if u.published || u.removed then Answer(after, Failed(Gone))
    else Answer(after.(published := true, status := Complete, received := u.total), Published)
  }

  function AbortOn(u: Upload): Upload {
    if u.status == Complete then u else u.(status := Aborted, removed := u.removed || !u.published)
  }

  predicate Enabled(u: Upload, e: Event) {
    match e
    case Begin(id, _, _) => id !in u.writers && id !in u.finishing
    case Arrive(id, _) => id in u.writers
    case WriteFails(id, bytes, n) => id in u.writers && n <= |bytes|
    case End(id) => id in u.writers
    case Break(id) => id in u.writers
    case Finish(id) => id in u.finishing
    case Abort => true
  }

  function Step(u: Upload, e: Event): Upload
    requires Enabled(u, e)
  {
    match e
    case Begin(id, offset, declared) => BeginOn(u, id, offset, declared).upload
    case Arrive(id, bytes) => ArriveOn(u, id, bytes)
    case WriteFails(id, bytes, n) => WriteFailsOn(u, id, bytes, n)
    case End(id) => EndOn(u, id).upload
    case Break(id) => BreakOn(u, id)
    case Finish(id) => FinishOn(u, id).upload
    case Abort => AbortOn(u)
  }

  function Run(u: Upload, events: seq<Event>): Upload
    decreases |events|
  {
    if events == [] || !Enabled(u, events[0]) then u else Run(Step(u, events[0]), events[1..])
  }

  // ─── clients that send the source ────────────────────────────────────────────

  /** The body of a request that began at `start` is the source from there on. */
  predicate Honest(u: Upload, source: seq<byte>, e: Event) {
    match e
    case Arrive(id, bytes) => id in u.writers ==> From(source, u.writers[id].start + u.writers[id].read, bytes)
    case WriteFails(id, bytes, _) => id in u.writers ==> From(source, u.writers[id].start + u.writers[id].read, bytes)
    case _ => true
  }

  predicate From(source: seq<byte>, position: nat, bytes: seq<byte>) {
    position + |bytes| <= |source| && source[position..position + |bytes|] == bytes
  }

  predicate HonestRun(u: Upload, source: seq<byte>, events: seq<Event>)
    decreases |events|
  {
    events == [] || !Enabled(u, events[0]) || (Honest(u, source, events[0]) && HonestRun(Step(u, events[0]), source, events[1..]))
  }

  /** The file is a prefix of the source, every count is within it, and what is published is whole. */
  predicate Sound(u: Upload, source: seq<byte>) {
    && u.total == |source|
    && u.file <= source
    && u.received <= |u.file|
    && (forall id | id in u.writers :: Within(u.writers[id], |u.file|))
    && (u.finishing != {} || u.published ==> u.file == source)
  }

  predicate Within(w: Writer, size: nat) {
    w.start <= w.received == w.start + w.read <= size && !w.overflow
  }

  /** Writing the source's own bytes at a place within the file leaves a prefix of the source. */
  lemma WritingTheSource(file: seq<byte>, position: nat, bytes: seq<byte>, source: seq<byte>)
    requires file <= source && position <= |file| && From(source, position, bytes)
    ensures WriteAt(file, position, bytes) <= source && |file| <= |WriteAt(file, position, bytes)|
    ensures position + |bytes| <= |WriteAt(file, position, bytes)|
    ensures file == source ==> WriteAt(file, position, bytes) == source
  {
    var after := WriteAt(file, position, bytes);
    if bytes != [] {
      forall i | 0 <= i < |after| ensures after[i] == source[i] {
        if position <= i < position + |bytes| {
          assert source[i] == source[position..position + |bytes|][i - position];
        }
      }
    }
  }

  lemma ArriveKeeps(u: Upload, source: seq<byte>, id: nat, bytes: seq<byte>)
    requires Sound(u, source) && id in u.writers && From(source, u.writers[id].start + u.writers[id].read, bytes)
    ensures Sound(ArriveOn(u, id, bytes), source)
  {
    WritingTheSource(u.file, u.writers[id].received, bytes, source);
    hide WriteAt, From;
  }

  lemma WriteFailsKeeps(u: Upload, source: seq<byte>, id: nat, bytes: seq<byte>, n: nat)
    requires Sound(u, source) && id in u.writers && n <= |bytes| && From(source, u.writers[id].start + u.writers[id].read, bytes)
    ensures Sound(WriteFailsOn(u, id, bytes, n), source)
  {
    var at := u.writers[id].received;
    assert source[at..at + n] == source[at..at + |bytes|][..n];
    WritingTheSource(u.file, at, bytes[..n], source);
    hide WriteAt;
  }

  lemma StepKeeps(u: Upload, source: seq<byte>, e: Event)
    requires Sound(u, source) && Enabled(u, e) && Honest(u, source, e)
    ensures Sound(Step(u, e), source)
  {
    match e {
      case Arrive(id, bytes) => ArriveKeeps(u, source, id, bytes);
      case WriteFails(id, bytes, n) => WriteFailsKeeps(u, source, id, bytes, n);
      case _ =>
    }
    hide WriteAt, From;
  }

  /** However requests overlap, break off and are repeated, what the server has counted is a prefix of
      the source, and a file that is published is the source. */
  lemma {:induction false} EveryRunKeepsThePrefix(u: Upload, source: seq<byte>, events: seq<Event>)
    requires Sound(u, source) && HonestRun(u, source, events)
    ensures Sound(Run(u, events), source)
    ensures Run(u, events).received <= |Run(u, events).file|
         && Run(u, events).file[..Run(u, events).received] == source[..Run(u, events).received]
    ensures Run(u, events).published ==> Run(u, events).file == source
    decreases |events|
  {
    hide Step, Enabled, Honest;
    if events != [] && Enabled(u, events[0]) {
      StepKeeps(u, source, events[0]);
      EveryRunKeepsThePrefix(Step(u, events[0]), source, events[1..]);
    }
  }

  function Created(total: nat): Upload {
    Upload(Active, total, 0, [], false, false, map[], {})
  }

  lemma CreatedIsSound(source: seq<byte>)
    ensures Sound(Created(|source|), source)
  {}

  /** A count that goes down, as when a slower copy of a chunk ends last, loses no byte: the file keeps
      what it has. */
  lemma {:induction false} TheFileNeverShrinks(u: Upload, source: seq<byte>, events: seq<Event>)
    requires Sound(u, source) && HonestRun(u, source, events)
    ensures u.file <= Run(u, events).file
    decreases |events|
  {
    hide Step, Enabled, Honest;
    if events != [] && Enabled(u, events[0]) {
      StepKeeps(u, source, events[0]);
      StepGrows(u, source, events[0]);
      TheFileNeverShrinks(Step(u, events[0]), source, events[1..]);
    }
  }

  lemma GrownPrefix(a: seq<byte>, b: seq<byte>, source: seq<byte>)
    ensures a <= source && b <= source && |a| <= |b| ==> a <= b
  {}

  lemma StepGrows(u: Upload, source: seq<byte>, e: Event)
    requires Sound(u, source) && Enabled(u, e) && Honest(u, source, e)
    ensures u.file <= Step(u, e).file
  {
    match e {
      case Arrive(id, bytes) => WrittenGrows(u.file, u.writers[id].received, bytes, |bytes|, source);
      case WriteFails(id, bytes, n) =>
        WrittenGrows(u.file, u.writers[id].received, bytes, n, source);
        WrittenGrows(u.file, u.writers[id].received, bytes, |bytes|, source);
      case _ =>
    }
    hide WriteAt, From, Within, Sound;
  }

  lemma WrittenGrows(file: seq<byte>, position: nat, bytes: seq<byte>, n: nat, source: seq<byte>)
    requires file <= source && position <= |file| && From(source, position, bytes) && n <= |bytes|
    ensures file <= WriteAt(file, position, bytes[..n])
    ensures bytes[..|bytes|] == bytes
  {
    assert source[position..position + n] == source[position..position + |bytes|][..n];
    WritingTheSource(file, position, bytes[..n], source);
    GrownPrefix(file, WriteAt(file, position, bytes[..n]), source);
    hide WriteAt;
  }
}
