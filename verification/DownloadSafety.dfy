/** What every run of the download queue keeps, how one attempt ends against the Range endpoint, and
    where the guarantees end. */
module DownloadSafety {
  import opened Text
  import opened HttpRange
  import opened Downloads

  // ─── every run ───────────────────────────────────────────────────────────────

  lemma StepKeeps(lib: Library, s: State, e: Event)
    requires Invariant(lib, s) && Admissible(lib, s, e)
    ensures Invariant(lib, Step(s, e))
  {
    match e
    case Enqueue(id, file, total, candidates, fallback) =>
      EnqueueKeeps(lib, s, id, file, total, DestinationFor(s, candidates, fallback));
    case Pause(id) => PauseKeeps(lib, s, id);
    case Resume(id) => ResumeKeeps(lib, s, id);
    case Cancel(id) => CancelKeeps(lib, s, id);
    case Respond(id, response) =>
      if id in s.running && id in s.jobs && s.running[id].phase.Opening? {
        RespondKeeps(lib, s, id, response);
      }
    case Receive(id, n, reported) =>
      if id in s.running && id in s.jobs && s.running[id].phase.Reading? && n <= |s.running[id].phase.body| {
        ReceiveKeeps(lib, s, id, n, reported);
      }
    case EndOfBody(id) =>
      if id in s.running && id in s.jobs && s.running[id].phase.Reading? {
        EndKeeps(lib, s, id);
      }
    case Break(id, n, byCaller) =>
      if id in s.running && id in s.jobs {
        BreakKeeps(lib, s, id, n, byCaller);
      }
    case SaveBegins => SavingKeeps(lib, s);
    case SaveLands => SavingKeeps(lib, s);
    case SaveFails => SavingKeeps(lib, s);
    case Restart(kept, readable) => RestartKeeps(lib, s, kept, readable);
  }

  /** Every run: starts, pauses, cut streams, wrong slices, refusals, lost writes of the state file,
      crashes and restarts from whatever it held, in any order, keep every partial file a prefix of
      its source, every finished file equal to it, and the queue, the slots and the destinations
      consistent. The four events the code does not guard are admitted exactly where they are
      harmless, as the four lemmas named `KeepsExactlyWhen` below say. */
  lemma {:induction false} EveryRunKeeps(lib: Library, s: State, events: seq<Event>)
    requires Invariant(lib, s) && AdmissibleRun(lib, s, events)
    ensures Invariant(lib, Run(s, events))
    decreases |events|
  {
    if events != [] {
      StepKeeps(lib, s, events[0]);
      EveryRunKeeps(lib, Step(s, events[0]), events[1..]);
    }
  }

  /** After any admissible run of a fresh app, a row that says `done` names a file that equals the
      source byte for byte, and a row that can be resumed has a true prefix of it on disk. */
  lemma FinishedFilesAreWhole(lib: Library, files: Files, concurrency: nat, events: seq<Event>, id: JobId)
    requires AdmissibleRun(lib, Fresh(files, concurrency), events)
    requires id in Run(Fresh(files, concurrency), events).jobs
    ensures var s := Run(Fresh(files, concurrency), events);
            var job := s.jobs[id];
            && (job.status == Done ==>
                  job.file in lib && job.destination in s.files && s.files[job.destination] == lib[job.file])
            && (job.Live() && PartPath(job.destination) in s.files ==>
                  job.file in lib && s.files[PartPath(job.destination)] <= lib[job.file])
  {
    var s0 := Fresh(files, concurrency);
    assert Invariant(lib, s0) by {
      hide PartPath;
    }
    EveryRunKeeps(lib, s0, events);
    assert JobOk(lib, Run(s0, events).files, Run(s0, events).jobs[id]);
  }

  // ─── one uninterrupted attempt reaches the end ───────────────────────────────

  lemma {:induction false} PumpTouchesOnlyTheQueue(s: State, id: JobId)
    requires id in s.jobs && s.jobs[id].status != Queued
    ensures Pump(s).files == s.files
    ensures id in Pump(s).jobs && Pump(s).jobs[id] == s.jobs[id]
    decreases |s.queue|
  {
    if |s.running| < s.concurrency && s.queue != [] {
      var next := s.queue[0];
      var rest := s.(queue := s.queue[1..]);
      if next in s.jobs && s.jobs[next].status == Queued {
        PumpTouchesOnlyTheQueue(Start(rest, next), id);
      } else {
        PumpTouchesOnlyTheQueue(rest, id);
      }
    }
  }

  /** The request `#transfer` makes: open-ended from the bytes it has, none when it has none. */
  function AttemptRequest(offset: nat): Request {
    Request(GET, if offset > 0 then Some(OpenEndedRange(offset)) else None, false, FullAccess, Attachment)
  }

  function AsResponse(reply: Reply): Response {
    match reply
    case Sent(status, contentRange, contentLength, body) =>
      Response(status, contentRange, Some(contentLength), Some(body))
    case NotSatisfiable(contentRange) => Response(416, Some(contentRange), None, Some([]))
    case DownloadNotAllowed => Response(403, None, None, Some([]))
    case NotFound => Response(404, None, None, Some([]))
    case BadRequest => Response(400, None, None, Some([]))
  }

  /** What the endpoint answers an attempt that holds `offset` bytes of `content`. */
  lemma AttemptAnswer(content: seq<byte>, offset: nat)
    requires offset <= |content| <= MAX_SAFE_INTEGER
    ensures var response := AsResponse(Answer(AttemptRequest(offset), Regular(content)));
            if offset == 0 then
              && response.status == 200 && response.body == Some(content)
              && SizeFromHeaders(response.contentRange, response.contentLength, 0) == Some(|content|)
            else if offset < |content| then
              && response.status == 206 && response.body == Some(content[offset..])
              && StartFromContentRange(response.contentRange) == Some(offset)
              && SizeFromHeaders(response.contentRange, response.contentLength, offset) == Some(|content|)
            else response.status == 416 && TotalFromContentRange(response.contentRange) == Some(offset)
  {
    hide *;
    if offset == 0 {
      FirstAttemptAnswer(content);
    } else if offset < |content| {
      ResumedAttemptAnswer(content, offset);
    } else {
      CompleteAttemptAnswer(content);
    }
  }

  lemma FirstAttemptAnswer(content: seq<byte>)
    ensures var response := AsResponse(Answer(AttemptRequest(0), Regular(content)));
            && response.status == 200 && response.body == Some(content)
            && SizeFromHeaders(response.contentRange, response.contentLength, 0) == Some(|content|)
  {
    SizeIsAlwaysKnown(AttemptRequest(0), content);
    assert ParseRangeHeader(None, |content|) == NoRange;
    hide ParseRangeHeader, SizeFromHeaders, Decimal;
  }

  lemma ResumedAttemptAnswer(content: seq<byte>, offset: nat)
    requires 0 < offset < |content| <= MAX_SAFE_INTEGER
    ensures var response := AsResponse(Answer(AttemptRequest(offset), Regular(content)));
            && response.status == 206 && response.body == Some(content[offset..])
            && StartFromContentRange(response.contentRange) == Some(offset)
            && SizeFromHeaders(response.contentRange, response.contentLength, offset) == Some(|content|)
  {
    hide ParseRangeHeader, OpenEndedRange, SizeFromHeaders, StartFromContentRange, TotalFromContentRange, ContentRange, Answer, Decimal;
    OpenEndedHeader(offset, |content|);
    RangeAnswer(AttemptRequest(offset), content, offset, |content| - 1);
    SizeIsAlwaysKnown(AttemptRequest(offset), content);
    ContentRangeRoundTrip(offset, |content| - 1, |content|);
    assert content[offset..|content|] == content[offset..];
  }

  lemma CompleteAttemptAnswer(content: seq<byte>)
    requires 0 < |content| <= MAX_SAFE_INTEGER
    ensures var response := AsResponse(Answer(AttemptRequest(|content|), Regular(content)));
            response.status == 416 && TotalFromContentRange(response.contentRange) == Some(|content|)
  {
    hide ParseRangeHeader, OpenEndedRange, TotalFromContentRange, UnsatisfiedRange;
    OpenEndedHeader(|content|, |content|);
    UnsatisfiedRangeRoundTrip(|content|);
  }

  function Reads(id: JobId, sizes: seq<nat>): seq<Event> {
    if sizes == [] then [EndOfBody(id)] else [Receive(id, sizes[0], true)] + Reads(id, sizes[1..])
  }

  function Sum(sizes: seq<nat>): nat {
    if sizes == [] then 0 else sizes[0] + Sum(sizes[1..])
  }

  ghost predicate Complete(s: State, id: JobId, destination: Path, content: seq<byte>) {
    && id in s.jobs && s.jobs[id].status == Done && s.jobs[id].destination == destination
    && destination in s.files && s.files[destination] == content
  }

  lemma FinishCompletes(s: State, id: JobId, size: nat, content: seq<byte>)
    requires id in s.running && id in s.jobs
    requires PartPath(s.jobs[id].destination) in s.files && s.files[PartPath(s.jobs[id].destination)] == content
    ensures Complete(Finish(s, id, size), id, s.jobs[id].destination, content)
  {
    var job := s.jobs[id];
    var part := PartPath(job.destination);
    assert |part| > |job.destination|;
    hide PartPath;
    var done := job.(status := Done, receivedBytes := size, totalBytes := Some(size));
    var s' := s.(files := Without(s.files[job.destination := s.files[part]], part),
                 jobs := s.jobs[id := done], running := s.running - {id});
    PumpTouchesOnlyTheQueue(s', id);
  }

  /** However the network cuts the body up, reading all of it renames the source into place. */
  lemma {:induction false} ReadingCompletes(s: State, id: JobId, content: seq<byte>, sizes: seq<nat>)
    requires id in s.running && id in s.jobs && s.running[id].phase.Reading?
    requires var phase := s.running[id].phase;
             var part := PartPath(s.jobs[id].destination);
             && part in s.files && s.files[part] + phase.body == content
             && phase.written == |s.files[part]| && phase.total == Some(|content|)
             && Sum(sizes) == |phase.body|
    ensures Complete(Run(s, Reads(id, sizes)), id, s.jobs[id].destination, content)
    decreases |sizes|
  {
    var phase := s.running[id].phase;
    var part := PartPath(s.jobs[id].destination);
    hide PartPath;
    if sizes == [] {
      assert s.files[part] == content;
      FinishCompletes(s, id, |content|, content);
      assert Run(Step(s, EndOfBody(id)), []) == EndBody(s, id);
      assert Reads(id, sizes)[1..] == [];
    } else {
      var s' := Step(s, Receive(id, sizes[0], true));
      assert s.files[part] + phase.body[..sizes[0]] + phase.body[sizes[0]..] == content;
      ReadingCompletes(s', id, content, sizes[1..]);
      assert Reads(id, sizes)[1..] == Reads(id, sizes[1..]);
    }
  }

  /** From any proper prefix of the source on disk, one uninterrupted attempt against the Range
      endpoint ends in `done` with the source in place, however the body is cut into reads. */
  lemma AttemptCompletes(s: State, id: JobId, content: seq<byte>, sizes: seq<nat>)
    requires id in s.running && id in s.jobs
    requires var part := PartPath(s.jobs[id].destination);
             && (part in s.files ==> s.files[part] <= content)
             && s.running[id].phase == Opening(BytesOnDisk(s.files, part))
             && (BytesOnDisk(s.files, part) < |content| || |content| == 0)
             && Sum(sizes) == |content| - BytesOnDisk(s.files, part)
    requires |content| <= MAX_SAFE_INTEGER
    ensures var offset := s.running[id].phase.offset;
            var answer := AsResponse(Answer(AttemptRequest(offset), Regular(content)));
            Complete(Run(s, [Respond(id, answer)] + Reads(id, sizes)), id, s.jobs[id].destination, content)
  {
    hide PartPath, Answer, AsResponse, AttemptRequest, SizeFromHeaders, StartFromContentRange, TotalFromContentRange, Complete, Run, Reads, Sum;
    var offset := s.running[id].phase.offset;
    var part := PartPath(s.jobs[id].destination);
    var start := if offset > 0 then s.files[part] else [];
    assert |start| == offset && start <= content && |content| - offset == Sum(sizes);
    AttemptAnswer(content, offset);
    AnswerCompletes(s, id, AsResponse(Answer(AttemptRequest(offset), Regular(content))), content, start, sizes);
  }

  lemma AnswerCompletes(s: State, id: JobId, response: Response, content: seq<byte>, start: seq<byte>, sizes: seq<nat>)
    requires id in s.running && id in s.jobs && s.running[id].phase == Opening(|start|)
    requires start != [] ==> PartPath(s.jobs[id].destination) in s.files && s.files[PartPath(s.jobs[id].destination)] == start
    requires start <= content && response.body == Some(content[|start|..]) && Sum(sizes) == |content| - |start|
    requires if start == [] then response.status == 200
             else response.status == 206 && StartFromContentRange(response.contentRange) == Some(|start|)
    requires SizeFromHeaders(response.contentRange, response.contentLength, |start|) == Some(|content|)
    ensures Complete(Run(s, [Respond(id, response)] + Reads(id, sizes)), id, s.jobs[id].destination, content)
  {
    AnswerStartsReading(s, id, response, content, start);
    assert Step(s, Respond(id, response)) == RespondTo(s, id, response);
    hide *;
    assert start + content[|start|..] == content;
    ReadingCompletes(RespondTo(s, id, response), id, content, sizes);
    FirstOfRun(s, Respond(id, response), Reads(id, sizes));
  }

  lemma FirstOfRun(s: State, e: Event, rest: seq<Event>)
    ensures Run(s, [e] + rest) == Run(Step(s, e), rest)
  {
    hide Step;
    assert ([e] + rest)[1..] == rest;
  }

  /** An answer that begins where the partial file ends puts the transfer in the read loop. */
  lemma AnswerStartsReading(s: State, id: JobId, response: Response, content: seq<byte>, start: seq<byte>)
    requires id in s.running && id in s.jobs && s.running[id].phase == Opening(|start|)
    requires start != [] ==> PartPath(s.jobs[id].destination) in s.files && s.files[PartPath(s.jobs[id].destination)] == start
    requires start <= content && response.body == Some(content[|start|..])
    requires if start == [] then response.status == 200
             else response.status == 206 && StartFromContentRange(response.contentRange) == Some(|start|)
    requires SizeFromHeaders(response.contentRange, response.contentLength, |start|) == Some(|content|)
    ensures var s' := RespondTo(s, id, response);
      && id in s'.running && id in s'.jobs && s'.running[id].phase == Reading(|start|, Some(|content|), content[|start|..])
      && s'.jobs[id].destination == s.jobs[id].destination
      && PartPath(s.jobs[id].destination) in s'.files && s'.files[PartPath(s.jobs[id].destination)] == start
  {
    hide PartPath, SizeFromHeaders, StartFromContentRange, TotalFromContentRange;
  }

  /** When every byte is already there, the refusal of the range is the end of the transfer. */
  lemma CompletePartialFileFinishes(s: State, id: JobId, content: seq<byte>)
    requires id in s.running && id in s.jobs
    requires var part := PartPath(s.jobs[id].destination);
             part in s.files && s.files[part] == content && s.running[id].phase == Opening(|content|)
    requires 0 < |content| <= MAX_SAFE_INTEGER
    ensures var answer := AsResponse(Answer(AttemptRequest(|content|), Regular(content)));
            Complete(Step(s, Respond(id, answer)), id, s.jobs[id].destination, content)
  {
    AttemptAnswer(content, |content|);
    FinishCompletes(s, id, |content|, content);
  }

  // ─── where the guarantee ends ────────────────────────────────────────────────

  lemma {:induction false} PumpKeepsPlaces(s: State, id: JobId)
    requires id in s.jobs
    ensures Pump(s).files == s.files
    ensures id in Pump(s).jobs && Pump(s).jobs[id].destination == s.jobs[id].destination
    ensures Pump(s).jobs[id].file == s.jobs[id].file
    ensures Pump(s).jobs[id].Live() <==> s.jobs[id].Live()
    decreases |s.queue|
  {
    hide PartPath;
    if |s.running| < s.concurrency && s.queue != [] {
      var next := s.queue[0];
      var rest := s.(queue := s.queue[1..]);
      if next in s.jobs && s.jobs[next].status == Queued {
        PumpKeepsPlaces(Start(rest, next), id);
      } else {
        PumpKeepsPlaces(rest, id);
      }
    }
  }

  /** What the invariant says of row `id` once it has joined the queue. */
  lemma QueuedNeedsItsFiles(lib: Library, s: State, s': State, id: JobId)
    requires id in s'.jobs && s'.jobs[id].Live() && s' == s.(jobs := s.jobs[id := s'.jobs[id]], queue := s'.queue)
    requires Invariant(lib, Pump(s'))
    ensures Claimable(lib, s, id, s'.jobs[id].file, s'.jobs[id].destination)
  {
    hide PartPath, QueueOk, PhaseOk, SavedOk, Apart, Pump;
    PumpKeepsPlaces(s', id);
    assert JobOk(lib, Pump(s').files, Pump(s').jobs[id]);
    forall other | other in s.jobs && other != id && s.jobs[other].Live()
      ensures Apart(s.jobs[other].destination, s'.jobs[id].destination)
    {
      PumpKeepsPlaces(s', other);
    }
  }

  /** A new row is safe exactly when its two files meet nobody's and no foreign bytes lie at its
      partial path; the code asks less. */
  lemma EnqueueKeepsExactlyWhenClaimable(lib: Library, s: State, id: JobId, file: FileKey, total: Option<nat>, destination: Path)
    requires Invariant(lib, s) && id !in s.jobs
    ensures Invariant(lib, EnqueueJob(s, id, file, total, destination)) <==> Claimable(lib, s, id, file, destination)
  {
    if Claimable(lib, s, id, file, destination) {
      EnqueueKeeps(lib, s, id, file, total, destination);
    }
    var s' := s.(jobs := s.jobs[id := Job(file, destination, 0, total, Queued)], queue := s.queue + [id]);
    hide *;
    if Invariant(lib, EnqueueJob(s, id, file, total, destination)) {
      QueuedNeedsItsFiles(lib, s, s', id);
    }
  }

  /** What `#destinationFor` leaves unasked: whether the name is the partial name of a live row, or
      a live row is named like its partial file. */
  lemma FreeIsClaimableExactlyWhenUnsuffixed(lib: Library, s: State, id: JobId, file: FileKey, destination: Path)
    requires Free(s, destination) && id !in s.jobs
    ensures Claimable(lib, s, id, file, destination) <==>
      forall other | other in s.jobs && s.jobs[other].Live() ::
        PartPath(s.jobs[other].destination) != destination && s.jobs[other].destination != PartPath(destination)
  {
    hide PartPath;
    forall other | other in s.jobs && s.jobs[other].Live() ensures s.jobs[other].destination != destination {
      assert Free(s, destination);
    }
  }

  /** `resume` brings a cancelled row back without asking who has its destination now: that is
      harmless exactly when it could be claimed anew. */
  lemma ResumeKeepsExactlyWhenClaimable(lib: Library, s: State, id: JobId)
    requires Invariant(lib, s) && id in s.jobs && s.jobs[id].status == Cancelled
    ensures Invariant(lib, ResumeJob(s, id)) <==> Claimable(lib, s, id, s.jobs[id].file, s.jobs[id].destination)
  {
    if Claimable(lib, s, id, s.jobs[id].file, s.jobs[id].destination) {
      ResumeKeeps(lib, s, id);
    }
    var row := s.jobs[id].(status := Queued, receivedBytes := BytesOnDisk(s.files, PartPath(s.jobs[id].destination)));
    var s' := s.(jobs := s.jobs[id := row], queue := s.queue + [id]);
    hide *;
    if Invariant(lib, ResumeJob(s, id)) {
      QueuedNeedsItsFiles(lib, s, s', id);
    }
  }

  /** `cancel` on a row that was cancelled before unlinks its partial path once more: that is
      harmless exactly when no transfer in flight has bytes there and no finished file is it. */
  lemma CancelKeepsExactlyWhenHarmless(lib: Library, s: State, id: JobId)
    requires Invariant(lib, s)
    ensures Invariant(lib, CancelJob(s, id)) <==> HarmlessToCancel(s, id)
  {
    if HarmlessToCancel(s, id) {
      CancelKeeps(lib, s, id);
    } else {
      var d := s.jobs[id].destination;
      var other :| other in s.jobs && other != id && s.jobs[other].Live() && !Spared(s, d, other);
      CancelledUnderneath(lib, s, id, other);
    }
  }

  lemma CancelledUnderneath(lib: Library, s: State, id: JobId, other: JobId)
    requires id in s.jobs && id !in s.running
    requires other in s.jobs && other != id && !Spared(s, s.jobs[id].destination, other)
    ensures !Invariant(lib, CancelJob(s, id))
  {
    hide PartPath, QueueOk, SavedOk, DisjointFiles, Filter;
    var s' := CancelJob(s, id);
    assert PartPath(s.jobs[id].destination) !in s'.files && s'.jobs[other] == s.jobs[other] && s'.running == s.running;
    assert !JobOk(lib, s'.files, s'.jobs[other])
        || (other in s'.running && !PhaseOk(lib, s'.files, s'.jobs[other], s'.running[other].phase));
  }

  /** A restart is safe exactly when the rows the state file still shows, but the app had given up
      or lost, are true of what the disk holds. The rows it still had need no proviso. */
  lemma RestartKeepsExactlyWhenStaleRowsFit(lib: Library, s: State, kept: map<Path, nat>)
    requires Invariant(lib, s) && KeptOf(s, kept)
    ensures Invariant(lib, RestartFrom(s, kept, true)) <==> StaleRowsFit(lib, s, Flushed(s.files, kept))
  {
    var s' := RestartFrom(s, kept, true);
    if StaleRowsFit(lib, s, s'.files) {
      RestartKeeps(lib, s, kept, true);
    }
    hide PartPath, QueueOk, PhaseOk, SavedOk, DisjointFiles, Flushed, PartFits, Whole, KeptOf;
    if Invariant(lib, s') {
      forall id | id in s.saved && s.saved[id].Live()
        ensures PartFits(lib, s'.files, s.saved[id].file, s.saved[id].destination)
        ensures s.saved[id].status == Done ==> Whole(lib, s'.files, s.saved[id])
      {
        assert JobOk(lib, s'.files, s'.jobs[id]);
        RestoredIsWhole(lib, s'.files, s.saved[id]);
      }
    }
  }

  lemma RestoredIsWhole(lib: Library, files: Files, row: Job)
    ensures Whole(lib, files, Restored(row, files)) <==> Whole(lib, files, row)
  {}

  /** Without looking at a byte: no row the app had given up has anything at its partial path, and
      none of them is shown as finished. */
  lemma RestartKeepsWithoutLeftovers(lib: Library, s: State, kept: map<Path, nat>)
    requires Invariant(lib, s) && KeptOf(s, kept)
    requires forall id | id in s.saved && s.saved[id].Live() && !HeldLive(s, id) ::
               PartPath(s.saved[id].destination) !in s.files && s.saved[id].status != Done
    requires forall id | id in s.saved && s.saved[id].status == Done :: HeldDone(s, id)
    ensures Invariant(lib, RestartFrom(s, kept, true))
  {
    RestartKeepsExactlyWhenStaleRowsFit(lib, s, kept);
    hide PartPath, Invariant, KeptOf, RestartFrom;
  }

  /** An answer that names no size is finished wherever it stops: the destination equals the
      source exactly when nothing was missing. The Range endpoint always names one. */
  lemma UnsizedAnswerIsTakenAtItsWord(s: State, id: JobId, content: seq<byte>)
    requires id in s.running && id in s.jobs && s.running[id].phase.Reading?
    requires s.running[id].phase.total == None
    requires var part := PartPath(s.jobs[id].destination);
             part in s.files && s.files[part] <= content
    ensures var s' := EndBody(s, id);
            && id in s'.jobs && s'.jobs[id].status == Done
            && s.jobs[id].destination in s'.files
            && (s'.files[s.jobs[id].destination] == content
                <==> |s.files[PartPath(s.jobs[id].destination)]| == |content|)
  {
    var part := PartPath(s.jobs[id].destination);
    FinishCompletes(s, id, s.running[id].phase.written, s.files[part]);
  }

  lemma EnqueueStartsAtOnce(s: State, b: JobId, file: FileKey, d: Path)
    requires b !in s.jobs && s.queue == [] && |s.running| < s.concurrency && PartPath(d) !in s.files
    ensures EnqueueJob(s, b, file, None, d)
         == s.(jobs := s.jobs[b := Job(file, d, 0, None, Downloading)],
               running := s.running[b := Running(Opening(0), false, false)])
  {
    hide PartPath;
    var s' := s.(jobs := s.jobs[b := Job(file, d, 0, None, Queued)], queue := s.queue + [b]);
    assert s'.queue[0] == b && s'.queue[1..] == [];
    var started := Start(s'.(queue := []), b);
    assert Pump(started) == started;
    assert s'.jobs[b := Job(file, d, 0, None, Downloading)] == s.jobs[b := Job(file, d, 0, None, Downloading)];
  }

  /** A whole file that arrives in one read, with no row waiting for the slot it leaves. */
  lemma WholeAnswerFinishes(s: State, b: JobId, content: seq<byte>, response: Response)
    requires b in s.running && b in s.jobs && s.running[b].phase == Opening(0) && s.queue == []
    requires response.status == 200 && response.body == Some(content)
    requires SizeFromHeaders(response.contentRange, response.contentLength, 0) == Some(|content|)
    ensures var s' := Run(s, [Respond(b, response), Receive(b, |content|, false), EndOfBody(b)]);
            && Complete(s', b, s.jobs[b].destination, content)
            && s'.running == s.running - {b} && s'.queue == []
            && forall a | a in s.jobs && a != b :: a in s'.jobs && s'.jobs[a] == s.jobs[a]
  {
    hide PartPath, SizeFromHeaders;
    var part := PartPath(s.jobs[b].destination);
    var s2 := Step(s, Respond(b, response));
    assert s2.files[part] == [] && s2.running[b].phase == Reading(0, Some(|content|), content);
    assert s2.running == s.running[b := s2.running[b]] && s2.queue == [];
    var s3 := Step(s2, Receive(b, |content|, false));
    assert [] + content[..|content|] == content;
    assert s3.running == s2.running[b := s3.running[b]] && s3.running[b].phase.written == |content|;
    FinishCompletes(s3, b, |content|, content);
    assert s3.running - {b} == s.running - {b};
    assert Run(s, [Respond(b, response), Receive(b, |content|, false), EndOfBody(b)])
        == Run(s2, [Receive(b, |content|, false), EndOfBody(b)])
        == Run(s3, [EndOfBody(b)]) == Run(EndBody(s3, b), []);
  }

  /** Two names that meet. Row `a` is about to write its partial file; nothing is there yet, so the
      same path is free for row `b` as a destination, and `b` finishes there. The first answer to
      `a` then truncates the finished file of `b`. */
  lemma PartSuffixedNameCollides(s: State, a: JobId, b: JobId, file: FileKey, ofA: Response, ofB: Response)
    requires a in s.running && a in s.jobs && s.running[a].phase == Opening(0)
    requires b !in s.jobs && s.queue == [] && |s.running| < s.concurrency
    requires Free(s, PartPath(s.jobs[a].destination))
    requires forall r | r in {ofA, ofB} :: r.status == 200 && r.body.Some?
               && SizeFromHeaders(r.contentRange, r.contentLength, 0) == Some(|r.body.value|)
    requires ofB.body != Some([])
    ensures var d := PartPath(s.jobs[a].destination);
            var s1 := Step(s, Enqueue(b, file, None, [d], d));
            var s2 := Run(s1, [Respond(b, ofB), Receive(b, |ofB.body.value|, false), EndOfBody(b)]);
            Complete(s2, b, d, ofB.body.value) && !Complete(Step(s2, Respond(a, ofA)), b, d, ofB.body.value)
  {
    var d := PartPath(s.jobs[a].destination);
    assert ofA in {ofA, ofB} && ofB in {ofA, ofB};
    hide PartPath, SizeFromHeaders, Run;
    EnqueueStartsAtOnce(s, b, file, d);
    var s1 := Step(s, Enqueue(b, file, None, [d], d));
    WholeAnswerFinishes(s1, b, ofB.body.value, ofB);
    var s2 := Run(s1, [Respond(b, ofB), Receive(b, |ofB.body.value|, false), EndOfBody(b)]);
    assert a in s2.running && s2.running[a] == s.running[a];
    hide Complete, Step;
    FirstAnswerTruncates(s2, a, ofA);
    StillComplete(Step(s2, Respond(a, ofA)), b, d, ofB.body.value);
  }

  /** A whole answer to a transfer that held nothing opens its partial file for writing from the start. */
  lemma FirstAnswerTruncates(s: State, a: JobId, response: Response)
    requires a in s.running && a in s.jobs && s.running[a].phase == Opening(0)
    requires response.status == 200 && response.body.Some?
    requires SizeFromHeaders(response.contentRange, response.contentLength, 0) == Some(|response.body.value|)
    ensures var d := PartPath(s.jobs[a].destination);
      var after := Step(s, Respond(a, response)); d in after.files && after.files[d] == []
  {
    hide PartPath, SizeFromHeaders;
  }

  lemma StillComplete(s: State, b: JobId, d: Path, content: seq<byte>)
    ensures d in s.files && s.files[d] != content ==> !Complete(s, b, d, content)
  {}

  /** One read of everything that is missing, and the end of it, from an answer that begins at
      `offset`: whatever lies at the partial path then is what the row ends up with. */
  lemma RestOfBodyFinishes(s: State, b: JobId, offset: nat, content: seq<byte>, response: Response, held: seq<byte>)
    requires b in s.running && b in s.jobs && s.running[b].phase == Opening(offset) && 0 < offset <= |content|
    requires response.status == 206 && response.body == Some(content[offset..])
    requires StartFromContentRange(response.contentRange) == Some(offset)
    requires SizeFromHeaders(response.contentRange, response.contentLength, offset) == Some(|content|)
    requires held == if PartPath(s.jobs[b].destination) in s.files then s.files[PartPath(s.jobs[b].destination)] else []
    ensures Complete(Run(s, [Respond(b, response), Receive(b, |content| - offset, false), EndOfBody(b)]),
                     b, s.jobs[b].destination, held + content[offset..])
  {
    hide PartPath, SizeFromHeaders, StartFromContentRange, TotalFromContentRange, Finish, Complete;
    var part := PartPath(s.jobs[b].destination);
    var s2 := Step(s, Respond(b, response));
    assert s2.files[part] == held && s2.running[b].phase == Reading(offset, Some(|content|), content[offset..]);
    var s3 := Step(s2, Receive(b, |content| - offset, false));
    assert content[offset..][..|content| - offset] == content[offset..];
    assert s3.files[part] == held + content[offset..] && s3.running[b].phase.written == |content|;
    FinishCompletes(s3, b, |content|, held + content[offset..]);
    assert Run(s, [Respond(b, response), Receive(b, |content| - offset, false), EndOfBody(b)])
        == Run(s2, [Receive(b, |content| - offset, false), EndOfBody(b)])
        == Run(s3, [EndOfBody(b)]) == Run(EndBody(s3, b), []);
  }

  /** Cancelling a cancelled row twice. Row `a` was cancelled and its destination went to `b`, which
      is asking for the rest of its file; the second cancel of `a` unlinks what `b` has, and a
      truthful answer then makes `b` finish with only the rest. */
  lemma SecondCancelLosesTheStart(s: State, a: JobId, b: JobId, content: seq<byte>, response: Response)
    requires a in s.jobs && s.jobs[a].status == Cancelled && a !in s.running
    requires b in s.running && b in s.jobs && b != a && s.jobs[b].destination == s.jobs[a].destination
    requires s.running[b].phase.Opening? && 0 < s.running[b].phase.offset <= |content|
    requires var offset := s.running[b].phase.offset;
      && response.status == 206 && response.body == Some(content[offset..])
      && StartFromContentRange(response.contentRange) == Some(offset)
      && SizeFromHeaders(response.contentRange, response.contentLength, offset) == Some(|content|)
    ensures var offset := s.running[b].phase.offset;
            var run := [Event.Cancel(a), Respond(b, response), Receive(b, |content| - offset, false), EndOfBody(b)];
            Complete(Run(s, run), b, s.jobs[b].destination, content[offset..]) && content[offset..] != content
  {
    hide PartPath, SizeFromHeaders, StartFromContentRange, TotalFromContentRange, Complete, Run, Filter;
    var offset := s.running[b].phase.offset;
    var s1 := Step(s, Event.Cancel(a));
    var rest := [Respond(b, response), Receive(b, |content| - offset, false), EndOfBody(b)];
    RestOfBodyFinishes(s1, b, offset, content, response, []);
    assert [] + content[offset..] == content[offset..];
    FirstOfRun(s, Event.Cancel(a), rest);
    assert [Event.Cancel(a)] + rest == [Event.Cancel(a), Respond(b, response), Receive(b, |content| - offset, false), EndOfBody(b)];
  }

  /** A state file that missed a cancel. What it shows of row `a` is resumable, but the bytes at
      its partial path are another row's; resuming `a` joins the start of one file to the rest of
      the other. */
  lemma StaleRowJoinsTwoFiles(lib: Library, s: State, a: JobId, response: Response)
    requires a in s.saved && s.saved[a].status in {Queued, Downloading, Paused, Failed} && s.concurrency > 0
    requires var part := PartPath(s.saved[a].destination);
      && s.saved[a].file in lib && part in s.files
      && 0 < |s.files[part]| <= |lib[s.saved[a].file]| && !(s.files[part] <= lib[s.saved[a].file])
    requires var offset := |s.files[PartPath(s.saved[a].destination)]|;
      var content := lib[s.saved[a].file];
      && response.status == 206 && response.body == Some(content[offset..])
      && StartFromContentRange(response.contentRange) == Some(offset)
      && SizeFromHeaders(response.contentRange, response.contentLength, offset) == Some(|content|)
    ensures var held := s.files[PartPath(s.saved[a].destination)];
            var content := lib[s.saved[a].file];
            var back := Step(s, Restart(map[], true));
            var run := [Event.Resume(a), Respond(a, response), Receive(a, |content| - |held|, false), EndOfBody(a)];
            && a in back.jobs && !JobOk(lib, back.files, back.jobs[a])
            && Complete(Run(back, run), a, s.saved[a].destination, held + content[|held|..])
            && held + content[|held|..] != content
  {
    hide PartPath, SizeFromHeaders, StartFromContentRange, TotalFromContentRange, Complete, Run;
    var content := lib[s.saved[a].file];
    var held := s.files[PartPath(s.saved[a].destination)];
    var back := Step(s, Restart(map[], true));
    assert back.files == s.files;
    assert back.jobs[a].Live();
    var s1 := Step(back, Event.Resume(a));
    ResumedStartsAtOnce(back, a);
    var rest := [Respond(a, response), Receive(a, |content| - |held|, false), EndOfBody(a)];
    RestOfBodyFinishes(s1, a, |held|, content, response, held);
    FirstOfRun(back, Event.Resume(a), rest);
    assert [Event.Resume(a)] + rest == [Event.Resume(a), Respond(a, response), Receive(a, |content| - |held|, false), EndOfBody(a)];
    assert (held + content[|held|..])[..|held|] == held;
  }

  /** With nothing queued and a slot free, a resumed row asks for what is missing right away. */
  lemma ResumedStartsAtOnce(s: State, a: JobId)
    requires a in s.jobs && s.jobs[a].status !in {Queued, Downloading, Done} && s.queue == [] && |s.running| < s.concurrency
    ensures var s' := ResumeJob(s, a);
      && a in s'.jobs && s'.jobs[a].destination == s.jobs[a].destination && s'.files == s.files
      && a in s'.running && s'.running[a].phase == Opening(BytesOnDisk(s.files, PartPath(s.jobs[a].destination)))
  {
    hide PartPath, BytesOnDisk;
    var row := s.jobs[a].(status := Queued, receivedBytes := BytesOnDisk(s.files, PartPath(s.jobs[a].destination)));
    var s' := s.(jobs := s.jobs[a := row], queue := s.queue + [a]);
    assert s'.queue[0] == a && s'.queue[1..] == [];
    var started := Start(s'.(queue := []), a);
    assert Pump(started) == started;
  }

  /** A run, admissible to its last step, that ends where `StaleRowJoinsTwoFiles` begins: row `a` is
      recorded as it starts, it is cancelled, `b` gets its name and its first bytes, and no later
      write of the state file lands before the crash. */
  function MissedCancel(a: JobId, b: JobId, ofA: FileKey, ofB: FileKey, d: Path, answer: Response, n: nat): seq<Event> {
    [Enqueue(a, ofA, None, [], d), SaveBegins, SaveLands, Event.Cancel(a), Break(a, 0, true),
     Enqueue(b, ofB, None, [], d), Respond(b, answer), Receive(b, n, false)]
  }

  /** Row `id` alone in a slot, about to ask for all of its file, with nothing on disk. */
  function WithRow(concurrency: nat, id: JobId, file: FileKey, d: Path, saved: map<JobId, Job>, rows: map<JobId, Job>): State {
    State(rows[id := Job(file, d, 0, None, Downloading)], map[id := Running(Opening(0), false, false)], [], map[], concurrency, saved, None)
  }

  lemma FirstRowStarts(lib: Library, s: State, id: JobId, file: FileKey, d: Path)
    requires s == State(s.jobs, map[], [], map[], s.concurrency, s.saved, None) && s.concurrency > 0
    requires id !in s.jobs && forall other | other in s.jobs :: !s.jobs[other].Live()
    ensures Admissible(lib, s, Enqueue(id, file, None, [], d))
    ensures Step(s, Enqueue(id, file, None, [], d)) == WithRow(s.concurrency, id, file, d, s.saved, s.jobs)
  {
    hide PartPath;
    EnqueueStartsAtOnce(s, id, file, d);
    assert DestinationFor(s, [], d) == d;
  }

  lemma RowIsSavedThenCancelled(lib: Library, s: State, a: JobId, file: FileKey, d: Path)
    requires s == WithRow(s.concurrency, a, file, d, map[], map[])
    ensures var run := [SaveBegins, SaveLands, Event.Cancel(a), Break(a, 0, true)];
      && AdmissibleRun(lib, s, run)
      && Run(s, run) == State(map[a := Job(file, d, 0, None, Cancelled)], map[], [], map[], s.concurrency,
                              map[a := Job(file, d, 0, None, Downloading)], None)
  {
    hide PartPath;
    var s1 := Step(s, SaveBegins);
    var s2 := Step(s1, SaveLands);
    var s3 := Step(s2, Event.Cancel(a));
    var s4 := Step(s3, Break(a, 0, true));
    assert s3.running == map[a := Running(Opening(0), false, true)];
    assert s4.running == map[] && s4.files == map[] && s4.jobs == map[a := Job(file, d, 0, None, Cancelled)];
    hide Step, Admissible;
    AdmissibleFirst(lib, s3, Break(a, 0, true), []);
    AdmissibleFirst(lib, s2, Event.Cancel(a), [Break(a, 0, true)]);
    AdmissibleFirst(lib, s1, SaveLands, [Event.Cancel(a)] + [Break(a, 0, true)]);
    AdmissibleFirst(lib, s, SaveBegins, [SaveLands] + ([Event.Cancel(a)] + [Break(a, 0, true)]));
    assert [SaveBegins] + ([SaveLands] + ([Event.Cancel(a)] + [Break(a, 0, true)])) == [SaveBegins, SaveLands, Event.Cancel(a), Break(a, 0, true)];
  }

  lemma FirstBytesArrive(lib: Library, s: State, b: JobId, file: FileKey, d: Path, saved: map<JobId, Job>, rows: map<JobId, Job>, answer: Response, n: nat)
    requires s == WithRow(s.concurrency, b, file, d, saved, rows)
    requires Truthful(lib, file, answer) && answer.status == 200 && answer.body.Some? && n <= |answer.body.value|
    ensures var run := [Respond(b, answer), Receive(b, n, false)];
            var s' := Run(s, run);
      && AdmissibleRun(lib, s, run)
      && s'.concurrency == s.concurrency && s'.saved == saved
      && (forall other | other in rows && other != b :: other in s'.jobs && s'.jobs[other] == rows[other])
      && PartPath(d) in s'.files && s'.files[PartPath(d)] == lib[file][..n]
  {
    hide PartPath, SizeFromHeaders;
    var s1 := Step(s, Respond(b, answer));
    assert s1.files[PartPath(d)] == [];
    var s2 := Step(s1, Receive(b, n, false));
    assert [] + answer.body.value[..n] == lib[file][..n];
    assert s2.files[PartPath(d)] == lib[file][..n];
    AdmissibleFirst(lib, s1, Receive(b, n, false), []);
    AdmissibleFirst(lib, s, Respond(b, answer), [Receive(b, n, false)]);
    assert [Respond(b, answer)] + [Receive(b, n, false)] == [Respond(b, answer), Receive(b, n, false)];
  }

  lemma MissedCancelIsReachable(lib: Library, concurrency: nat, a: JobId, b: JobId, ofA: FileKey, ofB: FileKey, d: Path, answer: Response, n: nat)
    requires a != b && concurrency > 0
    requires Truthful(lib, ofB, answer) && answer.status == 200 && answer.body.Some? && n <= |answer.body.value|
    ensures var run := MissedCancel(a, b, ofA, ofB, d, answer, n);
            var s := Run(Fresh(map[], concurrency), run);
      && AdmissibleRun(lib, Fresh(map[], concurrency), run)
      && s.concurrency == concurrency
      && s.saved == map[a := Job(ofA, d, 0, None, Downloading)]
      && a in s.jobs && s.jobs[a].status == Cancelled
      && PartPath(d) in s.files && s.files[PartPath(d)] == lib[ofB][..n]
  {
    hide PartPath, SizeFromHeaders, Truthful, Admissible, Step, Run, AdmissibleRun;
    var s0 := Fresh(map[], concurrency);
    var s1 := Step(s0, Enqueue(a, ofA, None, [], d));
    var first := [SaveBegins, SaveLands, Event.Cancel(a), Break(a, 0, true)];
    var s2 := Run(s1, first);
    var s3 := Step(s2, Enqueue(b, ofB, None, [], d));
    var last := [Respond(b, answer), Receive(b, n, false)];
    FirstRowStarts(lib, s0, a, ofA, d);
    RowIsSavedThenCancelled(lib, s1, a, ofA, d);
    FirstRowStarts(lib, s2, b, ofB, d);
    FirstBytesArrive(lib, s3, b, ofB, d, s2.saved, s2.jobs, answer, n);
    AdmissibleFirst(lib, s2, Enqueue(b, ofB, None, [], d), last);
    RunsJoin(lib, s1, first, [Enqueue(b, ofB, None, [], d)] + last);
    AdmissibleFirst(lib, s0, Enqueue(a, ofA, None, [], d), first + ([Enqueue(b, ofB, None, [], d)] + last));
    assert [Enqueue(a, ofA, None, [], d)] + (first + ([Enqueue(b, ofB, None, [], d)] + last)) == MissedCancel(a, b, ofA, ofB, d, answer, n);
  }

  lemma AdmissibleFirst(lib: Library, s: State, e: Event, rest: seq<Event>)
    requires Admissible(lib, s, e) && AdmissibleRun(lib, Step(s, e), rest)
    ensures AdmissibleRun(lib, s, [e] + rest) && Run(s, [e] + rest) == Run(Step(s, e), rest)
  {
    hide Step, Admissible;
    assert ([e] + rest)[1..] == rest;
  }

  lemma {:induction false} RunsJoin(lib: Library, s: State, first: seq<Event>, rest: seq<Event>)
    requires AdmissibleRun(lib, s, first) && AdmissibleRun(lib, Run(s, first), rest)
    ensures AdmissibleRun(lib, s, first + rest) && Run(s, first + rest) == Run(Run(s, first), rest)
    decreases |first|
  {
    hide Step, Admissible;
    if first == [] {
      assert first + rest == rest;
    } else {
      RunsJoin(lib, Step(s, first[0]), first[1..], rest);
      assert (first + rest)[1..] == first[1..] + rest;
    }
  }
}
