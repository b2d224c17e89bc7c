/** How a transfer leaves its slot, in what order rows get one, and that an interrupted transfer ends
    with the source in place once it is let run. */
module DownloadOutcomes {
  import opened Text
  import opened HttpRange
  import opened Downloads
  import opened DownloadSafety

  /** The bytes at a path; none when there is no file. */
  function Held(files: Files, path: Path): seq<byte> {
    if path in files then files[path] else []
  }

  /** What reaches the disk when the transfer of `id` breaks off `n` bytes later. */
  function Landed(s: State, id: JobId, n: nat): seq<byte>
    requires id in s.running
  {
    var phase := s.running[id].phase;
    if phase.Reading? && n <= |phase.body| then phase.body[..n] else []
  }

  /** Row `id` is out of its slot as `status` and shows exactly the bytes at its partial path. */
  ghost predicate Left(s: State, id: JobId, file: FileKey, destination: Path, status: Status, bytes: seq<byte>) {
    && id in s.jobs && id !in s.running && id !in s.queue
    && s.jobs[id].file == file && s.jobs[id].destination == destination
    && s.jobs[id].status == status && s.jobs[id].receivedBytes == |bytes|
    && Held(s.files, PartPath(destination)) == bytes
  }

  // ─── leaving a slot ──────────────────────────────────────────────────────────

  lemma {:induction false} PumpPassesBy(s: State, id: JobId)
    requires id in s.jobs && s.jobs[id].status != Queued && id !in s.running && id !in s.queue
    ensures id !in Pump(s).running && id !in Pump(s).queue
    decreases |s.queue|
  {
    hide PartPath, BytesOnDisk;
    if |s.running| < s.concurrency && s.queue != [] {
      var next := s.queue[0];
      var rest := s.(queue := s.queue[1..]);
      if next in s.jobs && s.jobs[next].status == Queued {
        PumpPassesBy(Start(rest, next), id);
      } else {
        PumpPassesBy(rest, id);
      }
    }
  }

  lemma Leaves(s: State, id: JobId, job: Job, files: Files, bytes: seq<byte>)
    requires id in s.running && id !in s.queue && job.status != Queued
    requires Held(files, PartPath(job.destination)) == bytes && job.receivedBytes == |bytes|
    ensures Left(Leave(s, id, job, files), id, job.file, job.destination, job.status, bytes)
  {
    hide PartPath, Pump;
    var s' := s.(files := files, jobs := s.jobs[id := job], running := s.running - {id});
    PumpPassesBy(s', id);
    PumpTouchesOnlyTheQueue(s', id);
  }

  lemma RunningIsNotQueued(lib: Library, s: State, id: JobId)
    requires Invariant(lib, s) && id in s.running
    ensures id in s.jobs && id !in s.queue
  {
    hide PartPath, JobOk, PhaseOk, NoDuplicates, SavedOk, DisjointFiles;
    assert id in s.running;
  }

  lemma AppendHolds(files: Files, part: Path, bytes: seq<byte>)
    ensures Held(Append(files, part, bytes), part) == Held(files, part) + bytes
  {}

  lemma BrokenOff(lib: Library, s: State, id: JobId, n: nat, byCaller: bool)
    requires Invariant(lib, s) && id in s.running && id in s.jobs
    ensures var job := s.jobs[id];
      var r := s.running[id];
      if r.cancelled then Left(Step(s, Break(id, n, byCaller)), id, job.file, job.destination, Cancelled, [])
      else Left(Step(s, Break(id, n, byCaller)), id, job.file, job.destination, if r.paused || byCaller then Paused else Failed,
                Held(s.files, PartPath(job.destination)) + Landed(s, id, n))
  {
    RunningIsNotQueued(lib, s, id);
    hide PartPath, Leave, Left, Invariant;
    var job := s.jobs[id];
    var r := s.running[id];
    var part := PartPath(job.destination);
    var files := if r.phase.Reading? && n <= |r.phase.body| then Append(s.files, part, r.phase.body[..n]) else s.files;
    if r.phase.Reading? && n <= |r.phase.body| {
      AppendHolds(s.files, part, r.phase.body[..n]);
    } else {
      assert Held(s.files, part) + [] == Held(s.files, part);
    }
    if r.cancelled {
      Leaves(s, id, job.(status := Cancelled, receivedBytes := 0), Without(files, part), []);
    } else {
      var status := if r.paused || byCaller then Paused else Failed;
      Leaves(s, id, job.(status := status, receivedBytes := BytesOnDisk(files, part)), files, Held(files, part));
    }
  }

  // ─── what the window asked for ───────────────────────────────────────────────

  lemma {:induction false} PumpKeepsRunning(s: State, id: JobId)
    requires id in s.running && id !in s.queue
    ensures id in Pump(s).running && Pump(s).running[id] == s.running[id]
    decreases |s.queue|
  {
    hide PartPath, BytesOnDisk;
    if |s.running| < s.concurrency && s.queue != [] {
      var next := s.queue[0];
      var rest := s.(queue := s.queue[1..]);
      if next in s.jobs && s.jobs[next].status == Queued {
        PumpKeepsRunning(Start(rest, next), id);
      } else {
        PumpKeepsRunning(rest, id);
      }
    }
  }

  predicate SameFlags(a: Running, b: Running) {
    a.paused == b.paused && a.cancelled == b.cancelled
  }

  /** Another row gives up its slot. */
  lemma OthersLeave(s: State, other: JobId, job: Job, files: Files, id: JobId)
    requires id in s.running && id !in s.queue && other != id
    ensures id in Leave(s, other, job, files).running && Leave(s, other, job, files).running[id] == s.running[id]
  {
    hide PartPath, Pump;
    PumpKeepsRunning(s.(files := files, jobs := s.jobs[other := job], running := s.running - {other}), id);
  }

  lemma LeftIsOut(s: State, id: JobId, job: Job, files: Files)
    requires id in s.running && id !in s.queue && job.status != Queued
    ensures id !in Leave(s, id, job, files).running
  {
    hide PartPath, Pump;
    PumpPassesBy(s.(files := files, jobs := s.jobs[id := job], running := s.running - {id}), id);
  }

  lemma ThrowFlags(s: State, other: JobId, job: Job, files: Files, byCaller: bool, id: JobId)
    requires other in s.running && other !in s.queue && id in s.running && id !in s.queue
    ensures var s' := Throw(s, other, job, files, byCaller);
      if other == id then id !in s'.running else id in s'.running && s'.running[id] == s.running[id]
  {
    hide PartPath, Leave;
    var part := PartPath(job.destination);
    var status := if s.running[other].paused || byCaller then Paused else Failed;
    var thrown := job.(status := status, receivedBytes := BytesOnDisk(files, part));
    var cancelled := job.(status := Cancelled, receivedBytes := 0);
    if other == id {
      LeftIsOut(s, id, thrown, files);
      LeftIsOut(s, id, cancelled, Without(files, part));
    } else {
      OthersLeave(s, other, thrown, files, id);
      OthersLeave(s, other, cancelled, Without(files, part), id);
    }
  }

  lemma FinishFlags(s: State, other: JobId, size: nat, id: JobId)
    requires other in s.running && other in s.jobs && other !in s.queue && id in s.running && id !in s.queue
    ensures var s' := Finish(s, other, size);
      if other == id then id !in s'.running else id in s'.running && s'.running[id] == s.running[id]
  {
    hide PartPath, Leave, Throw;
    var job := s.jobs[other];
    var part := PartPath(job.destination);
    ThrowFlags(s, other, job, s.files, false, id);
    if part in s.files {
      var done := job.(status := Done, receivedBytes := size, totalBytes := Some(size));
      var files := Without(s.files[job.destination := s.files[part]], part);
      if other == id {
        LeftIsOut(s, id, done, files);
      } else {
        OthersLeave(s, other, done, files, id);
      }
    }
  }

  lemma AnswerFlags(s: State, other: JobId, response: Response, id: JobId)
    requires other in s.running && other in s.jobs && other !in s.queue && id in s.running && id !in s.queue
    requires s.running[other].phase.Opening?
    ensures var s' := RespondTo(s, other, response);
      id in s'.running ==> SameFlags(s'.running[id], s.running[id])
  {
    hide PartPath, Finish, Throw, SizeFromHeaders, TotalFromContentRange, StartFromContentRange;
    var job := s.jobs[other];
    var part := PartPath(job.destination);
    var offset := s.running[other].phase.offset;
    var servedFrom := if response.status == 200 then 0 else StartFromContentRange(response.contentRange).GetOr(offset);
    var total := SizeFromHeaders(response.contentRange, response.contentLength, servedFrom);
    var files := if servedFrom != offset then Without(s.files, part) else s.files;
    var shown := job.(receivedBytes := if servedFrom != offset then 0 else job.receivedBytes,
                      totalBytes := if total.Some? then total else job.totalBytes);
    FinishFlags(s, other, offset, id);
    ThrowFlags(s, other, job, Without(s.files, part), false, id);
    ThrowFlags(s, other, job, s.files, false, id);
    ThrowFlags(s, other, shown, files, false, id);
  }

  lemma TransferFlags(s: State, e: Event, id: JobId)
    requires e.Receive? || e.EndOfBody? || e.Break?
    requires e.id in s.running ==> e.id !in s.queue
    requires id in s.running && id !in s.queue
    ensures id in Step(s, e).running ==> SameFlags(Step(s, e).running[id], s.running[id])
  {
    hide PartPath, Finish, Throw;
    if e.id in s.running && e.id in s.jobs {
      var job := s.jobs[e.id];
      var phase := s.running[e.id].phase;
      match e
      case EndOfBody(other) =>
        if phase.Reading? {
          ThrowFlags(s, other, job.(receivedBytes := phase.written), s.files, false, id);
          FinishFlags(s, other, phase.total.GetOr(phase.written), id);
        }
      case Break(other, n, byCaller) =>
        ThrowFlags(s, other, job, s.files, byCaller, id);
        if phase.Reading? && n <= |phase.body| {
          ThrowFlags(s, other, job, Append(s.files, PartPath(job.destination), phase.body[..n]), byCaller, id);
        }
      case _ =>
    }
  }

  lemma CallerFlags(s: State, e: Event, id: JobId)
    requires e.Enqueue? || e.Pause? || e.Resume? || e.Cancel?
    requires id in s.running && id in s.jobs && s.jobs[id].status == Downloading && id !in s.queue && (e.Enqueue? ==> e.id != id)
    ensures id in Step(s, e).running
    ensures Step(s, e).running[id].paused <==> s.running[id].paused || e == Pause(id)
    ensures Step(s, e).running[id].cancelled <==> s.running[id].cancelled || e == Event.Cancel(id)
  {
    hide PartPath, BytesOnDisk, Pump, Filter, Free;
    match e
    case Enqueue(other, file, total, candidates, fallback) =>
      var d := DestinationFor(s, candidates, fallback);
      PumpKeepsRunning(s.(jobs := s.jobs[other := Job(file, d, 0, total, Queued)], queue := s.queue + [other]), id);
    case Resume(other) =>
      if other in s.jobs && s.jobs[other].status !in {Downloading, Queued, Done} {
        var received := BytesOnDisk(s.files, PartPath(s.jobs[other].destination));
        PumpKeepsRunning(s.(jobs := s.jobs[other := s.jobs[other].(status := Queued, receivedBytes := received)], queue := s.queue + [other]), id);
      }
    case _ =>
  }

  /** A transfer in its slot remembers what the window asked for, and nothing else. */
  lemma FlagsFollow(lib: Library, s: State, e: Event, id: JobId)
    requires Invariant(lib, s) && Admissible(lib, s, e) && id in s.running && id in Step(s, e).running
    ensures Step(s, e).running[id].paused <==> s.running[id].paused || e == Pause(id)
    ensures Step(s, e).running[id].cancelled <==> s.running[id].cancelled || e == Event.Cancel(id)
  {
    assert id in s.jobs && s.jobs[id].status == Downloading;
    RunningIsNotQueued(lib, s, id);
    hide Step, Invariant, Admissible;
    match e
    case Enqueue(_, _, _, _, _) => EnqueuedIsNew(lib, s, e); CallerFlags(s, e, id);
    case Pause(_) => CallerFlags(s, e, id);
    case Resume(_) => CallerFlags(s, e, id);
    case Cancel(_) => CallerFlags(s, e, id);
    case Respond(other, response) => RespondFlags(lib, s, other, response, id);
    case Receive(other, _, _) => OtherIsNotQueued(lib, s, other); TransferFlags(s, e, id);
    case EndOfBody(other) => OtherIsNotQueued(lib, s, other); TransferFlags(s, e, id);
    case Break(other, _, _) => OtherIsNotQueued(lib, s, other); TransferFlags(s, e, id);
    case SaveBegins => SavingLeavesSlots(s, e);
    case SaveLands => SavingLeavesSlots(s, e);
    case SaveFails => SavingLeavesSlots(s, e);
    case Restart(kept, readable) => RestartEmptiesSlots(s, kept, readable);
  }

  lemma EnqueuedIsNew(lib: Library, s: State, e: Event)
    requires e.Enqueue? && Admissible(lib, s, e)
    ensures e.id !in s.jobs
  {}

  lemma OtherIsNotQueued(lib: Library, s: State, other: JobId)
    requires Invariant(lib, s)
    ensures other in s.running ==> other !in s.queue
  {
    if other in s.running {
      RunningIsNotQueued(lib, s, other);
    }
  }

  lemma RespondFlags(lib: Library, s: State, other: JobId, response: Response, id: JobId)
    requires Invariant(lib, s) && id in s.running && id !in s.queue && id in Step(s, Respond(other, response)).running
    ensures SameFlags(Step(s, Respond(other, response)).running[id], s.running[id])
  {
    hide RespondTo, Invariant;
    OtherIsNotQueued(lib, s, other);
    if other in s.running && other in s.jobs && s.running[other].phase.Opening? {
      AnswerFlags(s, other, response, id);
    }
  }

  lemma SavingLeavesSlots(s: State, e: Event)
    requires e.SaveBegins? || e.SaveLands? || e.SaveFails?
    ensures Step(s, e).running == s.running
  {}

  lemma RestartEmptiesSlots(s: State, kept: map<Path, nat>, readable: bool)
    ensures Step(s, Restart(kept, readable)).running == map[]
  {}

  predicate StaysInItsSlot(s: State, events: seq<Event>, id: JobId)
    decreases |events|
  {
    id in s.running && (events == [] || StaysInItsSlot(Step(s, events[0]), events[1..], id))
  }

  lemma {:induction false} EveryRunFollows(lib: Library, s: State, events: seq<Event>, id: JobId)
    requires Invariant(lib, s) && AdmissibleRun(lib, s, events) && StaysInItsSlot(s, events, id)
    ensures id in Run(s, events).running
    ensures Run(s, events).running[id].paused <==> s.running[id].paused || Pause(id) in events
    ensures Run(s, events).running[id].cancelled <==> s.running[id].cancelled || Event.Cancel(id) in events
    decreases |events|
  {
    hide Step, Invariant, Admissible;
    if events != [] {
      FlagsFollow(lib, s, events[0], id);
      StepKeeps(lib, s, events[0]);
      EveryRunFollows(lib, Step(s, events[0]), events[1..], id);
      assert events == [events[0]] + events[1..];
    }
  }

  /** How a transfer that breaks off leaves its slot, after whatever happened since it got it: cancelled
      and without a partial file if the window cancelled it, otherwise with every byte that arrived,
      paused if the window paused it or the caller gave up, failed if neither. */
  lemma InterruptedTransfer(lib: Library, s: State, events: seq<Event>, id: JobId, n: nat, byCaller: bool)
    requires Invariant(lib, s) && AdmissibleRun(lib, s, events) && StaysInItsSlot(s, events, id)
    requires !s.running[id].paused && !s.running[id].cancelled
    ensures var before := Run(s, events);
            && id in before.running && id in before.jobs
            && var row := before.jobs[id];
               var arrived := Held(before.files, PartPath(row.destination)) + Landed(before, id, n);
               var after := Step(before, Break(id, n, byCaller));
            && (Event.Cancel(id) in events ==> Left(after, id, row.file, row.destination, Cancelled, []))
            && (Event.Cancel(id) !in events && (Pause(id) in events || byCaller) ==>
                  Left(after, id, row.file, row.destination, Paused, arrived))
            && (Event.Cancel(id) !in events && Pause(id) !in events && !byCaller ==>
                  Left(after, id, row.file, row.destination, Failed, arrived))
  {
    EveryRunKeeps(lib, s, events);
    EveryRunFollows(lib, s, events, id);
    var before := Run(s, events);
    RunningIsNotQueued(lib, before, id);
    hide *;
    BrokenOff(lib, before, id, n, byCaller);
  }

  // ─── and then it is let run ──────────────────────────────────────────────────

  /** The events of one uninterrupted attempt at `content` from `offset` on, read in these pieces; of
      nothing but the refusal when no byte is missing. */
  function OneAttempt(id: JobId, content: seq<byte>, offset: nat, sizes: seq<nat>): seq<Event> {
    [Respond(id, AsResponse(Answer(AttemptRequest(offset), Regular(content))))]
    + (if 0 < offset == |content| then [] else Reads(id, sizes))
  }

  /** From every reachable state in which a transfer is about to ask, one uninterrupted attempt against
      the Range endpoint puts the source in place. */
  lemma EveryAttemptCanComplete(lib: Library, s: State, id: JobId, sizes: seq<nat>)
    requires Invariant(lib, s) && id in s.running && id in s.jobs && s.running[id].phase.Opening?
    requires s.jobs[id].file in lib && |lib[s.jobs[id].file]| <= MAX_SAFE_INTEGER
    requires Sum(sizes) == |lib[s.jobs[id].file]| - s.running[id].phase.offset
    ensures var content := lib[s.jobs[id].file];
            Complete(Run(s, OneAttempt(id, content, s.running[id].phase.offset, sizes)), id, s.jobs[id].destination, content)
  {
    hide PartPath, Answer, AsResponse, AttemptRequest, Reads, Complete, Run, Step, Sum;
    var content := lib[s.jobs[id].file];
    var part := PartPath(s.jobs[id].destination);
    var offset := s.running[id].phase.offset;
    assert PhaseOk(lib, s.files, s.jobs[id], s.running[id].phase) && JobOk(lib, s.files, s.jobs[id]);
    assert s.jobs[id].status == Downloading;
    var answer := AsResponse(Answer(AttemptRequest(offset), Regular(content)));
    if 0 < offset == |content| {
      CompletePartialFileFinishes(s, id, content);
      FirstOfRun(s, Respond(id, answer), []);
      NothingMore(Step(s, Respond(id, answer)));
    } else {
      AttemptCompletes(s, id, content, sizes);
    }
  }

  lemma NothingMore(s: State)
    ensures Run(s, []) == s
  {}

  lemma BreakWithNobodyWaiting(s: State, id: JobId, n: nat, byCaller: bool)
    requires id in s.running && id in s.jobs && s.queue == []
    ensures var s' := Step(s, Break(id, n, byCaller));
      s'.queue == [] && s'.running == s.running - {id} && s'.concurrency == s.concurrency
  {
    hide PartPath, BytesOnDisk;
  }

  lemma PausedIsFlagged(s: State, id: JobId)
    requires id in s.running
    ensures var s' := Step(s, Pause(id));
      && s' == s.(running := s'.running) && s'.running.Keys == s.running.Keys
      && s'.running[id] == s.running[id].(paused := true)
  {}

  lemma SmallerMap(running: map<JobId, Running>, id: JobId)
    requires id in running
    ensures |running - {id}| < |running|
  {
    assert running.Keys == (running - {id}).Keys + {id};
    assert |(running - {id}).Keys| + 1 == |running.Keys|;
  }

  /** Pausing and resuming loses nothing: the row asks again from all that had arrived. */
  lemma ResumesWhereItPaused(lib: Library, s: State, id: JobId, n: nat, byCaller: bool)
    requires Invariant(lib, s) && id in s.running && id in s.jobs && !s.running[id].cancelled && s.queue == []
    ensures var arrived := Held(s.files, PartPath(s.jobs[id].destination)) + Landed(s, id, n);
            var back := Step(Step(Step(s, Pause(id)), Break(id, n, byCaller)), Event.Resume(id));
            && Invariant(lib, back)
            && id in back.running && id in back.jobs && back.running[id].phase == Opening(|arrived|)
            && back.jobs[id].file == s.jobs[id].file && back.jobs[id].destination == s.jobs[id].destination
            && Held(back.files, PartPath(s.jobs[id].destination)) == arrived
  {
    var s1 := Step(s, Pause(id));
    var s2 := Step(s1, Break(id, n, byCaller));
    PausedIsFlagged(s, id);
    assert Landed(s1, id, n) == Landed(s, id, n);
    SlotsAreBounded(lib, s);
    SmallerMap(s1.running, id);
    hide PartPath, Invariant, Step, Landed, ResumeJob;
    StepKeeps(lib, s, Pause(id));
    BrokenOff(lib, s1, id, n, byCaller);
    StepKeeps(lib, s1, Break(id, n, byCaller));
    BreakWithNobodyWaiting(s1, id, n, byCaller);
    SlotsAreBounded(lib, s1);
    ResumedStartsAtOnce(s2, id);
    ResumedIsTheSameRow(s2, id);
    StepKeeps(lib, s2, Event.Resume(id));
    ResumeIsTheStep(s2, id);
  }

  lemma SlotsAreBounded(lib: Library, s: State)
    requires Invariant(lib, s)
    ensures |s.running| <= s.concurrency
  {
    hide PartPath, JobOk, PhaseOk;
  }

  lemma ResumeIsTheStep(s: State, id: JobId)
    ensures Step(s, Event.Resume(id)) == ResumeJob(s, id)
  {
    hide ResumeJob;
  }

  lemma ResumedIsTheSameRow(s: State, id: JobId)
    requires id in s.jobs && s.jobs[id].status !in {Queued, Downloading, Done}
    ensures id in ResumeJob(s, id).jobs && ResumeJob(s, id).jobs[id].file == s.jobs[id].file
  {
    hide PartPath, BytesOnDisk;
    var row := s.jobs[id].(status := Queued, receivedBytes := BytesOnDisk(s.files, PartPath(s.jobs[id].destination)));
    PumpKeepsPlaces(s.(jobs := s.jobs[id := row], queue := s.queue + [id]), id);
  }

  /** Paused after any number of bytes, resumed, and let run once: the source is in place. */
  lemma PausedThenResumedCompletes(lib: Library, s: State, id: JobId, n: nat, byCaller: bool, sizes: seq<nat>)
    requires Invariant(lib, s) && id in s.running && id in s.jobs && !s.running[id].cancelled && s.queue == []
    requires s.jobs[id].file in lib && |lib[s.jobs[id].file]| <= MAX_SAFE_INTEGER
    requires var arrived := Held(s.files, PartPath(s.jobs[id].destination)) + Landed(s, id, n);
             Sum(sizes) == |lib[s.jobs[id].file]| - |arrived|
    ensures var arrived := Held(s.files, PartPath(s.jobs[id].destination)) + Landed(s, id, n);
            var content := lib[s.jobs[id].file];
            Complete(Run(s, [Pause(id), Break(id, n, byCaller), Event.Resume(id)] + OneAttempt(id, content, |arrived|, sizes)),
                     id, s.jobs[id].destination, content)
  {
    hide PartPath, Invariant, Step, OneAttempt, Complete, Run, Sum, Landed, Held;
    var arrived := Held(s.files, PartPath(s.jobs[id].destination)) + Landed(s, id, n);
    var attempt := OneAttempt(id, lib[s.jobs[id].file], |arrived|, sizes);
    var s1 := Step(s, Pause(id));
    var s2 := Step(s1, Break(id, n, byCaller));
    ResumesWhereItPaused(lib, s, id, n, byCaller);
    EveryAttemptCanComplete(lib, Step(s2, Event.Resume(id)), id, sizes);
    FirstOfRun(s2, Event.Resume(id), attempt);
    FirstOfRun(s1, Break(id, n, byCaller), [Event.Resume(id)] + attempt);
    FirstOfRun(s, Pause(id), [Break(id, n, byCaller)] + ([Event.Resume(id)] + attempt));
    assert [Pause(id)] + ([Break(id, n, byCaller)] + ([Event.Resume(id)] + attempt))
        == [Pause(id), Break(id, n, byCaller), Event.Resume(id)] + attempt;
  }

  // ─── the other ways out of a slot ────────────────────────────────────────────

  lemma TruncatedLeaves(s: State, id: JobId)
    requires id in s.running && id in s.jobs && id !in s.queue && s.running[id].phase.Reading?
    requires s.running[id].phase.total.Some? && s.running[id].phase.written < s.running[id].phase.total.value
    ensures var row := s.jobs[id];
      var after := EndBody(s, id);
      if s.running[id].cancelled then Left(after, id, row.file, row.destination, Cancelled, [])
      else Left(after, id, row.file, row.destination, if s.running[id].paused then Paused else Failed,
                Held(s.files, PartPath(row.destination)))
  {
    hide PartPath, Leave, Left, Finish;
    var part := PartPath(s.jobs[id].destination);
    var row := s.jobs[id].(receivedBytes := s.running[id].phase.written);
    Leaves(s, id, row.(status := Cancelled, receivedBytes := 0), Without(s.files, part), []);
    Leaves(s, id, row.(status := if s.running[id].paused then Paused else Failed, receivedBytes := BytesOnDisk(s.files, part)),
           s.files, Held(s.files, part));
  }

  /** A body that ends before its size is not finished: the row keeps what arrived and fails, unless
      the window asked for something else. A whole one puts the source in place. */
  lemma EndOfBodyLeaves(lib: Library, s: State, id: JobId)
    requires Invariant(lib, s) && id in s.running && id in s.jobs && s.running[id].phase.Reading?
    ensures var row := s.jobs[id];
      var held := Held(s.files, PartPath(row.destination));
      var after := Step(s, EndOfBody(id));
      && row.file in lib
      && (held == lib[row.file] ==> Complete(after, id, row.destination, lib[row.file]))
      && (held != lib[row.file] ==>
            if s.running[id].cancelled then Left(after, id, row.file, row.destination, Cancelled, [])
            else Left(after, id, row.file, row.destination, if s.running[id].paused then Paused else Failed, held))
  {
    RunningIsNotQueued(lib, s, id);
    assert PhaseOk(lib, s.files, s.jobs[id], s.running[id].phase);
    hide PartPath, Left, Invariant, Finish, Throw, Complete;
    var phase := s.running[id].phase;
    var held := s.files[PartPath(s.jobs[id].destination)];
    if phase.written < phase.total.value {
      TruncatedLeaves(s, id);
    } else {
      assert held == lib[s.jobs[id].file];
      FinishCompletes(s, id, phase.total.value, held);
    }
  }

  /** An answer that is not the file: the row fails and keeps what it has. */
  lemma RefusalLeaves(lib: Library, s: State, id: JobId, response: Response)
    requires Invariant(lib, s) && id in s.running && id in s.jobs && s.running[id].phase.Opening?
    requires !s.running[id].cancelled && response.status !in {200, 206, 416}
    ensures var row := s.jobs[id];
      Left(Step(s, Respond(id, response)), id, row.file, row.destination, if s.running[id].paused then Paused else Failed,
           Held(s.files, PartPath(row.destination)))
  {
    RunningIsNotQueued(lib, s, id);
    hide PartPath, Leave, Left, Invariant, SizeFromHeaders, TotalFromContentRange, StartFromContentRange;
    var job := s.jobs[id];
    var part := PartPath(job.destination);
    Leaves(s, id, job.(status := if s.running[id].paused then Paused else Failed, receivedBytes := BytesOnDisk(s.files, part)),
           s.files, Held(s.files, part));
  }

  /** An answer that starts somewhere else, or a refused range that does not fit: what is on disk cannot
      be a prefix of what the server has, so it goes and the row fails. */
  lemma WrongAnswerLeaves(lib: Library, s: State, id: JobId, response: Response)
    requires Invariant(lib, s) && id in s.running && id in s.jobs && s.running[id].phase.Opening?
    requires !s.running[id].cancelled
    requires var offset := s.running[id].phase.offset;
      || (response.status == 416 && TotalFromContentRange(response.contentRange) != Some(offset))
      || (response.status == 206 && StartFromContentRange(response.contentRange).GetOr(offset) !in {0, offset})
    ensures var row := s.jobs[id];
      Left(Step(s, Respond(id, response)), id, row.file, row.destination, if s.running[id].paused then Paused else Failed, [])
  {
    RunningIsNotQueued(lib, s, id);
    hide PartPath, Throw, Left, Invariant, RespondTo, SizeFromHeaders, TotalFromContentRange, StartFromContentRange;
    ThrownEmpty(s, id);
    WrongAnswerThrows(s, id, response);
  }

  lemma WrongAnswerThrows(s: State, id: JobId, response: Response)
    requires id in s.running && id in s.jobs && s.running[id].phase.Opening?
    requires var offset := s.running[id].phase.offset;
      || (response.status == 416 && TotalFromContentRange(response.contentRange) != Some(offset))
      || (response.status == 206 && StartFromContentRange(response.contentRange).GetOr(offset) !in {0, offset})
    ensures RespondTo(s, id, response) == Throw(s, id, s.jobs[id], Without(s.files, PartPath(s.jobs[id].destination)), false)
  {
    hide PartPath, Throw, SizeFromHeaders, TotalFromContentRange, StartFromContentRange;
  }

  lemma ThrownEmpty(s: State, id: JobId)
    requires id in s.running && id in s.jobs && id !in s.queue && !s.running[id].cancelled
    ensures var row := s.jobs[id];
      Left(Throw(s, id, row, Without(s.files, PartPath(row.destination)), false), id, row.file, row.destination,
           if s.running[id].paused then Paused else Failed, [])
  {
    hide PartPath, Leave, Left;
    var row := s.jobs[id];
    Leaves(s, id, row.(status := if s.running[id].paused then Paused else Failed, receivedBytes := 0),
           Without(s.files, PartPath(row.destination)), []);
  }

  /** The whole file in answer to a request for the rest of it: what was there is replaced. */
  lemma WholeFileReplaces(s: State, id: JobId, content: seq<byte>, response: Response, sizes: seq<nat>)
    requires id in s.running && id in s.jobs && s.running[id].phase.Opening?
    requires response.status == 200 && response.body == Some(content) && Sum(sizes) == |content|
    requires SizeFromHeaders(response.contentRange, response.contentLength, 0) == Some(|content|)
    ensures Complete(Run(s, [Respond(id, response)] + Reads(id, sizes)), id, s.jobs[id].destination, content)
  {
    hide PartPath, SizeFromHeaders, Run, Reads, Sum, Complete;
    var s' := Step(s, Respond(id, response));
    assert s'.files[PartPath(s.jobs[id].destination)] == [];
    assert [] + content == content;
    ReadingCompletes(s', id, content, sizes);
    FirstOfRun(s, Respond(id, response), Reads(id, sizes));
  }

  // ─── whose turn it is ────────────────────────────────────────────────────────

  function Least(a: int, b: int): int {
    if a <= b then a else b
  }

  /** The rows that are waiting get the free slots in the order they asked, and wait on in that order. */
  lemma {:induction false} FirstComeFirstServed(s: State)
    requires QueueOk(s)
    ensures var k := Least(s.concurrency - |s.running|, |s.queue|);
      && Pump(s).queue == s.queue[k..]
      && forall id :: id in Pump(s).running <==> id in s.running || id in s.queue[..k]
    decreases |s.queue|
  {
    hide PartPath, Start, QueueOk;
    var k := Least(s.concurrency - |s.running|, |s.queue|);
    SlotsFit(s);
    if k == 0 {
      assert s.queue[0..] == s.queue && s.queue[..0] == [];
    } else {
      var next := s.queue[0];
      StartKeepsQueue(s, next);
      var s' := Start(s.(queue := s.queue[1..]), next);
      StartedOne(s, next);
      FirstComeFirstServed(s');
      assert s.queue[1..][k - 1..] == s.queue[k..];
      assert s.queue[..k] == [next] + s.queue[1..][..k - 1];
    }
  }

  lemma SlotsFit(s: State)
    requires QueueOk(s)
    ensures |s.running| <= s.concurrency
  {}

  lemma StartedOne(s: State, id: JobId)
    requires QueueOk(s) && s.queue != [] && s.queue[0] == id && id in s.jobs && s.jobs[id].status == Queued
    ensures var s' := Start(s.(queue := s.queue[1..]), id);
      && s'.queue == s.queue[1..] && s'.concurrency == s.concurrency
      && (forall x :: x in s'.running <==> x in s.running || x == id) && |s'.running| == |s.running| + 1
  {
    assert id !in s.running;
    hide PartPath, BytesOnDisk, QueueOk;
    var started := Running(Opening(BytesOnDisk(s.files, PartPath(s.jobs[id].destination))), false, false);
    OneMoreKey(s.running, id, started);
  }

  lemma OneMoreKey(running: map<JobId, Running>, id: JobId, r: Running)
    requires id !in running
    ensures |running[id := r]| == |running| + 1
  {
    assert running[id := r].Keys == running.Keys + {id};
    assert |running[id := r].Keys| == |running.Keys| + 1;
  }

  /** Taking a row out of the queue leaves the others in their order. */
  lemma {:induction false} OthersKeepTheirPlaces(before: seq<JobId>, id: JobId, after: seq<JobId>)
    requires id !in before && id !in after
    ensures Filter(before + [id] + after, id) == before + after == Filter(before + after, id)
  {
    if before == [] {
      FilterNothing(after, id);
      assert [] + [id] + after == [id] + after && [] + after == after;
      assert ([id] + after)[1..] == after;
    } else {
      OthersKeepTheirPlaces(before[1..], id, after);
      assert (before + [id] + after)[1..] == before[1..] + [id] + after && (before + after)[1..] == before[1..] + after;
      assert before == [before[0]] + before[1..];
    }
  }

  lemma {:induction false} FilterNothing(queue: seq<JobId>, id: JobId)
    requires id !in queue
    ensures Filter(queue, id) == queue
  {
    if queue != [] {
      assert queue[0] in queue;
      FilterNothing(queue[1..], id);
    }
  }

  /** A row that asks, anew or again, goes to the end of the line. */
  lemma LastInLine(lib: Library, s: State, e: Event)
    requires Invariant(lib, s) && Admissible(lib, s, e)
    requires e.Enqueue? || (e.Resume? && e.id in s.jobs && s.jobs[e.id].status in {Paused, Failed, Cancelled})
    ensures var line := s.queue + [e.id];
      var free := s.concurrency - |s.running|;
      Step(s, e).queue == line[Least(free, |line|)..]
  {
    assert e.Enqueue? ==> e.id !in s.jobs;
    hide PartPath, BytesOnDisk, Pump, JobOk, PhaseOk, Free;
    match e {
      case Enqueue(id, file, total, candidates, fallback) =>
        var d := DestinationFor(s, candidates, fallback);
        var s' := s.(jobs := s.jobs[id := Job(file, d, 0, total, Queued)], queue := s.queue + [id]);
        QueuedKeepsQueue(s, s', id);
        FirstComeFirstServed(s');
      case Resume(id) =>
        var received := BytesOnDisk(s.files, PartPath(s.jobs[id].destination));
        var s' := s.(jobs := s.jobs[id := s.jobs[id].(status := Queued, receivedBytes := received)], queue := s.queue + [id]);
        QueuedKeepsQueue(s, s', id);
        FirstComeFirstServed(s');
    }
  }

  /** A row that is not in a slot is paused or cancelled at once: it leaves the line, and only a cancelled
      one loses its partial file. */
  lemma AskedOutsideItsSlot(lib: Library, s: State, id: JobId)
    requires Invariant(lib, s) && id in s.jobs && id !in s.running
    ensures var row := s.jobs[id];
      var paused := Step(s, Pause(id));
      var cancelled := Step(s, Event.Cancel(id));
      && Left(cancelled, id, row.file, row.destination, Cancelled, [])
      && paused.files == s.files && id !in paused.queue && id in paused.jobs
      && paused.jobs[id] == row.(status := if row.status == Queued then Paused else row.status)
  {
    assert id in s.queue ==> s.jobs[id].status == Queued;
    hide PartPath, JobOk, PhaseOk, NoDuplicates;
  }

  /** The first name that is free, or the last resort. */
  lemma {:induction false} FirstFreeName(s: State, candidates: seq<Path>, fallback: Path)
    ensures var d := DestinationFor(s, candidates, fallback);
      || (exists i | 0 <= i < |candidates| :: d == candidates[i] && Free(s, d) && forall j | 0 <= j < i :: !Free(s, candidates[j]))
      || (d == fallback && forall j | 0 <= j < |candidates| :: !Free(s, candidates[j]))
  {
    hide Free;
    if candidates != [] && !Free(s, candidates[0]) {
      FirstFreeName(s, candidates[1..], fallback);
      var d := DestinationFor(s, candidates[1..], fallback);
      if i :| 0 <= i < |candidates| - 1 && d == candidates[1..][i] && Free(s, d) && forall j | 0 <= j < i :: !Free(s, candidates[1..][j]) {
        assert candidates[i + 1] == d;
        forall j | 0 <= j < i + 1 ensures !Free(s, candidates[j]) {
          assert j > 0 ==> candidates[j] == candidates[1..][j - 1];
        }
      } else {
        forall j | 0 <= j < |candidates| ensures !Free(s, candidates[j]) {
          assert j > 0 ==> candidates[j] == candidates[1..][j - 1];
        }
      }
    }
  }

  /** A chunk that arrives is on disk, and a row that reports progress shows what is there. */
  lemma ProgressIsShown(lib: Library, s: State, id: JobId, n: nat, reported: bool)
    requires Invariant(lib, s) && id in s.running && id in s.jobs && s.running[id].phase.Reading? && n <= |s.running[id].phase.body|
    ensures var part := PartPath(s.jobs[id].destination);
      var after := Step(s, Receive(id, n, reported));
      && Held(after.files, part) == Held(s.files, part) + s.running[id].phase.body[..n]
      && id in after.jobs
      && after.jobs[id].receivedBytes == if reported then |Held(after.files, part)| else s.jobs[id].receivedBytes
  {
    assert PhaseOk(lib, s.files, s.jobs[id], s.running[id].phase);
    hide PartPath, Invariant;
  }

  /** After a restart nothing moves: what was moving or waiting is paused, and every row that can be
      resumed shows the bytes that are really there. */
  lemma RestartShowsTheTruth(s: State, kept: map<Path, nat>, id: JobId)
    requires id in s.saved
    ensures var after := Step(s, Restart(kept, true));
      var was := s.saved[id];
      && after.running == map[] && after.queue == [] && id in after.jobs
      && after.jobs[id].file == was.file && after.jobs[id].destination == was.destination
      && (was.status in {Queued, Downloading, Paused} ==> after.jobs[id].status == Paused)
      && (was.status in {Failed, Done, Cancelled} ==> after.jobs[id].status == was.status)
      && (after.jobs[id].status in {Paused, Failed} ==> after.jobs[id].receivedBytes == |Held(after.files, PartPath(was.destination))|)
      && (after.jobs[id].status in {Done, Cancelled} ==> after.jobs[id].receivedBytes == was.receivedBytes)
  {
    hide PartPath, Flushed;
  }
}
