/** What the queue leaves alone in the download folder, and what the state file remembers. */
module DownloadFolder {
  import opened Text
  import opened HttpRange
  import opened Downloads
  import opened DownloadSafety
  import opened DownloadOutcomes

  // ─── files that belong to nobody ─────────────────────────────────────────────

  predicate Spares(destination: Path, p: Path) {
    destination != p && PartPath(destination) != p
  }

  /** No row has its finished or its partial file there. */
  ghost predicate Unnamed(jobs: map<JobId, Job>, p: Path) {
    forall id | id in jobs :: Spares(jobs[id].destination, p)
  }

  /** A file the user has there: of no row, nor of one that may come back from the state file. */
  ghost predicate Foreign(s: State, p: Path) {
    && p in s.files && Unnamed(s.jobs, p) && Unnamed(s.saved, p)
    && (s.saving.Some? ==> Unnamed(s.saving.value, p))
  }

  ghost predicate LeftAlone(s: State, s': State, p: Path) {
    Foreign(s', p) && (p in s.files ==> s'.files[p] == s.files[p])
  }

  lemma {:induction false} PumpKeepsDestinations(s: State)
    ensures var s' := Pump(s);
      && s'.files == s.files && s'.saved == s.saved && s'.saving == s.saving
      && (forall id :: id in s'.jobs <==> id in s.jobs)
      && (forall id | id in s.jobs :: s'.jobs[id].destination == s.jobs[id].destination)
    decreases |s.queue|
  {
    hide PartPath, BytesOnDisk;
    if |s.running| < s.concurrency && s.queue != [] {
      var next := s.queue[0];
      var rest := s.(queue := s.queue[1..]);
      if next in s.jobs && s.jobs[next].status == Queued {
        PumpKeepsDestinations(Start(rest, next));
      } else {
        PumpKeepsDestinations(rest);
      }
    }
  }

  lemma PumpLeavesAlone(s: State, p: Path)
    requires Foreign(s, p)
    ensures LeftAlone(s, Pump(s), p)
  {
    hide Pump, PartPath;
    PumpKeepsDestinations(s);
  }

  lemma LeaveLeavesAlone(s: State, id: JobId, job: Job, files: Files, p: Path)
    requires Foreign(s, p) && Spares(job.destination, p) && p in files && files[p] == s.files[p]
    ensures LeftAlone(s, Leave(s, id, job, files), p)
  {
    hide Pump, Spares;
    PumpLeavesAlone(s.(files := files, jobs := s.jobs[id := job], running := s.running - {id}), p);
  }

  lemma ThrowLeavesAlone(s: State, id: JobId, job: Job, files: Files, byCaller: bool, p: Path)
    requires id in s.running && Foreign(s, p) && Spares(job.destination, p) && p in files && files[p] == s.files[p]
    ensures LeftAlone(s, Throw(s, id, job, files, byCaller), p)
  {
    hide Leave, Foreign, LeftAlone, PartPath;
    var part := PartPath(job.destination);
    var status := if s.running[id].paused || byCaller then Paused else Failed;
    LeaveLeavesAlone(s, id, job.(status := Cancelled, receivedBytes := 0), Without(files, part), p);
    LeaveLeavesAlone(s, id, job.(status := status, receivedBytes := BytesOnDisk(files, part)), files, p);
  }

  lemma FinishLeavesAlone(s: State, id: JobId, size: nat, p: Path)
    requires id in s.running && id in s.jobs && Foreign(s, p)
    ensures LeftAlone(s, Finish(s, id, size), p)
  {
    var job := s.jobs[id];
    assert Spares(job.destination, p) && p in s.files;
    hide Leave, Throw, Foreign, LeftAlone, PartPath;
    var part := PartPath(job.destination);
    ThrowLeavesAlone(s, id, job, s.files, false, p);
    if part in s.files {
      LeaveLeavesAlone(s, id, job.(status := Done, receivedBytes := size, totalBytes := Some(size)),
                       Without(s.files[job.destination := s.files[part]], part), p);
    }
  }

  lemma RefusalLeavesAlone(s: State, id: JobId, response: Response, p: Path)
    requires id in s.running && id in s.jobs && s.running[id].phase.Opening? && Foreign(s, p)
    requires response.status !in {200, 206}
    ensures LeftAlone(s, RespondTo(s, id, response), p)
  {
    var job := s.jobs[id];
    assert Spares(job.destination, p) && p in s.files;
    hide Finish, Throw, PartPath, Foreign, LeftAlone, SizeFromHeaders, TotalFromContentRange, StartFromContentRange;
    FinishLeavesAlone(s, id, s.running[id].phase.offset, p);
    ThrowLeavesAlone(s, id, job, Without(s.files, PartPath(job.destination)), false, p);
    ThrowLeavesAlone(s, id, job, s.files, false, p);
  }

  lemma ContentLeavesAlone(s: State, id: JobId, response: Response, p: Path)
    requires id in s.running && id in s.jobs && s.running[id].phase.Opening? && Foreign(s, p)
    requires response.status in {200, 206}
    ensures LeftAlone(s, RespondTo(s, id, response), p)
  {
    var job := s.jobs[id];
    assert Spares(job.destination, p) && p in s.files;
    var part := PartPath(job.destination);
    assert part != p;
    hide Throw, PartPath, Foreign, LeftAlone, Spares, SizeFromHeaders, TotalFromContentRange, StartFromContentRange;
    var offset := s.running[id].phase.offset;
    var servedFrom := if response.status == 200 then 0 else StartFromContentRange(response.contentRange).GetOr(offset);
    var total := SizeFromHeaders(response.contentRange, response.contentLength, servedFrom);
    var files := if servedFrom != offset then Without(s.files, part) else s.files;
    var shown := job.(receivedBytes := if servedFrom != offset then 0 else job.receivedBytes,
                      totalBytes := if total.Some? then total else job.totalBytes);
    ThrowLeavesAlone(s, id, job, Without(s.files, part), false, p);
    ThrowLeavesAlone(s, id, shown, files, false, p);
    if response.body.Some? {
      var start := if servedFrom > 0 && part in files then files[part] else [];
      OpenedLeavesAlone(s, id, shown, Reading(servedFrom, total, response.body.value), files[part := start], p);
    }
  }

  lemma OpenedLeavesAlone(s: State, id: JobId, job: Job, phase: Phase, files: Files, p: Path)
    requires id in s.running && Foreign(s, p) && Spares(job.destination, p) && p in files && files[p] == s.files[p]
    ensures LeftAlone(s, s.(files := files, jobs := s.jobs[id := job], running := s.running[id := s.running[id].(phase := phase)]), p)
  {
    hide Spares;
  }

  lemma TransferLeavesAlone(s: State, e: Event, p: Path)
    requires e.Receive? || e.EndOfBody? || e.Break?
    requires Foreign(s, p)
    ensures LeftAlone(s, Step(s, e), p)
  {
    hide Finish, Throw, PartPath;
    if e.id in s.running && e.id in s.jobs {
      var job := s.jobs[e.id];
      var phase := s.running[e.id].phase;
      assert Spares(job.destination, p);
      match e
      case EndOfBody(id) =>
        if phase.Reading? {
          ThrowLeavesAlone(s, id, job.(receivedBytes := phase.written), s.files, false, p);
          FinishLeavesAlone(s, id, phase.total.GetOr(phase.written), p);
        }
      case Break(id, n, byCaller) =>
        ThrowLeavesAlone(s, id, job, s.files, byCaller, p);
        if phase.Reading? && n <= |phase.body| {
          ThrowLeavesAlone(s, id, job, Append(s.files, PartPath(job.destination), phase.body[..n]), byCaller, p);
        }
      case _ =>
    }
  }

  lemma ClaimsNoFile(s: State, candidates: seq<Path>, fallback: Path, p: Path)
    requires p in s.files && (exists candidate | candidate in candidates :: Free(s, candidate))
    ensures Spares(DestinationFor(s, candidates, fallback), p)
  {
    var candidate :| candidate in candidates && Free(s, candidate);
    var k :| 0 <= k < |candidates| && candidates[k] == candidate;
    FirstFreeName(s, candidates, fallback);
    assert Free(s, DestinationFor(s, candidates, fallback));
    hide DestinationFor;
  }

  /** A new row takes over a file that is already there only when no candidate is free and the last
      resort happens to be its name. */
  lemma TakesOverExactlyWhen(s: State, id: JobId, file: FileKey, total: Option<nat>, candidates: seq<Path>, fallback: Path, p: Path)
    requires Foreign(s, p) && id !in s.jobs
    ensures LeftAlone(s, Step(s, Enqueue(id, file, total, candidates, fallback)), p)
       <==> (exists candidate | candidate in candidates :: Free(s, candidate)) || Spares(fallback, p)
  {
    var d := DestinationFor(s, candidates, fallback);
    var queued := s.(jobs := s.jobs[id := Job(file, d, 0, total, Queued)], queue := s.queue + [id]);
    PumpKeepsDestinations(queued);
    if candidate :| candidate in candidates && Free(s, candidate) {
      ClaimsNoFile(s, candidates, fallback, p);
    } else {
      assert d == fallback;
    }
    hide Free, Pump, PartPath, DestinationFor, Spares;
    var after := Pump(queued);
    assert id in after.jobs && after.jobs[id].destination == d;
    if Spares(d, p) {
      PumpLeavesAlone(queued, p);
    }
  }

  lemma CallerLeavesAlone(s: State, e: Event, p: Path)
    requires e.Pause? || e.Resume? || e.Cancel?
    requires Foreign(s, p)
    ensures LeftAlone(s, Step(s, e), p)
  {
    hide PartPath, Pump, Filter;
    match e {
      case Resume(id) =>
        if id in s.jobs && s.jobs[id].status !in {Downloading, Queued, Done} {
          var received := BytesOnDisk(s.files, PartPath(s.jobs[id].destination));
          PumpLeavesAlone(s.(jobs := s.jobs[id := s.jobs[id].(status := Queued, receivedBytes := received)], queue := s.queue + [id]), p);
        }
      case _ =>
    }
  }

  lemma AppLeavesAlone(s: State, e: Event, p: Path)
    requires e.SaveBegins? || e.SaveLands? || e.SaveFails? || e.Restart?
    requires Foreign(s, p) && (e.Restart? ==> p !in e.kept)
    ensures LeftAlone(s, Step(s, e), p)
  {
    hide PartPath;
  }

  /** The events whose name the queue does not choose keep away from `p`. */
  ghost predicate KeepsAway(s: State, e: Event, p: Path) {
    match e
    case Enqueue(id, _, _, candidates, fallback) =>
      id !in s.jobs && ((exists candidate | candidate in candidates :: Free(s, candidate)) || Spares(fallback, p))
    case Restart(kept, _) => p !in kept
    case _ => true
  }

  ghost predicate RunKeepsAway(s: State, events: seq<Event>, p: Path)
    decreases |events|
  {
    events == [] || (KeepsAway(s, events[0], p) && RunKeepsAway(Step(s, events[0]), events[1..], p))
  }

  lemma StepLeavesAlone(s: State, e: Event, p: Path)
    requires Foreign(s, p) && KeepsAway(s, e, p)
    ensures LeftAlone(s, Step(s, e), p)
  {
    match e {
      case Enqueue(id, file, total, candidates, fallback) => TakesOverExactlyWhen(s, id, file, total, candidates, fallback, p);
      case Respond(id, response) =>
        if id in s.running && id in s.jobs && s.running[id].phase.Opening? {
          if response.status in {200, 206} {
            ContentLeavesAlone(s, id, response, p);
          } else {
            RefusalLeavesAlone(s, id, response, p);
          }
        }
      case Pause(_) => CallerLeavesAlone(s, e, p);
      case Resume(_) => CallerLeavesAlone(s, e, p);
      case Cancel(_) => CallerLeavesAlone(s, e, p);
      case Receive(_, _, _) => TransferLeavesAlone(s, e, p);
      case EndOfBody(_) => TransferLeavesAlone(s, e, p);
      case Break(_, _, _) => TransferLeavesAlone(s, e, p);
      case _ => AppLeavesAlone(s, e, p);
    }
  }

  /** Nothing in the download folder is ever overwritten: a file that no row named is there unchanged
      after any run, whatever servers answer, whatever breaks and whatever is cancelled, as long as no
      row had to take the last resort for a name and that was the file's. */
  lemma {:induction false} NothingIsOverwritten(s: State, events: seq<Event>, p: Path)
    requires Foreign(s, p) && RunKeepsAway(s, events, p)
    ensures LeftAlone(s, Run(s, events), p)
    decreases |events|
  {
    hide Step, KeepsAway;
    if events != [] {
      StepLeavesAlone(s, events[0], p);
      NothingIsOverwritten(Step(s, events[0]), events[1..], p);
    }
  }

  // ─── the end of a body, without trusting the server ──────────────────────────

  /** A body is taken for the whole file exactly when it is not shorter than was promised, or nothing
      was; the file is then what arrived. */
  lemma FinishedExactlyWhenNotShort(s: State, id: JobId)
    requires id in s.running && id in s.jobs && s.running[id].phase.Reading?
    requires PartPath(s.jobs[id].destination) in s.files
    ensures var row := s.jobs[id];
      var phase := s.running[id].phase;
      var after := Step(s, EndOfBody(id));
      && id in after.jobs
      && (after.jobs[id].status == Done <==> phase.total.None? || phase.written >= phase.total.value)
      && (after.jobs[id].status == Done ==>
            row.destination in after.files && after.files[row.destination] == s.files[PartPath(row.destination)])
  {
    var row := s.jobs[id];
    var part := PartPath(row.destination);
    assert |part| == |row.destination| + 7;
    hide PartPath, Pump;
    var phase := s.running[id].phase;
    var status := if s.running[id].cancelled then Cancelled else if s.running[id].paused then Paused else Failed;
    Dropped(s, id, row.(status := Cancelled, receivedBytes := 0), Without(s.files, part));
    Dropped(s, id, row.(status := status, receivedBytes := BytesOnDisk(s.files, part)), s.files);
    var size := phase.total.GetOr(phase.written);
    Dropped(s, id, row.(status := Done, receivedBytes := size, totalBytes := Some(size)),
            Without(s.files[row.destination := s.files[part]], part));
  }

  lemma Dropped(s: State, id: JobId, job: Job, files: Files)
    requires job.status != Queued
    ensures var s' := Leave(s, id, job, files);
      s'.files == files && id in s'.jobs && s'.jobs[id] == job
  {
    hide PartPath, Pump;
    var left := s.(files := files, jobs := s.jobs[id := job], running := s.running - {id});
    PumpKeepsDestinations(left);
    PumpTouchesOnlyTheQueue(left, id);
  }

  // ─── the state file ──────────────────────────────────────────────────────────

  predicate Quiet(events: seq<Event>) {
    forall e | e in events :: !e.SaveLands? && !e.SaveFails? && !e.Restart?
  }

  predicate SameRecord(a: State, b: State) {
    a.saved == b.saved && a.saving == b.saving
  }

  lemma LeavingKeepsTheRecord(s: State, id: JobId, job: Job, files: Files)
    ensures SameRecord(Leave(s, id, job, files), s)
  {
    hide Pump, PartPath;
    PumpKeepsDestinations(s.(files := files, jobs := s.jobs[id := job], running := s.running - {id}));
  }

  lemma ThrowingKeepsTheRecord(s: State, id: JobId, job: Job, files: Files, byCaller: bool)
    requires id in s.running
    ensures SameRecord(Throw(s, id, job, files, byCaller), s)
  {
    hide Leave, PartPath, SameRecord;
    var part := PartPath(job.destination);
    var status := if s.running[id].paused || byCaller then Paused else Failed;
    LeavingKeepsTheRecord(s, id, job.(status := Cancelled, receivedBytes := 0), Without(files, part));
    LeavingKeepsTheRecord(s, id, job.(status := status, receivedBytes := BytesOnDisk(files, part)), files);
  }

  lemma FinishingKeepsTheRecord(s: State, id: JobId, size: nat)
    requires id in s.running && id in s.jobs
    ensures SameRecord(Finish(s, id, size), s)
  {
    hide Leave, Throw, PartPath, SameRecord;
    var job := s.jobs[id];
    var part := PartPath(job.destination);
    ThrowingKeepsTheRecord(s, id, job, s.files, false);
    if part in s.files {
      LeavingKeepsTheRecord(s, id, job.(status := Done, receivedBytes := size, totalBytes := Some(size)),
                            Without(s.files[job.destination := s.files[part]], part));
    }
  }

  lemma AnswerKeepsTheRecord(s: State, id: JobId, response: Response)
    requires id in s.running && id in s.jobs && s.running[id].phase.Opening?
    ensures SameRecord(RespondTo(s, id, response), s)
  {
    hide Finish, Throw, PartPath, SizeFromHeaders, TotalFromContentRange, StartFromContentRange;
    var job := s.jobs[id];
    var part := PartPath(job.destination);
    var offset := s.running[id].phase.offset;
    var servedFrom := if response.status == 200 then 0 else StartFromContentRange(response.contentRange).GetOr(offset);
    var total := SizeFromHeaders(response.contentRange, response.contentLength, servedFrom);
    var files := if servedFrom != offset then Without(s.files, part) else s.files;
    var shown := job.(receivedBytes := if servedFrom != offset then 0 else job.receivedBytes,
                      totalBytes := if total.Some? then total else job.totalBytes);
    FinishingKeepsTheRecord(s, id, offset);
    ThrowingKeepsTheRecord(s, id, job, Without(s.files, part), false);
    ThrowingKeepsTheRecord(s, id, job, s.files, false);
    ThrowingKeepsTheRecord(s, id, shown, files, false);
  }

  lemma TransferKeepsTheRecord(s: State, e: Event)
    requires e.Receive? || e.EndOfBody? || e.Break?
    ensures SameRecord(Step(s, e), s)
  {
    hide Finish, Throw, PartPath;
    if e.id in s.running && e.id in s.jobs {
      var job := s.jobs[e.id];
      var phase := s.running[e.id].phase;
      match e
      case EndOfBody(id) =>
        if phase.Reading? {
          ThrowingKeepsTheRecord(s, id, job.(receivedBytes := phase.written), s.files, false);
          FinishingKeepsTheRecord(s, id, phase.total.GetOr(phase.written));
        }
      case Break(id, n, byCaller) =>
        ThrowingKeepsTheRecord(s, id, job, s.files, byCaller);
        if phase.Reading? && n <= |phase.body| {
          ThrowingKeepsTheRecord(s, id, job, Append(s.files, PartPath(job.destination), phase.body[..n]), byCaller);
        }
      case _ =>
    }
  }

  lemma CallerKeepsTheRecord(s: State, e: Event)
    requires e.Enqueue? || e.Pause? || e.Resume? || e.Cancel?
    ensures SameRecord(Step(s, e), s)
  {
    hide PartPath, Pump, Filter, DestinationFor;
    match e {
      case Enqueue(id, file, total, candidates, fallback) =>
        var d := DestinationFor(s, candidates, fallback);
        PumpKeepsDestinations(s.(jobs := s.jobs[id := Job(file, d, 0, total, Queued)], queue := s.queue + [id]));
      case Resume(id) =>
        if id in s.jobs && s.jobs[id].status !in {Downloading, Queued, Done} {
          var received := BytesOnDisk(s.files, PartPath(s.jobs[id].destination));
          PumpKeepsDestinations(s.(jobs := s.jobs[id := s.jobs[id].(status := Queued, receivedBytes := received)], queue := s.queue + [id]));
        }
      case _ =>
    }
  }

  /** Only the writes themselves and a restart touch what is recorded. */
  lemma MovesKeepTheRecord(s: State, e: Event)
    requires !e.SaveBegins? && !e.SaveLands? && !e.SaveFails? && !e.Restart?
    ensures SameRecord(Step(s, e), s)
  {
    hide RespondTo;
    match e {
      case Respond(id, response) =>
        if id in s.running && id in s.jobs && s.running[id].phase.Opening? {
          AnswerKeepsTheRecord(s, id, response);
        }
      case Receive(_, _, _) => TransferKeepsTheRecord(s, e);
      case EndOfBody(_) => TransferKeepsTheRecord(s, e);
      case Break(_, _, _) => TransferKeepsTheRecord(s, e);
      case _ => CallerKeepsTheRecord(s, e);
    }
  }

  lemma {:induction false} TheListIsHeld(s: State, events: seq<Event>)
    requires s.saving.Some? && Quiet(events)
    ensures Run(s, events).saving == s.saving && Run(s, events).saved == s.saved
    decreases |events|
  {
    hide Step;
    if events != [] {
      assert events[0] in events && forall e | e in events[1..] :: e in events;
      if events[0].SaveBegins? {
        BeginsOnce(s);
      } else {
        MovesKeepTheRecord(s, events[0]);
      }
      TheListIsHeld(Step(s, events[0]), events[1..]);
    }
  }

  lemma BeginsOnce(s: State)
    ensures s.saving.Some? ==> Step(s, SaveBegins) == s
    ensures s.saving.None? ==> Step(s, SaveBegins) == s.(saving := Some(s.jobs))
  {}

  lemma LandsOrFails(s: State)
    requires s.saving.Some?
    ensures Step(s, SaveLands) == s.(saved := s.saving.value, saving := None)
    ensures Step(s, SaveFails) == s.(saving := None)
  {}

  /** Writes of the state file do not mix: whatever happens while one is under way, it replaces the file
      with the rows as they were when it began, or leaves it as it was; then the next may begin. */
  lemma OneListAtATime(s: State, events: seq<Event>)
    requires s.saving.None? && Quiet(events)
    ensures var during := Run(Step(s, SaveBegins), events);
      && Step(during, SaveLands).saved == s.jobs && Step(during, SaveLands).saving.None?
      && Step(during, SaveFails).saved == s.saved && Step(during, SaveFails).saving.None?
  {
    hide Step, Run;
    BeginsOnce(s);
    TheListIsHeld(Step(s, SaveBegins), events);
    LandsOrFails(Run(Step(s, SaveBegins), events));
  }

  /** An app that dies again before it wrote anything comes back as it was, and never with more bytes
      than reached the disk. */
  lemma RestartAgain(s: State, kept: map<Path, nat>, p: Path)
    ensures Step(Step(s, Restart(kept, true)), Restart(map[], true)) == Step(s, Restart(kept, true))
    ensures var files := Step(s, Restart(kept, true)).files;
      && (p in files <==> p in s.files)
      && (p in files ==> files[p] == if p in kept && kept[p] <= |s.files[p]| then s.files[p][..kept[p]] else s.files[p])
  {
    hide PartPath;
    var files := Flushed(s.files, kept);
    assert Flushed(files, map[]) == files;
  }
}
