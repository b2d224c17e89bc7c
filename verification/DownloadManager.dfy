/** `DownloadManager` as it is written: maps and a queue updated in place, one method per stretch
    of code between two awaits. Each method is one `Step` of the machine in `Downloads`, so what
    `DownloadSafety` proves about every run is true of this object. */
module DownloadManager {
  import opened Text
  import opened HttpRange
  import opened Downloads

  class Manager {
    var jobs: map<JobId, Job>
    var running: map<JobId, Running>
    var queue: seq<JobId>
    /** The download folder, as far as this object touches it. */
    var disk: Files
    /** What the state file holds, and the list that is on its way there. */
    var saved: map<JobId, Job>
    var saving: Option<map<JobId, Job>>
    const concurrency: nat

    ghost function Model(): State
      reads this
    {
      State(jobs, running, queue, disk, concurrency, saved, saving)
    }

    constructor (disk: Files, concurrency: nat, saved: map<JobId, Job>)
      ensures Model() == Fresh(disk, concurrency).(saved := saved)
    {
      jobs, running, queue := map[], map[], [];
      this.disk := disk;
      this.saved, saving := saved, None;
      this.concurrency := concurrency;
    }

    /** `load`, in a process that has just started over a disk that lost what was not flushed. */
    method Load(readable: bool, ghost before: State, ghost kept: map<Path, nat>)
      requires Model() == Fresh(Flushed(before.files, kept), before.concurrency).(saved := before.saved)
      modifies this`jobs
      ensures Model() == Step(before, Restart(kept, readable))
    {
      if !readable {
        return;
      }
      jobs := map id | id in saved :: Restored(saved[id], disk);
    }

    /** `#persist` when its turn in the chain has come: the list is taken at that moment. */
    method SaveBegins()
      modifies this`saving
      ensures Model() == Step(old(Model()), Event.SaveBegins)
    {
      if saving.None? {
        saving := Some(jobs);
      }
    }

    /** The rename put the list in place. */
    method SaveLands()
      modifies this`saved, this`saving
      ensures Model() == Step(old(Model()), Event.SaveLands)
    {
      if saving.Some? {
        saved, saving := saving.value, None;
      }
    }

    /** Something was thrown on the way, and the code swallows it. */
    method SaveFails()
      modifies this`saving
      ensures Model() == Step(old(Model()), Event.SaveFails)
    {
      saving := None;
    }

    method Enqueue(id: JobId, file: FileKey, total: Option<nat>, candidates: seq<Path>, fallback: Path)
      modifies this`jobs, this`running, this`queue
      ensures Model() == Step(old(Model()), Event.Enqueue(id, file, total, candidates, fallback))
    {
      var destination := DestinationFor(candidates, fallback);
      jobs := jobs[id := Job(file, destination, 0, total, Queued)];
      queue := queue + [id];
      Pump();
    }

    method Pause(id: JobId)
      modifies this`jobs, this`running, this`queue
      ensures Model() == Step(old(Model()), Event.Pause(id))
    {
      if id in running {
        running := running[id := running[id].(paused := true)];
        return;
      }
      if id !in jobs || jobs[id].status != Queued {
        return;
      }
      queue := Filter(queue, id);
      jobs := jobs[id := jobs[id].(status := Paused)];
    }

    method Resume(id: JobId)
      modifies this`jobs, this`running, this`queue
      ensures Model() == Step(old(Model()), Event.Resume(id))
    {
      if id !in jobs {
        return;
      }
      var job := jobs[id];
      if job.status == Downloading || job.status == Queued || job.status == Done {
        return;
      }
      var received := BytesOnDisk(disk, PartPath(job.destination));
      jobs := jobs[id := job.(status := Queued, receivedBytes := received)];
      queue := queue + [id];
      Pump();
    }

    method Cancel(id: JobId)
      modifies this`jobs, this`running, this`queue, this`disk
      ensures Model() == Step(old(Model()), Event.Cancel(id))
    {
      if id in running {
        running := running[id := running[id].(cancelled := true)];
        return;
      }
      if id !in jobs {
        return;
      }
      queue := Filter(queue, id);
      disk := disk - {PartPath(jobs[id].destination)};
      jobs := jobs[id := jobs[id].(status := Cancelled, receivedBytes := 0)];
    }

    /** Fill the free slots from the head of the queue. */
    method Pump()
      modifies this`jobs, this`running, this`queue
      ensures Model() == Downloads.Pump(old(Model()))
    {
      while |running| < concurrency
        invariant Downloads.Pump(Model()) == Downloads.Pump(old(Model()))
        invariant disk == old(disk)
        decreases |queue|
      {
        if queue == [] {
          return;
        }
        var next := queue[0];
        queue := queue[1..];
        if next in jobs && jobs[next].status == Queued {
          Start(next);
        }
      }
    }

    method Start(id: JobId)
      requires id in jobs
      modifies this`jobs, this`running
      ensures Model() == Downloads.Start(old(Model()), id)
    {
      var job := jobs[id];
      running := running[id := Running(Opening(BytesOnDisk(disk, PartPath(job.destination))), false, false)];
      jobs := jobs[id := job.(status := Downloading)];
    }

    /** The `catch` and `finally` of a transfer, which `shown` describes at that moment. */
    method Throw(id: JobId, byCaller: bool)
      requires id in running && id in jobs
      modifies this`jobs, this`running, this`queue, this`disk
      ensures Model() == Downloads.Throw(old(Model()), id, old(jobs)[id], old(disk), byCaller)
    {
      var job := jobs[id];
      var part := PartPath(job.destination);
      if running[id].cancelled {
        disk := disk - {part};
        jobs := jobs[id := job.(status := Cancelled, receivedBytes := 0)];
      } else if running[id].paused || byCaller {
        jobs := jobs[id := job.(status := Paused, receivedBytes := BytesOnDisk(disk, part))];
      } else {
        jobs := jobs[id := job.(status := Failed, receivedBytes := BytesOnDisk(disk, part))];
      }
      running := running - {id};
      Pump();
    }

    method Finish(id: JobId, size: nat)
      requires id in running && id in jobs
      modifies this`jobs, this`running, this`queue, this`disk
      ensures Model() == Downloads.Finish(old(Model()), id, size)
    {
      var job := jobs[id];
      var part := PartPath(job.destination);
      if part !in disk {
        Throw(id, false);
        return;
      }
      disk := disk[job.destination := disk[part]] - {part};
      jobs := jobs[id := job.(status := Done, receivedBytes := size, totalBytes := Some(size))];
      running := running - {id};
      Pump();
    }

    /** The answer has arrived: decide where it starts, and open the sink there or give up. */
    method OnResponse(id: JobId, response: Response)
      requires id in running && id in jobs && running[id].phase.Opening?
      modifies this`jobs, this`running, this`queue, this`disk
      ensures Model() == Step(old(Model()), Respond(id, response))
    {
      hide PartPath, SizeFromHeaders, TotalFromContentRange, StartFromContentRange, Downloads.Throw, Downloads.Finish, BytesOnDisk;
      var part := PartPath(jobs[id].destination);
      var offset := running[id].phase.offset;
      ghost var before := Model();
      if response.status == 416 {
        var total := TotalFromContentRange(response.contentRange);
        if total == Some(offset) {
          Finish(id, offset);
          return;
        }
        disk := disk - {part};
        ThrowForgets(Model(), before, id, jobs[id], disk, false);
        Throw(id, false);
        return;
      }
      if response.status != 200 && response.status != 206 {
        Throw(id, false);
        return;
      }
      var servedFrom := if response.status == 200 then 0
                        else StartFromContentRange(response.contentRange).GetOr(offset);
      if servedFrom != offset {
        disk := disk - {part};
        if servedFrom != 0 {
          ThrowForgets(Model(), before, id, jobs[id], disk, false);
          Throw(id, false);
          return;
        }
        offset := 0;
        jobs := jobs[id := jobs[id].(receivedBytes := 0)];
      }
      var total := SizeFromHeaders(response.contentRange, response.contentLength, offset);
      if total.Some? {
        jobs := jobs[id := jobs[id].(totalBytes := total)];
      }
      ghost var shown := jobs[id];
      assert jobs == before.jobs[id := shown];
      if response.body.None? {
        ThrowForgets(Model(), before, id, shown, disk, false);
        Throw(id, false);
        return;
      }
      disk := disk[part := if offset > 0 && part in disk then disk[part] else []];
      running := running[id := running[id].(phase := Reading(offset, total, response.body.value))];
    }

    method OnChunk(id: JobId, n: nat, reported: bool)
      requires id in running && id in jobs && running[id].phase.Reading? && n <= |running[id].phase.body|
      modifies this`jobs, this`running, this`disk
      ensures Model() == Step(old(Model()), Receive(id, n, reported))
    {
      var Reading(written, total, body) := running[id].phase;
      disk := Append(disk, PartPath(jobs[id].destination), body[..n]);
      written := written + n;
      running := running[id := running[id].(phase := Reading(written, total, body[n..]))];
      if reported {
        jobs := jobs[id := jobs[id].(receivedBytes := written)];
      }
    }

    method OnEnd(id: JobId)
      requires id in running && id in jobs && running[id].phase.Reading?
      modifies this`jobs, this`running, this`queue, this`disk
      ensures Model() == Step(old(Model()), EndOfBody(id))
    {
      var Reading(written, total, _) := running[id].phase;
      if total.Some? && written < total.value {
        ghost var before := Model();
        jobs := jobs[id := jobs[id].(receivedBytes := written)];
        ThrowForgets(Model(), before, id, jobs[id], disk, false);
        Throw(id, false);
        return;
      }
      Finish(id, total.GetOr(written));
    }

    /** Something threw after `n` more bytes of the answer had reached the disk. */
    method OnError(id: JobId, n: nat, byCaller: bool)
      requires id in running && id in jobs
      modifies this`jobs, this`running, this`queue, this`disk
      ensures Model() == Step(old(Model()), Break(id, n, byCaller))
    {
      var phase := running[id].phase;
      ghost var before := Model();
      if phase.Reading? && n <= |phase.body| {
        disk := Append(disk, PartPath(jobs[id].destination), phase.body[..n]);
      }
      ThrowForgets(Model(), before, id, jobs[id], disk, byCaller);
      Throw(id, byCaller);
    }

    /** The first candidate no row and no file has; the last resort is not checked. */
    method DestinationFor(candidates: seq<Path>, fallback: Path) returns (destination: Path)
      ensures destination == Downloads.DestinationFor(Model(), candidates, fallback)
      ensures Free(Model(), destination) || destination == fallback
    {
      for n := 0 to |candidates|
        invariant Downloads.DestinationFor(Model(), candidates, fallback)
               == Downloads.DestinationFor(Model(), candidates[n..], fallback)
      {
        if (forall id | id in jobs && jobs[id].status != Cancelled :: jobs[id].destination != candidates[n])
           && candidates[n] !in disk && PartPath(candidates[n]) !in disk
        {
          return candidates[n];
        }
        assert candidates[n..][1..] == candidates[n + 1..];
      }
      return fallback;
    }
  }

  /** Leaving a slot replaces the whole row and the files, so what they were does not matter. */
  lemma ThrowForgets(s: State, before: State, id: JobId, shown: Job, files: Files, byCaller: bool)
    requires id in s.running && s == before.(jobs := before.jobs[id := shown], files := s.files)
    ensures Downloads.Throw(s, id, shown, files, byCaller) == Downloads.Throw(before, id, shown, files, byCaller)
  {
    forall job: Job, after: Files
      ensures Leave(s, id, job, after) == Leave(before, id, job, after)
    {
      assert before.jobs[id := shown][id := job] == before.jobs[id := job];
    }
  }
}
