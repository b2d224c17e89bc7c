/** The resumable transfer queue of the Windows client
    (`apps/desktop-client/src/main/downloads.ts`), as a state machine over its await points.

    One `Event` is what happens between two awaits: a call from the window, an answer from a
    server, a chunk that reached the disk, a failure, a restart of the app. */
module Downloads {
  import opened Text
  import opened HttpRange

  type JobId = string
  type Path = string
  type FileKey = (string, string)
  /** What each server holds under each file id. Nothing here changes it. */
  type Library = map<FileKey, seq<byte>>

  const PART_SUFFIX: string := ".lcpart"

  function PartPath(destination: Path): Path {
    destination + PART_SUFFIX
  }

  datatype Status = Queued | Downloading | Paused | Failed | Done | Cancelled

  datatype Job = Job(
    file: FileKey,
    destination: Path,
    receivedBytes: nat,
    totalBytes: Option<nat>,
    status: Status)
  {
    /** The rows `#destinationFor` counts as holding on to their destination. */
    predicate Live() {
      status != Cancelled
    }
  }

  datatype Phase =
    | Opening(offset: nat)
    /** `body` is what this answer has still to deliver. */
    | Reading(written: nat, total: Option<nat>, body: seq<byte>)

  datatype Running = Running(phase: Phase, paused: bool, cancelled: bool)

  type Files = map<Path, seq<byte>>

  /** `saved` is what the state file holds, `saving` the list a write in progress was made from. */
  datatype State = State(
    jobs: map<JobId, Job>,
    running: map<JobId, Running>,
    queue: seq<JobId>,
    files: Files,
    concurrency: nat,
    saved: map<JobId, Job>,
    saving: Option<map<JobId, Job>>)

  datatype Response = Response(
    status: nat,
    contentRange: Option<string>,
    contentLength: Option<string>,
    body: Option<seq<byte>>)

  datatype Event =
    | Enqueue(id: JobId, file: FileKey, total: Option<nat>, candidates: seq<Path>, fallback: Path)
    | Pause(id: JobId)
    | Resume(id: JobId)
    | Cancel(id: JobId)
    | Respond(id: JobId, response: Response)
    /** One read brought `n` bytes; the throttle may or may not let the row show it. */
    | Receive(id: JobId, n: nat, reported: bool)
    | EndOfBody(id: JobId)
    /** The transfer threw after `n` more bytes had reached the disk. */
    | Break(id: JobId, n: nat, byCaller: bool)
    /** The next write in the chain of `#persist` takes its list. */
    | SaveBegins
    | SaveLands
    /** A write that fails is dropped without a word. */
    | SaveFails
    /** The app died and was started again. `kept` is how much of each partial file had been
        flushed, where that is less than what was written; `readable` is false when the state
        file could not be read. */
    | Restart(kept: map<Path, nat>, readable: bool)

  // ─── the moves ───────────────────────────────────────────────────────────────

  function BytesOnDisk(files: Files, path: Path): nat {
    if path in files then |files[path]| else 0
  }

  function Without(files: Files, path: Path): Files {
    files - {path}
  }

  /** `#run` up to its first await. */
  function Start(s: State, id: JobId): State
    requires id in s.jobs
  {
    var job := s.jobs[id];
    s.(jobs := s.jobs[id := job.(status := Downloading)],
       running := s.running[id := Running(Opening(BytesOnDisk(s.files, PartPath(job.destination))), false, false)])
  }

  function Pump(s: State): State
    decreases |s.queue|
  {
    if |s.running| >= s.concurrency || s.queue == [] then s
    else
      var next := s.queue[0];
      var rest := s.(queue := s.queue[1..]);
      if next in s.jobs && s.jobs[next].status == Queued then Pump(Start(rest, next)) else Pump(rest)
  }

  /** Row `id` gives up its slot as `job`, leaving `files` behind; the queue moves on. */
  function Leave(s: State, id: JobId, job: Job, files: Files): State {
    Pump(s.(files := files, jobs := s.jobs[id := job], running := s.running - {id}))
  }

  /** The `catch` and `finally` of `#run`, for a row last seen as `job`. */
  function Throw(s: State, id: JobId, job: Job, files: Files, byCaller: bool): State
    requires id in s.running
  {
    var part := PartPath(job.destination);
    if s.running[id].cancelled then
      Leave(s, id, job.(status := Cancelled, receivedBytes := 0), Without(files, part))
    else
      var status := if s.running[id].paused || byCaller then Paused else Failed;
      Leave(s, id, job.(status := status, receivedBytes := BytesOnDisk(files, part)), files)
  }

  /** `#finish`; `renameSync` throws when there is nothing to rename. */
  function Finish(s: State, id: JobId, size: nat): State
    requires id in s.running && id in s.jobs
  {
    var job := s.jobs[id];
    var part := PartPath(job.destination);
    if part !in s.files then Throw(s, id, job, s.files, false)
    else
      Leave(s, id, job.(status := Done, receivedBytes := size, totalBytes := Some(size)),
            Without(s.files[job.destination := s.files[part]], part))
  }

  predicate Free(s: State, candidate: Path) {
    && (forall id | id in s.jobs && s.jobs[id].Live() :: s.jobs[id].destination != candidate)
    && candidate !in s.files
    && PartPath(candidate) !in s.files
  }

  function DestinationFor(s: State, candidates: seq<Path>, fallback: Path): (d: Path)
    ensures (d in candidates && Free(s, d)) || d == fallback
  {
    if candidates == [] then fallback
    else if Free(s, candidates[0]) then candidates[0]
    else DestinationFor(s, candidates[1..], fallback)
  }

  function EnqueueJob(s: State, id: JobId, file: FileKey, total: Option<nat>, destination: Path): State {
    Pump(s.(jobs := s.jobs[id := Job(file, destination, 0, total, Queued)], queue := s.queue + [id]))
  }

  function Filter(queue: seq<JobId>, id: JobId): (r: seq<JobId>)
    ensures forall x :: x in r <==> x in queue && x != id
  {
    if queue == [] then []
    else
      var rest := Filter(queue[1..], id);
      if queue[0] == id then rest else [queue[0]] + rest
  }

  predicate NoDuplicates(queue: seq<JobId>) {
    forall i, j | 0 <= i < j < |queue| :: queue[i] != queue[j]
  }

  function PauseJob(s: State, id: JobId): State {
    if id in s.running then s.(running := s.running[id := s.running[id].(paused := true)])
    else if id in s.jobs && s.jobs[id].status == Queued then
      s.(queue := Filter(s.queue, id), jobs := s.jobs[id := s.jobs[id].(status := Paused)])
    else s
  }

  function ResumeJob(s: State, id: JobId): State {
    if id !in s.jobs || s.jobs[id].status in {Downloading, Queued, Done} then s
    else
      var job := s.jobs[id];
      var received := BytesOnDisk(s.files, PartPath(job.destination));
      Pump(s.(jobs := s.jobs[id := job.(status := Queued, receivedBytes := received)], queue := s.queue + [id]))
  }

  function CancelJob(s: State, id: JobId): State {
    if id in s.running then s.(running := s.running[id := s.running[id].(cancelled := true)])
    else if id in s.jobs then
      s.(queue := Filter(s.queue, id),
         files := Without(s.files, PartPath(s.jobs[id].destination)),
         jobs := s.jobs[id := s.jobs[id].(status := Cancelled, receivedBytes := 0)])
    else s
  }

  /** `#transfer` from the answer to the first read. */
  function RespondTo(s: State, id: JobId, response: Response): State
    requires id in s.running && id in s.jobs && s.running[id].phase.Opening?
  {
    var job := s.jobs[id];
    var part := PartPath(job.destination);
    var offset := s.running[id].phase.offset;
    if response.status == 416 then
      if TotalFromContentRange(response.contentRange) == Some(offset) then Finish(s, id, offset)
      else Throw(s, id, job, Without(s.files, part), false)
    else if response.status != 200 && response.status != 206 then Throw(s, id, job, s.files, false)
    else
      var servedFrom := if response.status == 200 then 0
                        else StartFromContentRange(response.contentRange).GetOr(offset);
      if servedFrom != offset && servedFrom != 0 then Throw(s, id, job, Without(s.files, part), false)
      else
        var files := if servedFrom != offset then Without(s.files, part) else s.files;
        var received := if servedFrom != offset then 0 else job.receivedBytes;
        var total := SizeFromHeaders(response.contentRange, response.contentLength, servedFrom);
        var shown := job.(receivedBytes := received, totalBytes := if total.Some? then total else job.totalBytes);
        if response.body.None? then Throw(s, id, shown, files, false)
        else
          // Flag `a` keeps what is there, flag `w` truncates.
          var start := if servedFrom > 0 && part in files then files[part] else [];
          s.(files := files[part := start],
             jobs := s.jobs[id := shown],
             running := s.running[id := s.running[id].(phase := Reading(servedFrom, total, response.body.value))])
  }

  function Append(files: Files, part: Path, bytes: seq<byte>): Files {
    files[part := (if part in files then files[part] else []) + bytes]
  }

  /** One turn of the read loop. */
  function ReceiveChunk(s: State, id: JobId, n: nat, reported: bool): State
    requires id in s.running && id in s.jobs && s.running[id].phase.Reading?
    requires n <= |s.running[id].phase.body|
  {
    var job := s.jobs[id];
    var phase := s.running[id].phase;
    var written := phase.written + n;
    s.(files := Append(s.files, PartPath(job.destination), phase.body[..n]),
       running := s.running[id := s.running[id].(phase := Reading(written, phase.total, phase.body[n..]))],
       jobs := s.jobs[id := if reported then job.(receivedBytes := written) else job])
  }

  function EndBody(s: State, id: JobId): State
    requires id in s.running && id in s.jobs && s.running[id].phase.Reading?
  {
    var phase := s.running[id].phase;
    if phase.total.Some? && phase.written < phase.total.value then
      Throw(s, id, s.jobs[id].(receivedBytes := phase.written), s.files, false)
    else Finish(s, id, phase.total.GetOr(phase.written))
  }

  function BreakOff(s: State, id: JobId, n: nat, byCaller: bool): State
    requires id in s.running && id in s.jobs
  {
    var job := s.jobs[id];
    var phase := s.running[id].phase;
    if phase.Reading? && n <= |phase.body| then
      Throw(s, id, job, Append(s.files, PartPath(job.destination), phase.body[..n]), byCaller)
    else Throw(s, id, job, s.files, byCaller)
  }

  function Flushed(files: Files, kept: map<Path, nat>): Files {
    map p | p in files :: if p in kept && kept[p] <= |files[p]| then files[p][..kept[p]] else files[p]
  }

  /** `load` on one row of the record. */
  function Restored(job: Job, files: Files): Job {
    var status := if job.status == Downloading || job.status == Queued then Paused else job.status;
    var received := if status == Paused || status == Failed
                    then BytesOnDisk(files, PartPath(job.destination)) else job.receivedBytes;
    job.(status := status, receivedBytes := received)
  }

  function RestartFrom(s: State, kept: map<Path, nat>, readable: bool): State {
    var files := Flushed(s.files, kept);
    State(if readable then map id | id in s.saved :: Restored(s.saved[id], files) else map[],
          map[], [], files, s.concurrency, s.saved, None)
  }

  function Step(s: State, e: Event): State {
    match e
    case Enqueue(id, file, total, candidates, fallback) =>
      EnqueueJob(s, id, file, total, DestinationFor(s, candidates, fallback))
    case Pause(id) => PauseJob(s, id)
    case Resume(id) => ResumeJob(s, id)
    case Cancel(id) => CancelJob(s, id)
    case Respond(id, response) =>
      if id in s.running && id in s.jobs && s.running[id].phase.Opening? then RespondTo(s, id, response) else s
    case Receive(id, n, reported) =>
      if id in s.running && id in s.jobs && s.running[id].phase.Reading? && n <= |s.running[id].phase.body|
      then ReceiveChunk(s, id, n, reported) else s
    case EndOfBody(id) =>
      if id in s.running && id in s.jobs && s.running[id].phase.Reading? then EndBody(s, id) else s
    case Break(id, n, byCaller) =>
      if id in s.running && id in s.jobs then BreakOff(s, id, n, byCaller) else s
    case SaveBegins => if s.saving.None? then s.(saving := Some(s.jobs)) else s
    case SaveLands => if s.saving.Some? then s.(saved := s.saving.value, saving := None) else s
    case SaveFails => s.(saving := None)
    case Restart(kept, readable) => RestartFrom(s, kept, readable)
  }

  function Run(s: State, events: seq<Event>): State
    decreases |events|
  {
    if events == [] then s else Run(Step(s, events[0]), events[1..])
  }

  /** The app as it starts: no rows, whatever files happen to be lying around. */
  function Fresh(files: Files, concurrency: nat): State {
    State(map[], map[], [], files, concurrency, map[], None)
  }

  // ─── what is asked of the surroundings ───────────────────────────────────────

  /** A server that says nothing untrue about the file: it may send all of it, a slice that
      starts anywhere, refuse the range, or answer something else, and it may stop early. */
  ghost predicate Truthful(lib: Library, file: FileKey, response: Response) {
    if response.status == 200 then
      && file in lib
      && SizeFromHeaders(response.contentRange, response.contentLength, 0) == Some(|lib[file]|)
      && (response.body.Some? ==> response.body.value <= lib[file])
    else if response.status == 206 then
      && file in lib
      && TotalFromContentRange(response.contentRange) == Some(|lib[file]|)
      && var start := StartFromContentRange(response.contentRange);
      && start.Some? && start.value <= |lib[file]|
      && (response.body.Some? ==> response.body.value <= lib[file][start.value..])
    else response.status == 416 ==>
      && file in lib
      && TotalFromContentRange(response.contentRange) == Some(|lib[file]|)
  }

  /** No live row but `id` has a file where a row with this destination would have one. */
  ghost predicate NoClash(s: State, id: JobId, destination: Path) {
    forall other | other in s.jobs && other != id && s.jobs[other].Live() :: Apart(s.jobs[other].destination, destination)
  }

  /** The two files of one destination and the two of another are four. */
  predicate Apart(a: Path, b: Path) {
    a != b && PartPath(a) != b && a != PartPath(b)
  }

  /** What lies at the partial path, if anything, is a prefix of the source. */
  predicate PartFits(lib: Library, files: Files, file: FileKey, destination: Path) {
    PartPath(destination) in files ==> file in lib && files[PartPath(destination)] <= lib[file]
  }

  /** A row may take this destination: nobody's files meet it and no foreign bytes lie there. */
  ghost predicate Claimable(lib: Library, s: State, id: JobId, file: FileKey, destination: Path) {
    NoClash(s, id, destination) && PartFits(lib, s.files, file, destination)
  }

  /** Cancelling removes a partial file: of a row that is cancelled already, perhaps somebody else's. */
  ghost predicate HarmlessToCancel(s: State, id: JobId) {
    id in s.jobs && id !in s.running && s.jobs[id].status == Cancelled ==>
      forall other | other in s.jobs && other != id && s.jobs[other].Live() :: Spared(s, s.jobs[id].destination, other)
  }

  /** Row `other` relies on nothing that lies at the partial path of this destination. */
  predicate Spared(s: State, destination: Path, other: JobId)
    requires other in s.jobs
  {
    && (s.jobs[other].destination == destination && other in s.running ==> s.running[other].phase == Opening(0))
    && (s.jobs[other].destination == PartPath(destination) ==> s.jobs[other].status != Done)
  }

  /** The app that died still held the saved row in this sense, so what it knew of its files counts. */
  predicate HeldLive(s: State, id: JobId)
    requires id in s.saved
  {
    && id in s.jobs && s.jobs[id].Live()
    && s.jobs[id].file == s.saved[id].file && s.jobs[id].destination == s.saved[id].destination
  }

  predicate HeldDone(s: State, id: JobId)
    requires id in s.saved
  {
    HeldLive(s, id) && s.jobs[id].status == Done
  }

  /** What the state file says of rows the app had meanwhile given up, or finished and given up, is
      still true of the disk. */
  ghost predicate StaleRowsFit(lib: Library, s: State, files: Files) {
    forall id | id in s.saved && s.saved[id].Live() ::
      var row := s.saved[id];
      && (!HeldLive(s, id) ==> PartFits(lib, files, row.file, row.destination))
      && (row.status == Done && !HeldDone(s, id) ==> Whole(lib, files, row))
  }

  predicate Whole(lib: Library, files: Files, job: Job) {
    job.file in lib && job.destination in files && files[job.destination] == lib[job.file]
  }

  /** Only the partial file of a live row can be behind what was written to it. */
  ghost predicate KeptOf(s: State, kept: map<Path, nat>) {
    forall p | p in kept :: exists id :: id in s.jobs && s.jobs[id].Live() && p == PartPath(s.jobs[id].destination)
  }

  ghost predicate Admissible(lib: Library, s: State, e: Event) {
    match e
    case Enqueue(id, file, total, candidates, fallback) =>
      id !in s.jobs && Claimable(lib, s, id, file, DestinationFor(s, candidates, fallback))
    case Resume(id) =>
      id in s.jobs && s.jobs[id].status == Cancelled ==> Claimable(lib, s, id, s.jobs[id].file, s.jobs[id].destination)
    case Cancel(id) => HarmlessToCancel(s, id)
    case Respond(id, response) => id in s.jobs ==> Truthful(lib, s.jobs[id].file, response)
    case Restart(kept, readable) => KeptOf(s, kept) && (readable ==> StaleRowsFit(lib, s, Flushed(s.files, kept)))
    case _ => true
  }

  ghost predicate AdmissibleRun(lib: Library, s: State, events: seq<Event>)
    decreases |events|
  {
    events == [] ||
    (Admissible(lib, s, events[0]) && AdmissibleRun(lib, Step(s, events[0]), events[1..]))
  }

  // ─── the invariant ───────────────────────────────────────────────────────────

  /** A live row's partial file is a prefix of the source; a finished row's destination is it. */
  ghost predicate JobOk(lib: Library, files: Files, job: Job) {
    && (job.Live() ==> PartFits(lib, files, job.file, job.destination))
    && (job.status == Done ==> Whole(lib, files, job))
  }

  /** What a transfer in flight relies on: where the file stands and what is still to come. */
  ghost predicate PhaseOk(lib: Library, files: Files, job: Job, phase: Phase) {
    var part := PartPath(job.destination);
    match phase
    case Opening(offset) => offset == BytesOnDisk(files, part)
    case Reading(written, total, body) =>
      && job.file in lib && part in files
      && written == |files[part]|
      && total == Some(|lib[job.file]|)
      && files[part] + body <= lib[job.file]
  }

  ghost predicate QueueOk(s: State) {
    && NoDuplicates(s.queue)
    && (forall id :: id in s.queue <==> id in s.jobs && s.jobs[id].status == Queued)
    && (forall id :: id in s.running <==> id in s.jobs && s.jobs[id].status == Downloading)
    && |s.running| <= s.concurrency
  }

  /** No two live rows share a file, finished or partial. */
  ghost predicate DisjointFiles(jobs: map<JobId, Job>) {
    forall a, b | a in jobs && b in jobs && a != b && jobs[a].Live() && jobs[b].Live() ::
      Apart(jobs[a].destination, jobs[b].destination)
  }

  ghost predicate SavedOk(s: State) {
    DisjointFiles(s.saved) && (s.saving.Some? ==> DisjointFiles(s.saving.value))
  }

  ghost predicate Settled(lib: Library, s: State) {
    && QueueOk(s)
    && DisjointFiles(s.jobs)
    && SavedOk(s)
    && (forall id | id in s.jobs :: JobOk(lib, s.files, s.jobs[id]))
    && (forall id | id in s.running :: PhaseOk(lib, s.files, s.jobs[id], s.running[id].phase))
  }

  ghost predicate Invariant(lib: Library, s: State) {
    && Settled(lib, s)
    && (s.queue != [] ==> |s.running| == s.concurrency)
  }

  // ─── each move keeps it ──────────────────────────────────────────────────────

  lemma PartPathInjective(a: Path, b: Path)
    requires PartPath(a) == PartPath(b)
    ensures a == b
  {
    assert a == PartPath(a)[..|PartPath(a)| - |PART_SUFFIX|];
    assert b == PartPath(b)[..|PartPath(b)| - |PART_SUFFIX|];
  }

  lemma PartPathsDiffer(a: Path, b: Path)
    requires a != b
    ensures PartPath(a) != PartPath(b)
  {
    if PartPath(a) == PartPath(b) {
      PartPathInjective(a, b);
    }
  }

  /** The rows other than `id` do not notice a change confined to the two files of row `id`. */
  ghost predicate OnlyFilesOf(job: Job, files: Files, files': Files) {
    forall p | p != job.destination && p != PartPath(job.destination) ::
      (p in files <==> p in files') && (p in files ==> files'[p] == files[p])
  }

  lemma OtherRowsKeep(lib: Library, s: State, id: JobId, job: Job, files': Files, other: JobId)
    requires Settled(lib, s) && NoClash(s, id, job.destination) && OnlyFilesOf(job, s.files, files')
    requires other in s.jobs && other != id
    ensures JobOk(lib, files', s.jobs[other])
    ensures other in s.running ==> PhaseOk(lib, files', s.jobs[other], s.running[other].phase)
  {
    assert JobOk(lib, s.files, s.jobs[other]);
    hide PartPath;
    if s.jobs[other].Live() {
      PartPathsDiffer(job.destination, s.jobs[other].destination);
    }
  }

  /** Every move but a restart changes one row, that row's files and its place in the queue. */
  ghost predicate OneRow(s: State, s': State, id: JobId) {
    && id in s'.jobs && s'.jobs == s.jobs[id := s'.jobs[id]]
    && (id in s.jobs ==> s.jobs[id].destination == s'.jobs[id].destination)
    && NoClash(s, id, s'.jobs[id].destination)
    && OnlyFilesOf(s'.jobs[id], s.files, s'.files)
    && s'.saved == s.saved && s'.saving == s.saving
    && forall other | other != id ::
         (other in s.running <==> other in s'.running)
         && (other in s.running ==> s'.running[other] == s.running[other])
  }

  lemma OneRowStaysDisjoint(s: State, s': State, id: JobId)
    requires DisjointFiles(s.jobs) && OneRow(s, s', id)
    ensures DisjointFiles(s'.jobs)
  {
    hide PartPath, OnlyFilesOf;
  }

  lemma OneRowKeepsJobs(lib: Library, s: State, s': State, id: JobId)
    requires Settled(lib, s) && OneRow(s, s', id) && JobOk(lib, s'.files, s'.jobs[id])
    ensures forall other | other in s'.jobs :: JobOk(lib, s'.files, s'.jobs[other])
  {
    hide PartPath, OnlyFilesOf, PhaseOk, JobOk, Settled, NoClash;
    forall other | other in s'.jobs && other != id ensures JobOk(lib, s'.files, s'.jobs[other]) {
      OtherRowsKeep(lib, s, id, s'.jobs[id], s'.files, other);
    }
  }

  lemma OneRowKeepsPhases(lib: Library, s: State, s': State, id: JobId)
    requires Settled(lib, s) && OneRow(s, s', id) && QueueOk(s')
    requires id in s'.running ==> PhaseOk(lib, s'.files, s'.jobs[id], s'.running[id].phase)
    ensures forall other | other in s'.running :: PhaseOk(lib, s'.files, s'.jobs[other], s'.running[other].phase)
  {
    hide PartPath, OnlyFilesOf, PhaseOk, JobOk, Settled, NoClash;
    forall other | other in s'.running && other != id ensures PhaseOk(lib, s'.files, s'.jobs[other], s'.running[other].phase) {
      OtherRowsKeep(lib, s, id, s'.jobs[id], s'.files, other);
    }
  }

  lemma OneRowChanges(lib: Library, s: State, s': State, id: JobId)
    requires Settled(lib, s) && OneRow(s, s', id)
    requires JobOk(lib, s'.files, s'.jobs[id])
    requires id in s'.running ==> PhaseOk(lib, s'.files, s'.jobs[id], s'.running[id].phase)
    requires QueueOk(s')
    ensures Settled(lib, s')
  {
    assert DisjointFiles(s.jobs) && SavedOk(s) && s'.saved == s.saved && s'.saving == s.saving;
    OneRowKeepsJobs(lib, s, s', id);
    OneRowKeepsPhases(lib, s, s', id);
    hide PartPath, OnlyFilesOf, PhaseOk, JobOk, DisjointFiles, NoClash, OneRow;
    OneRowStaysDisjoint(s, s', id);
  }

  /** A row that was never given up still holds what it needs. */
  lemma LiveRowIsClaimable(lib: Library, s: State, id: JobId)
    requires Settled(lib, s) && id in s.jobs && s.jobs[id].Live()
    ensures Claimable(lib, s, id, s.jobs[id].file, s.jobs[id].destination)
  {
    hide PartPath;
    assert JobOk(lib, s.files, s.jobs[id]);
  }

  lemma TailOfQueue(queue: seq<JobId>)
    requires queue != [] && NoDuplicates(queue)
    ensures NoDuplicates(queue[1..]) && forall x :: x in queue[1..] <==> x in queue && x != queue[0]
  {
    forall x ensures x in queue[1..] <==> x in queue && x != queue[0] {
      assert queue == [queue[0]] + queue[1..];
      if x in queue[1..] {
        var i :| 0 <= i < |queue| - 1 && queue[1..][i] == x;
        assert queue[i + 1] == x && queue[0] != queue[i + 1];
      }
    }
  }

  lemma QueuedRowStarts(queue: seq<JobId>, jobs: map<JobId, Job>, started: Job)
    requires queue != [] && NoDuplicates(queue) && started.status == Downloading
    requires forall x :: x in queue <==> x in jobs && jobs[x].status == Queued
    ensures forall x :: x in queue[1..] <==> x in jobs[queue[0] := started] && jobs[queue[0] := started][x].status == Queued
  {
    hide NoDuplicates;
    TailOfQueue(queue);
  }

  lemma RunningRowStarts(running: map<JobId, Running>, jobs: map<JobId, Job>, id: JobId, running': map<JobId, Running>, jobs': map<JobId, Job>)
    requires id in jobs && jobs[id].status == Queued && id in jobs' && jobs'[id].status == Downloading
    requires id in running' && running' == running[id := running'[id]] && jobs' == jobs[id := jobs'[id]]
    requires forall x :: x in running <==> x in jobs && jobs[x].status == Downloading
    ensures forall x :: x in running' <==> x in jobs' && jobs'[x].status == Downloading
    ensures |running'| == |running| + 1
  {
    assert running'.Keys == running.Keys + {id};
  }

  lemma StartKeepsQueue(s: State, id: JobId)
    requires QueueOk(s) && s.queue != [] && s.queue[0] == id && |s.running| < s.concurrency
    ensures id in s.jobs && s.jobs[id].status == Queued
    ensures QueueOk(Start(s.(queue := s.queue[1..]), id))
  {
    assert id in s.queue;
    var job := s.jobs[id].(status := Downloading);
    var slot := Running(Opening(BytesOnDisk(s.files, PartPath(job.destination))), false, false);
    TailOfQueue(s.queue);
    QueuedRowStarts(s.queue, s.jobs, job);
    RunningRowStarts(s.running, s.jobs, id, s.running[id := slot], s.jobs[id := job]);
  }

  lemma StartIsOneRow(lib: Library, s: State, s': State, id: JobId)
    requires Settled(lib, s) && id in s.jobs && s.jobs[id].status == Queued
    requires s.queue != [] && s' == Start(s.(queue := s.queue[1..]), id)
    ensures OneRow(s, s', id) && JobOk(lib, s'.files, s'.jobs[id])
    ensures id in s'.running && PhaseOk(lib, s'.files, s'.jobs[id], s'.running[id].phase)
    ensures s'.jobs[id].status == Downloading
  {
    hide PartPath, QueueOk, SavedOk, NoClash;
    LiveRowIsClaimable(lib, s, id);
  }

  lemma StartKeeps(lib: Library, s: State, id: JobId)
    requires Settled(lib, s) && s.queue != [] && s.queue[0] == id && |s.running| < s.concurrency
    ensures id in s.jobs && s.jobs[id].status == Queued
    ensures Settled(lib, Start(s.(queue := s.queue[1..]), id))
  {
    StartKeepsQueue(s, id);
    hide PartPath, QueueOk;
    var s' := Start(s.(queue := s.queue[1..]), id);
    StartIsOneRow(lib, s, s', id);
    OneRowChanges(lib, s, s', id) by {
      hide *;
    }
  }

  lemma {:induction false} PumpKeeps(lib: Library, s: State)
    requires Settled(lib, s)
    ensures Invariant(lib, Pump(s))
    decreases |s.queue|
  {
    if |s.running| < s.concurrency && s.queue != [] {
      StartKeeps(lib, s, s.queue[0]);
      PumpKeeps(lib, Start(s.(queue := s.queue[1..]), s.queue[0]));
    }
  }

  lemma LeaveKeepsQueue(s: State, s': State, id: JobId)
    requires QueueOk(s) && id in s.running
    requires id in s'.jobs && s'.jobs == s.jobs[id := s'.jobs[id]]
    requires s'.jobs[id].status != Queued && s'.jobs[id].status != Downloading
    requires s'.running == s.running - {id}
    requires s'.queue == s.queue && s'.concurrency == s.concurrency
    ensures QueueOk(s')
  {
    assert s'.running.Keys == s.running.Keys - {id};
    assert id !in s.queue;
  }

  lemma VacatedKeeps(lib: Library, s: State, s': State, id: JobId)
    requires Settled(lib, s) && id in s.running && id in s.jobs
    requires OneRow(s, s', id)
    requires s'.jobs[id].status != Queued && s'.jobs[id].status != Downloading
    requires s'.running == s.running - {id}
    requires s'.queue == s.queue && s'.concurrency == s.concurrency
    requires JobOk(lib, s'.files, s'.jobs[id])
    ensures Settled(lib, s')
  {
    LeaveKeepsQueue(s, s', id);
    hide *;
    OneRowChanges(lib, s, s', id);
  }

  /** A transfer leaves its slot in one of its final statuses. */
  lemma LeaveKeeps(lib: Library, s: State, id: JobId, job: Job, files: Files)
    requires Settled(lib, s) && id in s.running
    requires job.status != Queued && job.status != Downloading
    requires job.destination == s.jobs[id].destination
    requires OnlyFilesOf(job, s.files, files)
    requires JobOk(lib, files, job)
    ensures Invariant(lib, Leave(s, id, job, files))
  {
    var s' := s.(files := files, jobs := s.jobs[id := job], running := s.running - {id});
    assert OneRow(s, s', id);
    VacatedKeeps(lib, s, s', id);
    PumpKeeps(lib, s');
  }

  ghost predicate SameRow(a: Job, b: Job) {
    a.file == b.file && a.destination == b.destination && a.status == b.status
  }

  lemma ThrowKeeps(lib: Library, s: State, id: JobId, job: Job, files: Files, byCaller: bool)
    requires Settled(lib, s) && id in s.running
    requires SameRow(s.jobs[id], job)
    requires OnlyFilesOf(job, s.files, files)
    requires PartFits(lib, files, job.file, job.destination)
    ensures Invariant(lib, Throw(s, id, job, files, byCaller))
  {
    hide PartPath, Leave;
    var part := PartPath(job.destination);
    assert JobOk(lib, s.files, s.jobs[id]);
    if s.running[id].cancelled {
      LeaveKeeps(lib, s, id, job.(status := Cancelled, receivedBytes := 0), Without(files, part));
    } else {
      var status := if s.running[id].paused || byCaller then Paused else Failed;
      LeaveKeeps(lib, s, id, job.(status := status, receivedBytes := BytesOnDisk(files, part)), files);
    }
  }

  /** Renaming into place is sound once the partial file has reached the size of the source. */
  lemma FinishKeeps(lib: Library, s: State, id: JobId, size: nat)
    requires Settled(lib, s) && id in s.running
    requires s.jobs[id].file in lib
    requires BytesOnDisk(s.files, PartPath(s.jobs[id].destination)) == |lib[s.jobs[id].file]|
    ensures Invariant(lib, Finish(s, id, size))
  {
    var job := s.jobs[id];
    var part := PartPath(job.destination);
    assert JobOk(lib, s.files, job);
    if part in s.files {
      var files' := Without(s.files[job.destination := s.files[part]], part);
      assert |part| > |job.destination|;
      assert s.files[part] == lib[job.file];
      LeaveKeeps(lib, s, id, job.(status := Done, receivedBytes := size, totalBytes := Some(size)), files');
    } else {
      ThrowKeeps(lib, s, id, job, s.files, false);
    }
  }

  lemma RespondKeeps(lib: Library, s: State, id: JobId, response: Response)
    requires Invariant(lib, s) && id in s.running && s.running[id].phase.Opening?
    requires Truthful(lib, s.jobs[id].file, response)
    ensures Invariant(lib, RespondTo(s, id, response))
  {
    hide PartPath, Throw, Finish, SizeFromHeaders, TotalFromContentRange, StartFromContentRange;
    var job := s.jobs[id];
    var part := PartPath(job.destination);
    var offset := s.running[id].phase.offset;
    assert PhaseOk(lib, s.files, job, s.running[id].phase) && JobOk(lib, s.files, job);
    if response.status == 416 {
      if TotalFromContentRange(response.contentRange) == Some(offset) {
        FinishKeeps(lib, s, id, offset);
      } else {
        ThrowKeeps(lib, s, id, job, Without(s.files, part), false);
      }
    } else if response.status != 200 && response.status != 206 {
      ThrowKeeps(lib, s, id, job, s.files, false);
    } else {
      var servedFrom := if response.status == 200 then 0 else StartFromContentRange(response.contentRange).GetOr(offset);
      if servedFrom != offset && servedFrom != 0 {
        ThrowKeeps(lib, s, id, job, Without(s.files, part), false);
      } else {
        var total := SizeFromHeaders(response.contentRange, response.contentLength, servedFrom);
        TruthfulSize(lib, job.file, response, servedFrom);
        var files := if servedFrom != offset then Without(s.files, part) else s.files;
        var shown := job.(receivedBytes := if servedFrom != offset then 0 else job.receivedBytes, totalBytes := total);
        if response.body.None? {
          ThrowKeeps(lib, s, id, shown, files, false);
        } else {
          ReadingKeeps(lib, s, id, shown, files, servedFrom, response.body.value);
        }
      }
    }
  }

  lemma SameStatusKeepsQueue(s: State, s': State, id: JobId)
    requires QueueOk(s) && id in s.running
    requires id in s'.jobs && s'.jobs == s.jobs[id := s'.jobs[id]] && s'.jobs[id].status == Downloading
    requires id in s'.running && s'.running == s.running[id := s'.running[id]]
    requires s'.queue == s.queue && s'.concurrency == s.concurrency
    ensures QueueOk(s') && |s'.running| == |s.running|
  {
    assert s'.running.Keys == s.running.Keys;
  }

  /** A transfer in flight moves on without leaving its slot. */
  lemma InFlightKeeps(lib: Library, s: State, s': State, id: JobId)
    requires Invariant(lib, s) && id in s.running && id in s.jobs
    requires OneRow(s, s', id) && s'.jobs[id].status == Downloading
    requires id in s'.running && s'.running == s.running[id := s'.running[id]]
    requires s'.queue == s.queue && s'.concurrency == s.concurrency
    requires JobOk(lib, s'.files, s'.jobs[id])
    requires PhaseOk(lib, s'.files, s'.jobs[id], s'.running[id].phase)
    ensures Invariant(lib, s')
  {
    SameStatusKeepsQueue(s, s', id);
    OneRowChanges(lib, s, s', id) by {
      hide *;
    }
  }

  /** The sink holds a prefix of the source that the rest of the answer continues. */
  lemma SinkKeeps(lib: Library, s: State, s': State, id: JobId)
    requires Invariant(lib, s) && id in s.running && id in s.jobs
    requires id in s'.jobs && s'.jobs == s.jobs[id := s'.jobs[id]] && SameRow(s.jobs[id], s'.jobs[id])
    requires id in s'.running && s'.running == s.running[id := s'.running[id]]
    requires s' == s.(jobs := s'.jobs, running := s'.running, files := s'.files)
    requires OnlyFilesOf(s.jobs[id], s.files, s'.files)
    requires s'.running[id].phase.Reading? && PhaseOk(lib, s'.files, s'.jobs[id], s'.running[id].phase)
    ensures Invariant(lib, s')
  {
    assert s.jobs[id].status == Downloading;
    LiveRowIsClaimable(lib, s, id);
    SinkIsOneRow(lib, s, s', id);
    hide *;
    InFlightKeeps(lib, s, s', id);
  }

  lemma SinkIsOneRow(lib: Library, s: State, s': State, id: JobId)
    requires id in s.running && id in s.jobs && s.jobs[id].status == Downloading && NoClash(s, id, s.jobs[id].destination)
    requires id in s'.jobs && s'.jobs == s.jobs[id := s'.jobs[id]] && SameRow(s.jobs[id], s'.jobs[id])
    requires id in s'.running && s'.running == s.running[id := s'.running[id]]
    requires s' == s.(jobs := s'.jobs, running := s'.running, files := s'.files)
    requires OnlyFilesOf(s.jobs[id], s.files, s'.files)
    requires s'.running[id].phase.Reading? && PhaseOk(lib, s'.files, s'.jobs[id], s'.running[id].phase)
    ensures OneRow(s, s', id) && JobOk(lib, s'.files, s'.jobs[id])
  {
    hide PartPath, NoClash;
  }

  /** Opening the sink where the answer starts, and not elsewhere, keeps the prefix. */
  lemma ReadingKeeps(lib: Library, s: State, id: JobId, shown: Job, files: Files, servedFrom: nat, body: seq<byte>)
    requires Invariant(lib, s) && id in s.running
    requires SameRow(s.jobs[id], shown) && shown.file in lib
    requires servedFrom <= |lib[shown.file]| && body <= lib[shown.file][servedFrom..]
    requires servedFrom > 0 ==> files == s.files
    requires OnlyFilesOf(shown, s.files, files)
    requires BytesOnDisk(files, PartPath(shown.destination)) == servedFrom
    ensures var part := PartPath(shown.destination);
            var start := if servedFrom > 0 && part in files then files[part] else [];
            Invariant(lib, s.(files := files[part := start],
                              jobs := s.jobs[id := shown],
                              running := s.running[id := s.running[id].(phase := Reading(servedFrom, Some(|lib[shown.file]|), body))]))
  {
    var part := PartPath(shown.destination);
    var start := if servedFrom > 0 && part in files then files[part] else [];
    assert JobOk(lib, s.files, s.jobs[id]);
    PrefixGoesOn(lib[shown.file], start, body);
    var s' := s.(files := files[part := start],
                 jobs := s.jobs[id := shown],
                 running := s.running[id := s.running[id].(phase := Reading(servedFrom, Some(|lib[shown.file]|), body))]);
    hide PartPath, QueueOk, DisjointFiles, JobOk;
    SinkKeeps(lib, s, s', id);
  }

  lemma PrefixGoesOn(content: seq<byte>, start: seq<byte>, body: seq<byte>)
    requires start <= content && body <= content[|start|..]
    ensures start + body <= content
  {
    assert content == start + content[|start|..];
  }

  lemma TruthfulSize(lib: Library, file: FileKey, response: Response, servedFrom: nat)
    requires Truthful(lib, file, response)
    requires (response.status == 200 && servedFrom == 0) || response.status == 206
    ensures SizeFromHeaders(response.contentRange, response.contentLength, servedFrom) == Some(|lib[file]|)
  {}

  lemma AppendedPrefix(content: seq<byte>, start: seq<byte>, body: seq<byte>, n: nat)
    requires n <= |body| && start + body <= content
    ensures start + body[..n] <= content
    ensures start + body[..n] + body[n..] <= content
  {
    assert start + body[..n] + body[n..] == start + body;
  }

  lemma ReceiveKeeps(lib: Library, s: State, id: JobId, n: nat, reported: bool)
    requires Invariant(lib, s) && id in s.running && id in s.jobs && s.running[id].phase.Reading?
    requires n <= |s.running[id].phase.body|
    ensures Invariant(lib, ReceiveChunk(s, id, n, reported))
  {
    assert PhaseOk(lib, s.files, s.jobs[id], s.running[id].phase);
    ChunkInSink(lib, s, id, n, reported);
    hide *;
    SinkKeeps(lib, s, ReceiveChunk(s, id, n, reported), id);
  }

  lemma ChunkInSink(lib: Library, s: State, id: JobId, n: nat, reported: bool)
    requires id in s.running && id in s.jobs && s.running[id].phase.Reading? && n <= |s.running[id].phase.body|
    requires PhaseOk(lib, s.files, s.jobs[id], s.running[id].phase)
    ensures var s' := ReceiveChunk(s, id, n, reported);
      && id in s'.jobs && s'.jobs == s.jobs[id := s'.jobs[id]] && SameRow(s.jobs[id], s'.jobs[id])
      && id in s'.running && s'.running == s.running[id := s'.running[id]]
      && s' == s.(jobs := s'.jobs, running := s'.running, files := s'.files)
      && OnlyFilesOf(s.jobs[id], s.files, s'.files)
      && s'.running[id].phase.Reading? && PhaseOk(lib, s'.files, s'.jobs[id], s'.running[id].phase)
  {
    hide PartPath;
    AppendedPrefix(lib[s.jobs[id].file], s.files[PartPath(s.jobs[id].destination)], s.running[id].phase.body, n);
  }

  lemma BreakKeeps(lib: Library, s: State, id: JobId, n: nat, byCaller: bool)
    requires Invariant(lib, s) && id in s.running
    ensures id in s.jobs && Invariant(lib, BreakOff(s, id, n, byCaller))
  {
    assert id in s.jobs && s.jobs[id].status == Downloading;
    var job := s.jobs[id];
    var part := PartPath(job.destination);
    var phase := s.running[id].phase;
    assert PhaseOk(lib, s.files, job, phase) && JobOk(lib, s.files, job);
    hide PartPath, QueueOk, DisjointFiles, Throw;
    if phase.Reading? && n <= |phase.body| {
      AppendedPrefix(lib[job.file], s.files[part], phase.body, n);
      ThrowKeeps(lib, s, id, job, Append(s.files, part, phase.body[..n]), byCaller);
    } else {
      ThrowKeeps(lib, s, id, job, s.files, byCaller);
    }
  }

  lemma EndKeeps(lib: Library, s: State, id: JobId)
    requires Invariant(lib, s) && id in s.running && id in s.jobs && s.running[id].phase.Reading?
    ensures Invariant(lib, EndBody(s, id))
  {
    var job := s.jobs[id];
    var phase := s.running[id].phase;
    assert PhaseOk(lib, s.files, job, phase) && JobOk(lib, s.files, job);
    assert job.status == Downloading;
    hide PartPath, QueueOk, DisjointFiles, Throw, Finish;
    if phase.total.Some? && phase.written < phase.total.value {
      ThrowKeeps(lib, s, id, job.(receivedBytes := phase.written), s.files, false);
    } else {
      FinishKeeps(lib, s, id, phase.total.GetOr(phase.written));
    }
  }

  lemma QueuedKeepsQueue(s: State, s': State, id: JobId)
    requires QueueOk(s) && (id in s.jobs ==> s.jobs[id].status != Queued && s.jobs[id].status != Downloading)
    requires id in s'.jobs && s'.jobs == s.jobs[id := s'.jobs[id]] && s'.jobs[id].status == Queued
    requires s'.running == s.running && s'.concurrency == s.concurrency
    requires s'.queue == s.queue + [id]
    ensures QueueOk(s')
  {
    assert id !in s.queue;
  }

  /** A row joins the end of the queue with files that are its own. */
  lemma QueuedKeeps(lib: Library, s: State, s': State, id: JobId)
    requires Settled(lib, s) && id !in s.running
    requires id in s.jobs ==> s.jobs[id].status != Queued && s.jobs[id].status != Downloading
    requires id in s'.jobs && s'.jobs == s.jobs[id := s'.jobs[id]] && s'.jobs[id].status == Queued
    requires id in s.jobs ==> s.jobs[id].destination == s'.jobs[id].destination
    requires Claimable(lib, s, id, s'.jobs[id].file, s'.jobs[id].destination)
    requires s' == s.(jobs := s'.jobs, queue := s.queue + [id])
    ensures Invariant(lib, Pump(s'))
  {
    hide PartPath, DisjointFiles, PhaseOk, QueueOk, Pump, NoClash;
    QueuedKeepsQueue(s, s', id);
    assert OneRow(s, s', id);
    assert JobOk(lib, s'.files, s'.jobs[id]);
    OneRowChanges(lib, s, s', id);
    PumpKeeps(lib, s');
  }

  lemma EnqueueKeeps(lib: Library, s: State, id: JobId, file: FileKey, total: Option<nat>, destination: Path)
    requires Invariant(lib, s) && id !in s.jobs && Claimable(lib, s, id, file, destination)
    ensures Invariant(lib, EnqueueJob(s, id, file, total, destination))
  {
    var s' := s.(jobs := s.jobs[id := Job(file, destination, 0, total, Queued)], queue := s.queue + [id]);
    hide PartPath, DisjointFiles, Pump, Claimable;
    QueuedKeeps(lib, s, s', id);
  }

  lemma ResumeKeeps(lib: Library, s: State, id: JobId)
    requires Invariant(lib, s) && Admissible(lib, s, Resume(id))
    ensures Invariant(lib, ResumeJob(s, id))
  {
    if id in s.jobs && s.jobs[id].status !in {Downloading, Queued, Done} {
      var job := s.jobs[id];
      if job.Live() {
        LiveRowIsClaimable(lib, s, id);
      }
      var received := BytesOnDisk(s.files, PartPath(job.destination));
      var s' := s.(jobs := s.jobs[id := job.(status := Queued, receivedBytes := received)], queue := s.queue + [id]);
      hide PartPath, DisjointFiles, Pump, Claimable;
      QueuedKeeps(lib, s, s', id);
    }
  }

  lemma {:induction false} FilterKeepsDistinct(queue: seq<JobId>, id: JobId)
    requires NoDuplicates(queue)
    ensures NoDuplicates(Filter(queue, id))
  {
    if queue != [] {
      assert NoDuplicates(queue[1..]);
      FilterKeepsDistinct(queue[1..], id);
      assert queue[0] !in queue[1..];
    }
  }

  lemma UnqueuedKeepsQueue(s: State, s': State, id: JobId)
    requires QueueOk(s) && id in s.jobs && id !in s.running
    requires id in s'.jobs && s'.jobs == s.jobs[id := s'.jobs[id]]
    requires s'.jobs[id].status != Queued && s'.jobs[id].status != Downloading
    requires s'.running == s.running && s'.concurrency == s.concurrency && s'.queue == Filter(s.queue, id)
    ensures QueueOk(s')
  {
    FilterKeepsDistinct(s.queue, id);
  }

  /** Only row `id` may hold on to its destination. */
  lemma CallerKeeps(lib: Library, s: State, s': State, id: JobId)
    requires Invariant(lib, s) && id in s.jobs && id !in s.running
    requires OneRow(s, s', id)
    requires s'.jobs[id].status != Queued && s'.jobs[id].status != Downloading
    requires s'.running == s.running && s'.concurrency == s.concurrency && s'.queue == Filter(s.queue, id)
    requires JobOk(lib, s'.files, s'.jobs[id])
    ensures Invariant(lib, s')
  {
    UnqueuedKeepsQueue(s, s', id);
    OneRowChanges(lib, s, s', id) by {
      hide *;
    }
    if s'.queue != [] {
      assert s'.queue[0] in s.queue;
    }
  }

  lemma PauseIsOneRow(lib: Library, s: State, id: JobId)
    requires id in s.jobs && id !in s.running && s.jobs[id].status == Queued
    requires Claimable(lib, s, id, s.jobs[id].file, s.jobs[id].destination)
    ensures var s' := PauseJob(s, id);
      && OneRow(s, s', id) && s'.jobs[id].status == Paused
      && s'.running == s.running && s'.concurrency == s.concurrency && s'.queue == Filter(s.queue, id)
      && JobOk(lib, s'.files, s'.jobs[id])
  {
    hide PartPath, NoClash, Filter;
  }

  lemma PauseKeeps(lib: Library, s: State, id: JobId)
    requires Invariant(lib, s)
    ensures Invariant(lib, PauseJob(s, id))
  {
    if id in s.running {
      FlagKeeps(lib, s, PauseJob(s, id), id);
    } else if id in s.jobs && s.jobs[id].status == Queued {
      LiveRowIsClaimable(lib, s, id);
      PauseIsOneRow(lib, s, id);
      hide *;
      CallerKeeps(lib, s, PauseJob(s, id), id);
    }
  }

  lemma FlagKeeps(lib: Library, s: State, s': State, id: JobId)
    requires Invariant(lib, s) && id in s.running
    requires id in s'.running && s' == s.(running := s.running[id := s'.running[id]])
    requires s'.running[id].phase == s.running[id].phase
    ensures Invariant(lib, s')
  {
    assert s'.running.Keys == s.running.Keys;
    assert PhaseOk(lib, s.files, s.jobs[id], s.running[id].phase);
  }

  /** What `cancel` does to a live row that is not running. */
  lemma CancelIsOneRow(lib: Library, s: State, id: JobId)
    requires id in s.jobs && id !in s.running && NoClash(s, id, s.jobs[id].destination)
    ensures var s' := CancelJob(s, id);
      && OneRow(s, s', id) && s'.jobs[id].status == Cancelled
      && s'.running == s.running && s'.concurrency == s.concurrency && s'.queue == Filter(s.queue, id)
      && JobOk(lib, s'.files, s'.jobs[id])
  {
    hide PartPath, NoClash, Filter;
  }

  /** What another live row loses when a row that was cancelled before is cancelled again. */
  lemma CancelledAgainSpares(lib: Library, s: State, id: JobId, other: JobId)
    requires Settled(lib, s) && id in s.jobs && s.jobs[id].status == Cancelled
    requires other in s.jobs && other != id && (other in s.running ==> s.jobs[other].Live())
    requires s.jobs[other].Live() ==> Spared(s, s.jobs[id].destination, other)
    ensures JobOk(lib, CancelJob(s, id).files, s.jobs[other])
    ensures other in s.running ==> PhaseOk(lib, CancelJob(s, id).files, s.jobs[other], s.running[other].phase)
  {
    hide PartPath, DisjointFiles, Filter, QueueOk, SavedOk, NoDuplicates;
    assert JobOk(lib, s.files, s.jobs[other]);
    assert other in s.running ==> PhaseOk(lib, s.files, s.jobs[other], s.running[other].phase);
    if s.jobs[other].destination != s.jobs[id].destination {
      PartPathsDiffer(s.jobs[id].destination, s.jobs[other].destination);
    }
  }

  lemma CancelledAgainKeepsRows(lib: Library, s: State, id: JobId)
    requires Invariant(lib, s) && id in s.jobs && s.jobs[id].status == Cancelled
    requires forall other | other in s.jobs && other != id && s.jobs[other].Live() :: Spared(s, s.jobs[id].destination, other)
    ensures forall other | other in s.jobs && other != id ::
      && JobOk(lib, CancelJob(s, id).files, s.jobs[other])
      && (other in s.running ==> PhaseOk(lib, CancelJob(s, id).files, s.jobs[other], s.running[other].phase))
  {
    hide PartPath, JobOk, PhaseOk, CancelJob, Spared, DisjointFiles, NoDuplicates;
    forall other | other in s.jobs && other != id
      ensures JobOk(lib, CancelJob(s, id).files, s.jobs[other])
      ensures other in s.running ==> PhaseOk(lib, CancelJob(s, id).files, s.jobs[other], s.running[other].phase)
    {
      CancelledAgainSpares(lib, s, id, other);
    }
  }

  lemma CancelAgainKeeps(lib: Library, s: State, id: JobId)
    requires Invariant(lib, s) && id in s.jobs && s.jobs[id].status == Cancelled && HarmlessToCancel(s, id)
    ensures Invariant(lib, CancelJob(s, id))
  {
    var s' := CancelJob(s, id);
    assert id !in s.running && forall other | other in s.running :: other in s.jobs;
    UnqueuedKeepsQueue(s, s', id);
    CancelledAgainKeepsRows(lib, s, id);
    CancelledAgainStaysDisjoint(s, id);
    CancelledAgainIsSettled(lib, s, id);
  }

  lemma CancelledAgainIsSettled(lib: Library, s: State, id: JobId)
    requires Invariant(lib, s) && id in s.jobs && s.jobs[id].status == Cancelled && id !in s.running
    requires forall other | other in s.running :: other in s.jobs
    requires var s' := CancelJob(s, id); QueueOk(s') && DisjointFiles(s'.jobs)
    requires forall other | other in s.jobs && other != id ::
      && JobOk(lib, CancelJob(s, id).files, s.jobs[other])
      && (other in s.running ==> PhaseOk(lib, CancelJob(s, id).files, s.jobs[other], s.running[other].phase))
    ensures Invariant(lib, CancelJob(s, id))
  {
    hide PartPath, PhaseOk, PartFits, Whole, QueueOk, DisjointFiles;
    var s' := CancelJob(s, id);
    assert s'.queue != [] ==> s'.queue[0] in s.queue;
  }

  lemma CancelledAgainStaysDisjoint(s: State, id: JobId)
    requires DisjointFiles(s.jobs) && id in s.jobs && s.jobs[id].status == Cancelled
    ensures DisjointFiles(CancelJob(s, id).jobs)
  {
    hide PartPath, Apart, Filter;
  }

  lemma CancelKeeps(lib: Library, s: State, id: JobId)
    requires Invariant(lib, s) && HarmlessToCancel(s, id)
    ensures Invariant(lib, CancelJob(s, id))
  {
    if id in s.running {
      FlagKeeps(lib, s, CancelJob(s, id), id);
    } else if id !in s.jobs {
      assert CancelJob(s, id) == s;
    } else if s.jobs[id].Live() {
      LiveRowIsClaimable(lib, s, id);
      assert NoClash(s, id, s.jobs[id].destination);
      hide *;
      CancelIsOneRow(lib, s, id);
      CallerKeeps(lib, s, CancelJob(s, id), id);
    } else {
      CancelAgainKeeps(lib, s, id);
    }
  }

  // ─── restarts ────────────────────────────────────────────────────────────────

  lemma FlushedPrefix(lib: Library, files: Files, kept: map<Path, nat>, file: FileKey, destination: Path)
    requires PartFits(lib, files, file, destination)
    ensures PartFits(lib, Flushed(files, kept), file, destination)
  {
    hide PartPath;
  }

  /** A finished file is nobody's partial file, so it was flushed. */
  lemma FinishedFileIsFlushed(lib: Library, s: State, kept: map<Path, nat>, id: JobId)
    requires Settled(lib, s) && KeptOf(s, kept) && id in s.jobs && s.jobs[id].status == Done
    ensures Whole(lib, Flushed(s.files, kept), s.jobs[id])
  {
    var d := s.jobs[id].destination;
    assert JobOk(lib, s.files, s.jobs[id]);
    assert |PartPath(d)| > |d|;
    hide PartPath;
    forall other | other in s.jobs && s.jobs[other].Live() ensures d != PartPath(s.jobs[other].destination) {
      if other != id {
        assert Apart(s.jobs[other].destination, d);
      }
    }
    assert d !in kept;
  }

  lemma RestoredRowOk(lib: Library, s: State, kept: map<Path, nat>, id: JobId)
    requires Settled(lib, s) && KeptOf(s, kept) && id in s.saved
    requires s.saved[id].Live() && !HeldLive(s, id) ==>
               PartFits(lib, Flushed(s.files, kept), s.saved[id].file, s.saved[id].destination)
    requires s.saved[id].status == Done && !HeldDone(s, id) ==> Whole(lib, Flushed(s.files, kept), s.saved[id])
    ensures JobOk(lib, Flushed(s.files, kept), Restored(s.saved[id], Flushed(s.files, kept)))
  {
    if HeldLive(s, id) {
      assert JobOk(lib, s.files, s.jobs[id]);
      FlushedPrefix(lib, s.files, kept, s.saved[id].file, s.saved[id].destination);
      if HeldDone(s, id) {
        FinishedFileIsFlushed(lib, s, kept, id);
      }
    }
    hide PartPath, Flushed, KeptOf, DisjointFiles, QueueOk;
  }

  lemma RestartClearsQueue(s: State, kept: map<Path, nat>, readable: bool)
    ensures QueueOk(RestartFrom(s, kept, readable))
  {
    hide PartPath, Flushed;
  }

  lemma RestartKeepsDisjoint(s: State, kept: map<Path, nat>, readable: bool)
    requires DisjointFiles(s.saved)
    ensures DisjointFiles(RestartFrom(s, kept, readable).jobs)
  {
    hide PartPath, Flushed, Apart;
    var jobs' := RestartFrom(s, kept, readable).jobs;
    forall a, b | a in jobs' && b in jobs' && a != b && jobs'[a].Live() && jobs'[b].Live()
      ensures Apart(jobs'[a].destination, jobs'[b].destination)
    {
      assert s.saved[a].Live() && s.saved[b].Live();
    }
  }

  lemma RestartKeeps(lib: Library, s: State, kept: map<Path, nat>, readable: bool)
    requires Invariant(lib, s) && KeptOf(s, kept)
    requires readable ==> StaleRowsFit(lib, s, Flushed(s.files, kept))
    ensures Invariant(lib, RestartFrom(s, kept, readable))
  {
    var s' := RestartFrom(s, kept, readable);
    RestartClearsQueue(s, kept, readable);
    RestartKeepsDisjoint(s, kept, readable);
    hide PartPath, DisjointFiles, JobOk, PhaseOk, Flushed, QueueOk, Restored, KeptOf, PartFits, Whole, HeldLive, HeldDone;
    forall id | id in s'.jobs
      ensures JobOk(lib, s'.files, s'.jobs[id])
    {
      RestoredRowOk(lib, s, kept, id);
    }
  }

  // ─── the state file ──────────────────────────────────────────────────────────

  lemma SavedElsewhere(lib: Library, s: State, saved: map<JobId, Job>, saving: Option<map<JobId, Job>>)
    requires Invariant(lib, s) && DisjointFiles(saved) && (saving.Some? ==> DisjointFiles(saving.value))
    ensures Invariant(lib, s.(saved := saved, saving := saving))
  {
    hide PartPath, JobOk, PhaseOk, DisjointFiles, NoDuplicates;
  }

  /** The list a write was made from was disjoint when it was taken, and it does not change. */
  lemma SavingKeeps(lib: Library, s: State)
    requires Invariant(lib, s)
    ensures Invariant(lib, Step(s, SaveBegins)) && Invariant(lib, Step(s, SaveLands)) && Invariant(lib, Step(s, SaveFails))
  {
    hide PartPath, JobOk, PhaseOk, DisjointFiles, QueueOk;
    SavedElsewhere(lib, s, s.saved, Some(s.jobs));
    SavedElsewhere(lib, s, s.saved, None);
    if s.saving.Some? {
      SavedElsewhere(lib, s, s.saving.value, None);
    }
  }
}
