/** `reconcile` of `apps/server/src/library/indexer.ts`: the rows of one folder brought up to date,
    against a rebuild from nothing. */
module Reconcile {
  import opened Text
  import opened Walk

  /** The columns computed from the name. */
  datatype Derived = Derived(ext: Option<string>, kind: string, printable: bool, playable: bool)

  /** What `describe` and `path.extname` say of a name; a directory has nothing of it. */
  type Describe = (string, bool) -> Derived

  /** A row of `files`, under its path: the id is a digest of folder and path. */
  datatype Row = Row(parentPath: string, name: string, isDir: bool, size: Option<int>, mtime: Option<int>, derived: Derived, indexedAt: int)

  datatype Counters = Counters(inserted: nat, updated: nat, fileCount: nat, totalBytes: int)

  datatype Pass = Pass(rows: map<string, Row>, existing: map<string, Row>, counters: Counters)

  function Fresh(w: Walked, describe: Describe, now: int): Row {
    Row(w.parentPath, w.name, w.isDir, w.size, w.mtime, describe(w.name, w.isDir), now)
  }

  predicate Unchanged(prior: Row, w: Walked) {
    prior.isDir == w.isDir && prior.size == w.size && prior.mtime == w.mtime
  }

  function Counted(c: Counters, w: Walked): Counters {
    if w.isDir then c
    else c.(fileCount := c.fileCount + 1, totalBytes := c.totalBytes + (if w.size.Some? then w.size.value else 0))
  }

  /** One entry of a batch. */
  function Apply(p: Pass, w: Walked, describe: Describe, now: int): Pass {
    var counters := Counted(p.counters, w);
    var left := p.existing - {w.relPath};
    if w.relPath in p.existing then
      if Unchanged(p.existing[w.relPath], w) then Pass(p.rows, left, counters)
      else Pass(p.rows[w.relPath := Fresh(w, describe, now)], left, counters.(updated := counters.updated + 1))
    else Pass(p.rows[w.relPath := Fresh(w, describe, now)], left, counters.(inserted := counters.inserted + 1))
  }

  function ApplyAll(p: Pass, walked: seq<Walked>, describe: Describe, now: int): Pass {
    if walked == [] then p
    else Apply(ApplyAll(p, walked[..|walked| - 1], describe, now), walked[|walked| - 1], describe, now)
  }

  datatype Result = Result(rows: map<string, Row>, counters: Counters, removed: nat)

  function Begin(was: map<string, Row>): Pass {
    Pass(was, was, Counters(0, 0, 0, 0))
  }

  /** The whole pass: every entry, then the deletion of what was not seen. */
  function Reconciled(was: map<string, Row>, walked: seq<Walked>, describe: Describe, now: int): Result {
    var p := ApplyAll(Begin(was), walked, describe, now);
    Result(p.rows - p.existing.Keys, p.counters, |p.existing|)
  }

  // ─── batches make no difference ──────────────────────────────────────────────

  lemma {:induction false} InTwoParts(p: Pass, a: seq<Walked>, b: seq<Walked>, describe: Describe, now: int)
    ensures ApplyAll(p, a + b, describe, now) == ApplyAll(ApplyAll(p, a, describe, now), b, describe, now)
    decreases |b|
  {
    if b == [] {
      assert a + b == a;
    } else {
      InTwoParts(p, a, b[..|b| - 1], describe, now);
      assert (a + b)[..|a + b| - 1] == a + b[..|b| - 1];
    }
  }

  method ApplyBatch(p: Pass, batch: seq<Walked>, describe: Describe, now: int) returns (after: Pass)
    ensures after == ApplyAll(p, batch, describe, now)
  {
    var rows, existing := p.rows, p.existing;
    var Counters(inserted, updated, fileCount, totalBytes) := p.counters;
    var i := 0;
    while i < |batch|
      invariant i <= |batch|
      invariant Pass(rows, existing, Counters(inserted, updated, fileCount, totalBytes)) == ApplyAll(p, batch[..i], describe, now)
    {
      var entry := batch[i];
      assert batch[..i + 1][..i] == batch[..i];
      i := i + 1;
      if !entry.isDir {
        fileCount := fileCount + 1;
        totalBytes := totalBytes + (if entry.size.Some? then entry.size.value else 0);
      }
      var prior := if entry.relPath in existing then Some(existing[entry.relPath]) else None;
      existing := existing - {entry.relPath};
      if prior.Some? && Unchanged(prior.value, entry) { continue; }
      rows := rows[entry.relPath := Row(entry.parentPath, entry.name, entry.isDir, entry.size, entry.mtime, describe(entry.name, entry.isDir), now)];
      if prior.Some? {
        updated := updated + 1;
      } else {
        inserted := inserted + 1;
      }
    }
    assert batch[..i] == batch;
    after := Pass(rows, existing, Counters(inserted, updated, fileCount, totalBytes));
  }

  /** The pass in batches of any size comes to the same. */
  method ReconcileInBatches(was: map<string, Row>, walked: seq<Walked>, describe: Describe, now: int, batchSize: nat) returns (result: Result)
    requires batchSize > 0
    ensures result == Reconciled(was, walked, describe, now)
  {
    hide ApplyAll, Begin;
    var p := Begin(was);
    var offset := 0;
    assert walked[..0] == [];
    NoBatch(p, describe, now);
    while offset < |walked|
      invariant offset <= |walked|
      invariant p == ApplyAll(Begin(was), walked[..offset], describe, now)
    {
      var end := if offset + batchSize < |walked| then offset + batchSize else |walked|;
      InTwoParts(Begin(was), walked[..offset], walked[offset..end], describe, now);
      assert walked[..offset] + walked[offset..end] == walked[..end];
      p := ApplyBatch(p, walked[offset..end], describe, now);
      offset := end;
    }
    assert walked[..offset] == walked;
    WholePass(was, walked, describe, now);
    result := Result(p.rows - p.existing.Keys, p.counters, |p.existing|);
  }

  lemma NoBatch(p: Pass, describe: Describe, now: int)
    ensures ApplyAll(p, [], describe, now) == p
  {}

  lemma WholePass(was: map<string, Row>, walked: seq<Walked>, describe: Describe, now: int)
    ensures var p := ApplyAll(Begin(was), walked, describe, now);
      Reconciled(was, walked, describe, now) == Result(p.rows - p.existing.Keys, p.counters, |p.existing|)
  {}

  // ─── what a pass leaves ──────────────────────────────────────────────────────

  ghost predicate Saw(walked: seq<Walked>, path: string) {
    exists i | 0 <= i < |walked| :: walked[i].relPath == path
  }

  /** The row an entry ends up with. */
  function Kept(was: map<string, Row>, w: Walked, describe: Describe, now: int): Row {
    if w.relPath in was && Unchanged(was[w.relPath], w) then was[w.relPath] else Fresh(w, describe, now)
  }

  ghost predicate Progress(p: Pass, was: map<string, Row>, walked: seq<Walked>, describe: Describe, now: int) {
    && Seen(p, was, walked)
    && Written(p, was, walked, describe, now)
    && |p.existing| + |walked| == |was| + p.counters.inserted
  }

  /** What is left to delete, and which paths have a row. */
  ghost predicate Seen(p: Pass, was: map<string, Row>, walked: seq<Walked>) {
    && (forall path | path in p.existing :: path in was && p.existing[path] == was[path])
    && (forall path :: path in p.existing <==> path in was && !Saw(walked, path))
    && (forall path :: path in p.rows <==> path in was || Saw(walked, path))
  }

  ghost predicate Written(p: Pass, was: map<string, Row>, walked: seq<Walked>, describe: Describe, now: int) {
    && (forall path | path in was && !Saw(walked, path) :: path in p.rows && p.rows[path] == was[path])
    && (forall i | 0 <= i < |walked| :: walked[i].relPath in p.rows && p.rows[walked[i].relPath] == Kept(was, walked[i], describe, now))
  }

  lemma {:induction false} EveryPassProgresses(was: map<string, Row>, walked: seq<Walked>, describe: Describe, now: int)
    requires OnceEach(walked)
    ensures Progress(ApplyAll(Begin(was), walked, describe, now), was, walked, describe, now)
    decreases |walked|
  {
    hide Progress, Apply, Begin;
    if walked == [] {
      NothingSeen(was, describe, now);
    } else {
      var front, last := walked[..|walked| - 1], walked[|walked| - 1];
      EveryPassProgresses(was, front, describe, now);
      assert walked == front + [last];
      OneMore(ApplyAll(Begin(was), front, describe, now), was, front, last, describe, now);
    }
  }

  lemma NothingSeen(was: map<string, Row>, describe: Describe, now: int)
    ensures Progress(Begin(was), was, [], describe, now)
  {
    hide Kept;
    assert forall path :: !Saw([], path);
  }

  lemma SawMore(front: seq<Walked>, last: Walked, path: string)
    ensures Saw(front + [last], path) <==> Saw(front, path) || last.relPath == path
  {
    if Saw(front, path) {
      var i :| 0 <= i < |front| && front[i].relPath == path;
      assert (front + [last])[i].relPath == path;
    }
    assert (front + [last])[|front|] == last;
  }

  ghost predicate New(front: seq<Walked>, last: Walked) {
    forall i | 0 <= i < |front| :: front[i].relPath != last.relPath
  }

  lemma OneMoreSeen(p: Pass, was: map<string, Row>, front: seq<Walked>, last: Walked, describe: Describe, now: int)
    requires New(front, last) && Seen(p, was, front)
    ensures Seen(Apply(p, last, describe, now), was, front + [last])
  {
    forall path ensures Saw(front + [last], path) <==> Saw(front, path) || last.relPath == path {
      SawMore(front, last, path);
    }
    hide Saw, Fresh, Unchanged;
  }

  lemma OneMoreWritten(p: Pass, was: map<string, Row>, front: seq<Walked>, last: Walked, describe: Describe, now: int)
    requires New(front, last) && Seen(p, was, front) && Written(p, was, front, describe, now)
    ensures Written(Apply(p, last, describe, now), was, front + [last], describe, now)
  {
    forall path ensures Saw(front + [last], path) <==> Saw(front, path) || last.relPath == path {
      SawMore(front, last, path);
    }
    assert !Saw(front, last.relPath);
    hide Saw, Fresh, Unchanged;
    var walked := front + [last];
    var after := Apply(p, last, describe, now);
    forall i | 0 <= i < |walked|
      ensures walked[i].relPath in after.rows && after.rows[walked[i].relPath] == Kept(was, walked[i], describe, now)
    {
      if i < |front| {
        assert walked[i] == front[i];
      } else {
        assert walked[i] == last;
      }
    }
  }

  lemma OneMoreCounted(p: Pass, was: map<string, Row>, front: seq<Walked>, last: Walked, describe: Describe, now: int)
    requires New(front, last) && Seen(p, was, front)
    requires |p.existing| + |front| == |was| + p.counters.inserted
    ensures |Apply(p, last, describe, now).existing| + |front + [last]| == |was| + Apply(p, last, describe, now).counters.inserted
  {
    var left := p.existing - {last.relPath};
    hide Seen;
    if last.relPath in p.existing {
      assert p.existing.Keys == left.Keys + {last.relPath};
      assert |p.existing.Keys| == |left.Keys| + 1;
    } else {
      assert left == p.existing;
    }
  }

  lemma OneMore(p: Pass, was: map<string, Row>, front: seq<Walked>, last: Walked, describe: Describe, now: int)
    requires OnceEach(front + [last]) && Progress(p, was, front, describe, now)
    ensures Progress(Apply(p, last, describe, now), was, front + [last], describe, now)
  {
    hide Seen, Written, Apply;
    forall i | 0 <= i < |front| ensures front[i].relPath != last.relPath {
      assert (front + [last])[i] == front[i] && (front + [last])[|front|] == last;
    }
    OneMoreSeen(p, was, front, last, describe, now);
    OneMoreWritten(p, was, front, last, describe, now);
    OneMoreCounted(p, was, front, last, describe, now);
  }

  /** After one full pass the folder holds exactly the paths that were walked; an unchanged row is
      left alone and every other one is as a rebuild would write it. */
  lemma PassHoldsTheWalk(was: map<string, Row>, walked: seq<Walked>, describe: Describe, now: int)
    requires OnceEach(walked)
    ensures var result := Reconciled(was, walked, describe, now);
      && (forall path :: path in result.rows <==> Saw(walked, path))
      && (forall i | 0 <= i < |walked| ::
            walked[i].relPath in result.rows && result.rows[walked[i].relPath] == Kept(was, walked[i], describe, now))
      && |was| - result.removed + result.counters.inserted == |walked|
  {
    EveryPassProgresses(was, walked, describe, now);
    hide Kept;
  }

  // ─── against a rebuild ───────────────────────────────────────────────────────

  /** A row without the time it was written at. */
  function Content(row: Row): Row {
    row.(indexedAt := 0)
  }

  ghost predicate SameContent(a: map<string, Row>, b: map<string, Row>) {
    && (forall path :: path in a <==> path in b)
    && (forall path | path in a && path in b :: Content(a[path]) == Content(b[path]))
  }

  /** A row that would be left alone says about name and parent what would be written today. */
  ghost predicate True(was: map<string, Row>, w: Walked, describe: Describe) {
    w.relPath in was && Unchanged(was[w.relPath], w) ==>
      && was[w.relPath].parentPath == w.parentPath && was[w.relPath].name == w.name
      && was[w.relPath].derived == describe(w.name, w.isDir)
  }

  ghost predicate StillTrue(was: map<string, Row>, walked: seq<Walked>, describe: Describe) {
    forall i | 0 <= i < |walked| :: True(was, walked[i], describe)
  }

  lemma KeptIsTrue(was: map<string, Row>, w: Walked, describe: Describe, now: int)
    ensures Content(Kept(was, w, describe, now)) == Content(Kept(map[], w, describe, now)) <==> True(was, w, describe)
  {}

  /** The incremental pass leaves what a rebuild from an empty table would, whatever was there before,
      exactly when the rows it leaves alone are still true. */
  lemma PassEqualsRebuild(was: map<string, Row>, walked: seq<Walked>, describe: Describe, now: int)
    requires OnceEach(walked)
    ensures SameContent(Reconciled(was, walked, describe, now).rows, Reconciled(map[], walked, describe, now).rows)
       <==> StillTrue(was, walked, describe)
  {
    hide Reconciled, Kept, Content, True, OnceEach;
    PassHoldsTheWalk(was, walked, describe, now);
    PassHoldsTheWalk(map[], walked, describe, now);
    var passed, rebuilt := Reconciled(was, walked, describe, now).rows, Reconciled(map[], walked, describe, now).rows;
    forall i | 0 <= i < |walked|
      ensures Content(passed[walked[i].relPath]) == Content(rebuilt[walked[i].relPath]) <==> True(was, walked[i], describe)
    {
      KeptIsTrue(was, walked[i], describe, now);
    }
    if SameContent(passed, rebuilt) {
      forall i | 0 <= i < |walked| ensures True(was, walked[i], describe) {
        assert walked[i].relPath in passed && walked[i].relPath in rebuilt;
      }
    }
  }

  // ─── nothing to do the second time ───────────────────────────────────────────

  ghost predicate AllUnchanged(was: map<string, Row>, walked: seq<Walked>) {
    forall i | 0 <= i < |walked| :: walked[i].relPath in was && Unchanged(was[walked[i].relPath], walked[i])
  }

  lemma {:induction false} NothingWritten(was: map<string, Row>, walked: seq<Walked>, describe: Describe, now: int)
    requires OnceEach(walked) && AllUnchanged(was, walked)
    ensures var p := ApplyAll(Begin(was), walked, describe, now);
      p.rows == was && p.counters.inserted == 0 && p.counters.updated == 0
    decreases |walked|
  {
    if walked != [] {
      var front, last := walked[..|walked| - 1], walked[|walked| - 1];
      assert walked == front + [last];
      NothingWritten(was, front, describe, now);
      EveryPassProgresses(was, front, describe, now);
      forall i | 0 <= i < |front| ensures front[i].relPath != last.relPath {
        assert walked[i] == front[i];
      }
      assert !Saw(front, last.relPath);
      assert walked[|walked| - 1] == last;
    }
  }

  /** A second pass over the same walk writes no file row and removes none. */
  lemma SecondPassWritesNothing(was: map<string, Row>, walked: seq<Walked>, describe: Describe, now: int, later: int)
    requires OnceEach(walked)
    ensures var first := Reconciled(was, walked, describe, now);
      var second := Reconciled(first.rows, walked, describe, later);
      second.rows == first.rows && second.counters.inserted == 0 && second.counters.updated == 0 && second.removed == 0
  {
    hide Reconciled, ApplyAll, Written, OnceEach, Begin;
    var first := Reconciled(was, walked, describe, now);
    PassHoldsTheWalk(was, walked, describe, now);
    assert AllUnchanged(first.rows, walked);
    hide Kept, Unchanged;
    EveryPassProgresses(first.rows, walked, describe, later);
    NothingWritten(first.rows, walked, describe, later);
    var p := ApplyAll(Begin(first.rows), walked, describe, later);
    assert p.existing == map[] && p.rows - {} == p.rows;
    WholePass(first.rows, walked, describe, later);
  }

  // ─── the counters ────────────────────────────────────────────────────────────

  function Files(walked: seq<Walked>): nat {
    if walked == [] then 0 else Files(walked[..|walked| - 1]) + (if walked[|walked| - 1].isDir then 0 else 1)
  }

  function Bytes(walked: seq<Walked>): int {
    if walked == [] then 0
    else
      var last := walked[|walked| - 1];
      Bytes(walked[..|walked| - 1]) + (if last.isDir || last.size.None? then 0 else last.size.value)
  }

  /** The counts shown for a folder are those of the walk, whatever was stored before. */
  lemma {:induction false} CountsAreOfTheWalk(was: map<string, Row>, walked: seq<Walked>, describe: Describe, now: int)
    ensures Reconciled(was, walked, describe, now).counters.fileCount == Files(walked)
    ensures Reconciled(was, walked, describe, now).counters.totalBytes == Bytes(walked)
    decreases |walked|
  {
    hide Apply;
    if walked != [] {
      var front, last := walked[..|walked| - 1], walked[|walked| - 1];
      CountsAreOfTheWalk(was, front, describe, now);
      ApplyCounts(ApplyAll(Begin(was), front, describe, now), last, describe, now);
    }
  }

  lemma ApplyCounts(p: Pass, w: Walked, describe: Describe, now: int)
    ensures var after := Apply(p, w, describe, now).counters;
      && after.fileCount == p.counters.fileCount + (if w.isDir then 0 else 1)
      && after.totalBytes == p.counters.totalBytes + (if w.isDir || w.size.None? then 0 else w.size.value)
  {
    hide Fresh, Unchanged;
  }

  function LeftAlone(was: map<string, Row>, walked: seq<Walked>): nat {
    if walked == [] then 0
    else
      var last := walked[|walked| - 1];
      LeftAlone(was, walked[..|walked| - 1])
      + (if last.relPath in was && Unchanged(was[last.relPath], last) then 1 else 0)
  }

  /** Every entry of the walk is counted once, as inserted, updated or left alone. */
  lemma {:induction false} EveryEntryIsCounted(was: map<string, Row>, walked: seq<Walked>, describe: Describe, now: int)
    requires OnceEach(walked)
    ensures var counters := Reconciled(was, walked, describe, now).counters;
      counters.inserted + counters.updated + LeftAlone(was, walked) == |walked|
    decreases |walked|
  {
    hide Apply, Unchanged, Seen, Written, OnceEach;
    if walked != [] {
      var front, last := walked[..|walked| - 1], walked[|walked| - 1];
      assert walked == front + [last];
      NewAtTheEnd(front, last);
      EveryEntryIsCounted(was, front, describe, now);
      EveryPassProgresses(was, front, describe, now);
      CountedOnce(ApplyAll(Begin(was), front, describe, now), was, front, last, describe, now);
    }
  }

  lemma NewAtTheEnd(front: seq<Walked>, last: Walked)
    requires OnceEach(front + [last])
    ensures OnceEach(front) && New(front, last)
  {
    var walked := front + [last];
    assert walked[|front|] == last;
    assert forall i | 0 <= i < |front| :: walked[i] == front[i];
  }

  lemma CountedOnce(p: Pass, was: map<string, Row>, front: seq<Walked>, last: Walked, describe: Describe, now: int)
    requires New(front, last) && Seen(p, was, front)
    ensures var after := Apply(p, last, describe, now).counters;
      after.inserted + after.updated == p.counters.inserted + p.counters.updated
        + (if last.relPath in was && Unchanged(was[last.relPath], last) then 0 else 1)
  {
    assert !Saw(front, last.relPath);
    hide Saw, Fresh, Unchanged;
  }

  /** What a pass writes, it writes with what the walk found and the time of the pass; a row left alone
      keeps the time it was written at. */
  lemma WrittenAsFound(was: map<string, Row>, walked: seq<Walked>, describe: Describe, now: int, i: nat)
    requires OnceEach(walked) && i < |walked|
    ensures var w := walked[i];
      var rows := Reconciled(was, walked, describe, now).rows;
      && w.relPath in rows
      && (w.relPath in was && was[w.relPath].isDir == w.isDir && was[w.relPath].size == w.size && was[w.relPath].mtime == w.mtime
          ==> rows[w.relPath] == was[w.relPath])
      && (w.relPath !in was || was[w.relPath].isDir != w.isDir || was[w.relPath].size != w.size || was[w.relPath].mtime != w.mtime
          ==> rows[w.relPath] == Row(w.parentPath, w.name, w.isDir, w.size, w.mtime, describe(w.name, w.isDir), now))
  {
    hide Reconciled, OnceEach;
    PassHoldsTheWalk(was, walked, describe, now);
  }
}
