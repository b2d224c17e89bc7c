/** One pass over a shared folder (`indexFolder` of `apps/server/src/library/indexer.ts`): the tree
    is walked and the table brought up to date, against a table rebuilt from the tree alone. */
module Reindex {
  import opened Text
  import opened Reconcile
  import Walk

  /** The table as it would be written from nothing for what the tree lists. */
  function Rebuilt(root: Walk.Directory, maxDepth: nat, describe: Describe, now: int): map<string, Row> {
    Reconciled(map[], Walk.RowsOf(root, "", 0, maxDepth), describe, now).rows
  }

  /** Names lead from the folder to an entry with this path, within the depth and past no skipped one. */
  ghost predicate Reachable(root: Walk.Directory, maxDepth: nat, path: string) {
    exists f :: Walk.ShouldList(root, [], maxDepth, f) && Walk.JoinPath(f.path) == path
  }

  lemma SawInAnyOrder(a: seq<Walk.Walked>, b: seq<Walk.Walked>, path: string)
    requires multiset(a) == multiset(b) && Saw(a, path)
    ensures Saw(b, path)
  {
    var i :| 0 <= i < |a| && a[i].relPath == path;
    assert a[i] in multiset(b);
    var j :| 0 <= j < |b| && b[j] == a[i];
  }

  /** What a rebuild writes does not depend on the order of the walk. */
  lemma RebuildInAnyOrder(a: seq<Walk.Walked>, b: seq<Walk.Walked>, describe: Describe, now: int)
    requires Walk.OnceEach(a) && Walk.OnceEach(b) && multiset(a) == multiset(b)
    ensures Reconciled(map[], a, describe, now).rows == Reconciled(map[], b, describe, now).rows
  {
    hide Reconciled, Walk.OnceEach;
    PassHoldsTheWalk(map[], a, describe, now);
    PassHoldsTheWalk(map[], b, describe, now);
    var x, y := Reconciled(map[], a, describe, now).rows, Reconciled(map[], b, describe, now).rows;
    forall path ensures path in x <==> path in y {
      if path in x {
        SawInAnyOrder(a, b, path);
      }
      if path in y {
        SawInAnyOrder(b, a, path);
      }
    }
    forall path | path in x ensures x[path] == y[path] {
      var i :| 0 <= i < |a| && a[i].relPath == path;
      assert a[i] in multiset(b);
      var j :| 0 <= j < |b| && b[j] == a[i];
    }
  }

  lemma StillTrueInAnyOrder(was: map<string, Row>, a: seq<Walk.Walked>, b: seq<Walk.Walked>, describe: Describe)
    requires multiset(a) == multiset(b) && StillTrue(was, a, describe)
    ensures StillTrue(was, b, describe)
  {
    hide True;
    forall j | 0 <= j < |b| ensures True(was, b[j], describe) {
      assert b[j] in multiset(a);
      var i :| 0 <= i < |a| && a[i] == b[j];
    }
  }

  lemma SeenIsReachable(root: Walk.Directory, maxDepth: nat, path: string)
    requires Walk.GoodDirectory(root)
    ensures Saw(Walk.RowsOf(root, "", 0, maxDepth), path) <==> Reachable(root, maxDepth, path)
  {
    hide Walk.ShouldList, Walk.GoodDirectory;
    Walk.EachPathOnce(root, maxDepth);
    var listed := Walk.Listing(root, [], maxDepth);
    if Saw(Walk.RowsOf(root, "", 0, maxDepth), path) {
      var i :| 0 <= i < |listed| && Walk.Rows(listed)[i].relPath == path;
      Walk.ListedExactlyWhenReachable(root, [], maxDepth, listed[i]);
    }
    if Reachable(root, maxDepth, path) {
      var f :| Walk.ShouldList(root, [], maxDepth, f) && Walk.JoinPath(f.path) == path;
      Walk.ListedExactlyWhenReachable(root, [], maxDepth, f);
      var i :| 0 <= i < |listed| && listed[i] == f;
      assert Walk.Rows(listed)[i].relPath == path;
    }
  }

  /** However the walk ordered the tree: the table holds exactly the paths that names lead to, it
      equals the table rebuilt from the tree exactly when the rows left alone are still true. */
  lemma PassOverTheTree(was: map<string, Row>, root: Walk.Directory, maxDepth: nat, walked: seq<Walk.Walked>, describe: Describe, now: int)
    requires Walk.GoodDirectory(root) && multiset(walked) == multiset(Walk.RowsOf(root, "", 0, maxDepth))
    ensures var rows := Reconciled(was, walked, describe, now).rows;
      && (forall path :: path in rows <==> Reachable(root, maxDepth, path))
      && (SameContent(rows, Rebuilt(root, maxDepth, describe, now))
          <==> StillTrue(was, Walk.RowsOf(root, "", 0, maxDepth), describe))
  {
    hide Reconciled, Walk.OnceEach, Walk.GoodDirectory, Reachable, StillTrue;
    var listed := Walk.RowsOf(root, "", 0, maxDepth);
    Walk.EachPathOnce(root, maxDepth);
    Walk.OnceEachInAnyOrder(listed, walked);
    RebuildInAnyOrder(walked, listed, describe, now);
    PassHoldsTheWalk(was, walked, describe, now);
    PassEqualsRebuild(was, walked, describe, now);
    if StillTrue(was, walked, describe) {
      StillTrueInAnyOrder(was, walked, listed, describe);
    }
    if StillTrue(was, listed, describe) {
      StillTrueInAnyOrder(was, listed, walked, describe);
    }
    var rows := Reconciled(was, walked, describe, now).rows;
    forall path ensures path in rows <==> Reachable(root, maxDepth, path) {
      SeenIsReachable(root, maxDepth, path);
      if Saw(walked, path) {
        SawInAnyOrder(walked, listed, path);
      }
      if Saw(listed, path) {
        SawInAnyOrder(listed, walked, path);
      }
    }
  }

  /** The walk passes over a directory it may not list, the root included: a root that is there but
      cannot be listed counts as an empty folder and loses every row, where a missing one keeps them. */
  lemma UnlistableRootLosesEveryRow(was: map<string, Row>, maxDepth: nat, describe: Describe, now: int)
    ensures !Walk.Breaks(Walk.Denied, 0, maxDepth)
    ensures Reconciled(was, Walk.RowsOf(Walk.Denied, "", 0, maxDepth), describe, now).rows == map[]
  {
    PassHoldsTheWalk(was, [], describe, now);
    hide Reconciled;
    assert forall path :: !Saw([], path);
  }

  /** Stat, walk, then write. `present` is whether the root is there and a directory. */
  method IndexFolder(was: map<string, Row>, root: Walk.Directory, present: bool, maxDepth: nat, describe: Describe, now: int, batchSize: nat)
    returns (rows: map<string, Row>, result: Option<Result>)
    requires batchSize > 0 && Walk.GoodDirectory(root)
    ensures result.None? <==> !present || Walk.Breaks(root, 0, maxDepth)
    ensures result.None? ==> rows == was
    ensures result.Some? ==>
      && rows == result.value.rows
      && (forall path :: path in rows <==> Reachable(root, maxDepth, path))
      && (SameContent(rows, Rebuilt(root, maxDepth, describe, now))
          <==> StillTrue(was, Walk.RowsOf(root, "", 0, maxDepth), describe))
  {
    hide *;
    if !present {
      return was, None;
    }
    var walked := Walk.WalkTree(root, maxDepth);
    if walked.None? {
      return was, None;
    }
    var passed := ReconcileInBatches(was, walked.value, describe, now, batchSize);
    PassOverTheTree(was, root, maxDepth, walked.value, describe, now);
    rows := passed.rows;
    result := Some(passed);
  }
}
