/** `foreignInstances` of `apps/desktop/src/main/processes.ts`: which running processes belong to
    another instance of the program. */
module Processes {

  datatype Process = Process(pid: nat, ppid: nat)

  // ─── ours ────────────────────────────────────────────────────────────────────

  /** Every child of a member is a member. */
  predicate Closed(ours: set<nat>, all: seq<Process>) {
    forall p | p in all && p.ppid in ours :: p.pid in ours
  }

  /** `pid` is reached from one of the roots by child-of, through listed processes. */
  ghost predicate Descends(pid: nat, roots: set<nat>, all: seq<Process>, steps: nat)
    decreases steps
  {
    pid in roots || (steps > 0 && exists p | p in all :: p.pid == pid && Descends(p.ppid, roots, all, steps - 1))
  }

  ghost predicate AllDescend(ours: set<nat>, roots: set<nat>, all: seq<Process>) {
    forall pid | pid in ours :: exists steps: nat :: Descends(pid, roots, all, steps)
  }

  function Pids(all: seq<Process>): (pids: set<nat>)
    ensures forall p | p in all :: p.pid in pids
  {
    set p | p in all :: p.pid
  }

  lemma ChildDescends(p: Process, roots: set<nat>, all: seq<Process>)
    requires p in all && exists steps: nat :: Descends(p.ppid, roots, all, steps)
    ensures exists steps: nat :: Descends(p.pid, roots, all, steps)
  {
    var steps: nat :| Descends(p.ppid, roots, all, steps);
    assert Descends(p.pid, roots, all, steps + 1);
  }

  lemma {:induction false} DescendantsAreIn(ours: set<nat>, pid: nat, roots: set<nat>, all: seq<Process>, steps: nat)
    requires roots <= ours && Closed(ours, all) && Descends(pid, roots, all, steps)
    ensures pid in ours
    decreases steps
  {
    if pid !in roots {
      var p :| p in all && p.pid == pid && Descends(p.ppid, roots, all, steps - 1);
      DescendantsAreIn(ours, p.ppid, roots, all, steps - 1);
    }
  }

  /** The passes over the list, until one adds nothing. */
  method Ours(all: seq<Process>, pid: nat, ppid: nat) returns (ours: set<nat>)
    ensures {pid, ppid} <= ours && Closed(ours, all)
    ensures AllDescend(ours, {pid, ppid}, all)
  {
    var roots := {pid, ppid};
    ours := roots;
    RootsDescend(roots, all);
    var grew := true;
    while grew
      invariant roots <= ours <= roots + Pids(all) && AllDescend(ours, roots, all)
      invariant !grew ==> Closed(ours, all)
      decreases |roots + Pids(all)| - |ours|, if grew then 1 else 0
    {
      grew := false;
      ghost var before := ours;
      var i := 0;
      while i < |all|
        invariant i <= |all|
        invariant before <= ours <= roots + Pids(all) && AllDescend(ours, roots, all)
        invariant if grew then before < ours else before == ours && Closed(ours, all[..i])
      {
        var proc := all[i];
        assert all[..i + 1] == all[..i] + [proc];
        if proc.pid !in ours && proc.ppid in ours {
          ChildDescends(proc, roots, all);
          ours := ours + {proc.pid};
          grew := true;
        }
        i := i + 1;
      }
      assert all[..i] == all;
      if grew {
        Larger(before, ours);
        Bounded(ours, roots + Pids(all));
      }
    }
  }

  lemma RootsDescend(roots: set<nat>, all: seq<Process>)
    ensures AllDescend(roots, roots, all)
  {
    forall pid | pid in roots ensures Descends(pid, roots, all, 0) {}
  }

  lemma Larger(a: set<nat>, b: set<nat>)
    requires a < b
    ensures |a| < |b|
  {
    assert b == a + (b - a);
  }

  lemma Bounded(a: set<nat>, b: set<nat>)
    requires a <= b
    ensures |a| <= |b|
  {
    assert b == a + (b - a);
  }

  /** The set is the least one that holds this process and its parent and is closed under child-of;
      so children of the parent other than this process count as ours as well. */
  lemma OursIsLeast(ours: set<nat>, other: set<nat>, pid: nat, ppid: nat, all: seq<Process>)
    requires {pid, ppid} <= ours && Closed(ours, all) && AllDescend(ours, {pid, ppid}, all)
    requires {pid, ppid} <= other && Closed(other, all)
    ensures ours <= other
  {
    forall p | p in ours ensures p in other {
      var steps: nat :| Descends(p, {pid, ppid}, all, steps);
      DescendantsAreIn(other, p, {pid, ppid}, all, steps);
    }
  }

  ghost predicate DescendsFrom(q: nat, pid: nat, all: seq<Process>) {
    exists steps: nat :: Descends(q, {pid}, all, steps)
  }

  /** What the comment on the function calls us: this process, its parent, and our descendants. */
  ghost predicate AsDescribed(ours: set<nat>, pid: nat, ppid: nat, all: seq<Process>) {
    forall q :: q in ours <==> q == ppid || DescendsFrom(q, pid, all)
  }

  /** Whoever the parent started besides us. */
  ghost predicate ParentStartedOnlyUs(pid: nat, ppid: nat, all: seq<Process>) {
    forall p | p in all && p.ppid == ppid :: p.pid == ppid || DescendsFrom(p.pid, pid, all)
  }

  lemma {:induction false} DescendsFromOneRoot(q: nat, pid: nat, ppid: nat, all: seq<Process>, steps: nat)
    requires ParentStartedOnlyUs(pid, ppid, all) && Descends(q, {pid, ppid}, all, steps)
    ensures q == ppid || DescendsFrom(q, pid, all)
    decreases steps
  {
    if q == pid {
      assert Descends(q, {pid}, all, 0);
    } else if q != ppid {
      var p :| p in all && p.pid == q && Descends(p.ppid, {pid, ppid}, all, steps - 1);
      DescendsFromOneRoot(p.ppid, pid, ppid, all, steps - 1);
      if p.ppid != ppid {
        ChildDescends(p, {pid}, all);
      }
    }
  }

  lemma {:induction false} MoreRoots(q: nat, pid: nat, ppid: nat, all: seq<Process>, steps: nat)
    requires Descends(q, {pid}, all, steps)
    ensures Descends(q, {pid, ppid}, all, steps)
    decreases steps
  {
    if q != pid {
      var p :| p in all && p.pid == q && Descends(p.ppid, {pid}, all, steps - 1);
      MoreRoots(p.ppid, pid, ppid, all, steps - 1);
    }
  }

  /** The set is the one the comment describes exactly when the parent has no other children: theirs
      would count as ours too. */
  lemma OursIsAsDescribedExactlyWhen(ours: set<nat>, pid: nat, ppid: nat, all: seq<Process>)
    requires {pid, ppid} <= ours && Closed(ours, all) && AllDescend(ours, {pid, ppid}, all)
    ensures AsDescribed(ours, pid, ppid, all) <==> ParentStartedOnlyUs(pid, ppid, all)
  {
    forall q | DescendsFrom(q, pid, all) ensures q in ours {
      var steps: nat :| Descends(q, {pid}, all, steps);
      MoreRoots(q, pid, ppid, all, steps);
      DescendantsAreIn(ours, q, {pid, ppid}, all, steps);
    }
    if ParentStartedOnlyUs(pid, ppid, all) {
      forall q | q in ours ensures q == ppid || DescendsFrom(q, pid, all) {
        var steps: nat :| Descends(q, {pid, ppid}, all, steps);
        DescendsFromOneRoot(q, pid, ppid, all, steps);
      }
    } else {
      var p :| p in all && p.ppid == ppid && p.pid != ppid && !DescendsFrom(p.pid, pid, all);
      assert p.pid in ours;
    }
  }

  // ─── theirs ──────────────────────────────────────────────────────────────────

  function Filtered(all: seq<Process>, ours: set<nat>): (foreign: seq<Process>)
    ensures forall p :: p in foreign <==> p in all && p.pid !in ours
  {
    if all == [] then []
    else if all[0].pid !in ours then [all[0]] + Filtered(all[1..], ours)
    else Filtered(all[1..], ours)
  }

  /** Listed under a process of the same foreign tree. */
  predicate HasForeignParent(p: Process, foreign: seq<Process>) {
    p.ppid in Pids(foreign)
  }

  /** The comparison the sort uses: roots first, then by number. */
  predicate Precedes(a: Process, b: Process, foreign: seq<Process>) {
    if HasForeignParent(a, foreign) != HasForeignParent(b, foreign) then HasForeignParent(b, foreign)
    else a.pid <= b.pid
  }

  ghost predicate Ordered(s: seq<Process>, foreign: seq<Process>) {
    forall i, j | 0 <= i < j < |s| :: Precedes(s[i], s[j], foreign)
  }

  /** A stable sort: each process goes before the first that must come after it. */
  function Insert(p: Process, sorted: seq<Process>, foreign: seq<Process>): seq<Process> {
    if sorted == [] then [p]
    else if Precedes(sorted[0], p, foreign) then [sorted[0]] + Insert(p, sorted[1..], foreign)
    else [p] + sorted
  }

  function Sorted(s: seq<Process>, foreign: seq<Process>): seq<Process> {
    if s == [] then [] else Insert(s[|s| - 1], Sorted(s[..|s| - 1], foreign), foreign)
  }

  lemma {:induction false} InsertAdds(p: Process, sorted: seq<Process>, foreign: seq<Process>)
    ensures multiset(Insert(p, sorted, foreign)) == multiset(sorted) + multiset{p}
    decreases |sorted|
  {
    hide Precedes;
    if sorted != [] {
      InsertAdds(p, sorted[1..], foreign);
      assert sorted == [sorted[0]] + sorted[1..];
    }
  }

  lemma {:induction false} InsertKeepsOrder(p: Process, sorted: seq<Process>, foreign: seq<Process>)
    requires Ordered(sorted, foreign)
    ensures Ordered(Insert(p, sorted, foreign), foreign)
    decreases |sorted|
  {
    if sorted != [] {
      var head, tail := sorted[0], sorted[1..];
      if Precedes(head, p, foreign) {
        InsertKeepsOrder(p, tail, foreign);
        InsertAdds(p, tail, foreign);
        hide Precedes;
        var rest := Insert(p, tail, foreign);
        forall j | 0 <= j < |rest| ensures Precedes(head, rest[j], foreign) {
          assert rest[j] in multiset(rest);
          if rest[j] != p {
            assert rest[j] in multiset(tail);
            var k :| 0 <= k < |tail| && tail[k] == rest[j];
            assert sorted[k + 1] == rest[j];
          }
        }
        InFront(head, rest, foreign);
      } else {
        forall j | 0 <= j < |sorted| ensures Precedes(p, sorted[j], foreign) {}
        hide Precedes;
        InFront(p, sorted, foreign);
      }
    }
  }

  lemma InFront(p: Process, sorted: seq<Process>, foreign: seq<Process>)
    requires Ordered(sorted, foreign) && forall j | 0 <= j < |sorted| :: Precedes(p, sorted[j], foreign)
    ensures Ordered([p] + sorted, foreign)
  {
    hide Precedes;
  }

  lemma {:induction false} SortedIsOrdered(s: seq<Process>, foreign: seq<Process>)
    ensures Ordered(Sorted(s, foreign), foreign) && multiset(Sorted(s, foreign)) == multiset(s)
    decreases |s|
  {
    if s != [] {
      var front, last := s[..|s| - 1], s[|s| - 1];
      SortedIsOrdered(front, foreign);
      InsertKeepsOrder(last, Sorted(front, foreign), foreign);
      InsertAdds(last, Sorted(front, foreign), foreign);
      hide Precedes;
      assert s == front + [last];
    }
  }

  predicate DistinctPids(s: seq<Process>) {
    forall i, j | 0 <= i < j < |s| :: s[i].pid != s[j].pid
  }

  /** Each listed parent comes before its children. */
  predicate ParentsFirst(s: seq<Process>) {
    forall i, j | 0 <= i < |s| && 0 <= j < |s| && i != j && s[j].ppid == s[i].pid :: i < j
  }

  /** Below the roots, a parent has a smaller number than each of its children. */
  predicate NumberedDownwards(foreign: seq<Process>) {
    forall parent, child | parent in foreign && child in foreign && child != parent && child.ppid == parent.pid ::
      HasForeignParent(parent, foreign) ==> parent.pid < child.pid
  }

  lemma OrderedParentsFirst(s: seq<Process>, foreign: seq<Process>)
    requires Ordered(s, foreign) && DistinctPids(s) && Pids(s) == Pids(foreign)
    ensures ParentsFirst(s) <==> NumberedDownwards(s)
  {
    assert forall p :: HasForeignParent(p, s) <==> HasForeignParent(p, foreign);
    if NumberedDownwards(s) {
      forall i, j | 0 <= i < |s| && 0 <= j < |s| && i != j && s[j].ppid == s[i].pid ensures i < j {
        var parent, child := s[i], s[j];
        assert parent.pid != child.pid && !Precedes(child, parent, foreign);
      }
    }
    if ParentsFirst(s) {
      forall parent, child | parent in s && child in s && child != parent && child.ppid == parent.pid && HasForeignParent(parent, s)
        ensures parent.pid < child.pid
      {
        var i :| 0 <= i < |s| && s[i] == parent;
        var j :| 0 <= j < |s| && s[j] == child;
        assert i < j && Precedes(s[i], s[j], foreign);
        assert s[i].pid != s[j].pid;
      }
    }
  }

  /** The promise of the comment, each parent before its children, is kept exactly when the numbers
      of the deeper processes happen to go up from parent to child. */
  lemma ParentsFirstExactlyWhenNumberedDownwards(foreign: seq<Process>)
    requires DistinctPids(foreign)
    ensures ParentsFirst(Sorted(foreign, foreign)) <==> NumberedDownwards(foreign)
  {
    var s := Sorted(foreign, foreign);
    SortedIsOrdered(foreign, foreign);
    SameMembers(s, foreign);
    DistinctEitherWay(s, foreign);
    OrderedParentsFirst(s, foreign);
  }

  lemma DistinctEitherWay(s: seq<Process>, t: seq<Process>)
    requires multiset(s) == multiset(t) && DistinctPids(t)
    ensures DistinctPids(s)
  {
    forall i, j | 0 <= i < j < |s| ensures s[i].pid != s[j].pid {
      if s[i] == s[j] {
        TwiceListed(s, i, j);
        OnceListed(t, s[i]);
      } else {
        assert s[i] in multiset(s) && s[j] in multiset(s);
        assert s[i] in t && s[j] in t;
      }
    }
  }

  lemma TwiceListed(s: seq<Process>, i: nat, j: nat)
    requires i < j < |s| && s[i] == s[j]
    ensures multiset(s)[s[i]] >= 2
  {
    assert s == s[..j] + [s[j]] + s[j + 1..];
    assert s[i] in s[..j];
  }

  lemma {:induction false} OnceListed(t: seq<Process>, p: Process)
    requires DistinctPids(t)
    ensures multiset(t)[p] <= 1
  {
    if p in t {
      var i :| 0 <= i < |t| && t[i] == p;
      assert t == t[..i] + [p] + t[i + 1..];
      assert p !in t[..i] && p !in t[i + 1..];
    }
  }

  /** Exactly the listed processes outside the closure, each as often as listed, roots of their tree
      first. */
  method ForeignInstances(all: seq<Process>, pid: nat, ppid: nat) returns (foreign: seq<Process>, ghost ours: set<nat>)
    ensures {pid, ppid} <= ours && Closed(ours, all) && AllDescend(ours, {pid, ppid}, all)
    ensures forall p :: p in foreign <==> p in all && p.pid !in ours
    ensures multiset(foreign) == multiset(Filtered(all, ours))
    ensures forall i, j | 0 <= i < j < |foreign| && HasForeignParent(foreign[i], foreign) :: HasForeignParent(foreign[j], foreign)
    ensures AsDescribed(ours, pid, ppid, all) <==> ParentStartedOnlyUs(pid, ppid, all)
    ensures DistinctPids(foreign) ==> (ParentsFirst(foreign) <==> NumberedDownwards(foreign))
  {
    var mine := Ours(all, pid, ppid);
    ours := mine;
    var theirs := Filtered(all, mine);
    foreign := Sorted(theirs, theirs);
    SortedIsOrdered(theirs, theirs);
    SameMembers(foreign, theirs);
    OursIsAsDescribedExactlyWhen(mine, pid, ppid, all);
    if DistinctPids(foreign) {
      OrderedParentsFirst(foreign, theirs);
    }
    forall i, j | 0 <= i < j < |foreign| && HasForeignParent(foreign[i], foreign) ensures HasForeignParent(foreign[j], foreign) {
      assert Precedes(foreign[i], foreign[j], theirs);
    }
  }

  lemma SameMembers(a: seq<Process>, b: seq<Process>)
    requires multiset(a) == multiset(b)
    ensures (forall p :: p in a <==> p in b) && Pids(a) == Pids(b)
  {
    forall p ensures p in a <==> p in b {
      assert p in multiset(a) <==> p in multiset(b);
    }
  }

  /** Below the roots a child can come before its parent: of a chain 5, 9, 7 the last precedes the
      second. */
  lemma DeeperOrderIsByNumber()
    ensures Sorted([Process(5, 1), Process(9, 5), Process(7, 9)], [Process(5, 1), Process(9, 5), Process(7, 9)])
         == [Process(5, 1), Process(7, 9), Process(9, 5)]
  {
    var a, b, c := Process(5, 1), Process(9, 5), Process(7, 9);
    var chain := [a, b, c];
    assert Pids(chain) == {5, 9, 7};
    assert !HasForeignParent(a, chain) && HasForeignParent(b, chain) && HasForeignParent(c, chain);
    assert chain[..2] == [a, b] && [a, b][..1] == [a] && [a][..0] == [];
    assert Insert(a, [], chain) == [a];
    assert Insert(b, [a], chain) == [a] + Insert(b, [], chain);
    assert [a, b][1..] == [b];
    assert Insert(c, [a, b], chain) == [a] + Insert(c, [b], chain);
    assert Insert(c, [b], chain) == [c] + [b];
    assert Sorted([a], chain) == [a];
    assert Sorted([a, b], chain) == [a, b];
    assert Sorted(chain, chain) == [a] + ([c] + [b]);
  }

  /** Our parent started a second process: it counts as ours although it does not descend from us. */
  lemma SiblingCountsAsOurs(ours: set<nat>)
    requires {10, 1} <= ours && Closed(ours, [Process(10, 1), Process(11, 1)])
    ensures 11 in ours && !DescendsFrom(11, 10, [Process(10, 1), Process(11, 1)])
  {
    var all := [Process(10, 1), Process(11, 1)];
    assert Process(11, 1) in all;
    forall steps: nat ensures !Descends(11, {10}, all, steps) {
      if steps > 0 {
        assert !Descends(1, {10}, all, steps - 1) by {
          assert forall p | p in all :: p.pid != 1;
        }
      }
    }
  }
}
