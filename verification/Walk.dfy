/** `walk` of `apps/server/src/library/indexer.ts`: a stack of directories against the tree. */
module Walk {
  import opened Text

  datatype Stat = Stat(size: int, mtime: int)

  /** One directory entry as it is on disk; links and devices are `Other`. */
  datatype Entry =
    | Dir(name: string, mtime: Option<int>, contents: Directory)
    | File(name: string, stat: Option<Stat>)
    | Other(name: string)

  /** What `readdir` answers: a refusal that is passed over, an error that ends the walk, or entries. */
  datatype Directory = Denied | Broken | Readable(entries: seq<Entry>)

  datatype Walked = Walked(relPath: string, parentPath: string, name: string, isDir: bool, size: Option<int>, mtime: Option<int>)

  const SKIP_DIRS: set<string> :=
    {"$RECYCLE.BIN", "SYSTEM VOLUME INFORMATION", "$WINDOWS.~BT", "$WINDOWS.~WS", "RECYCLER", ".GIT"}

  function Mapped(s: string, f: char -> char): string {
    seq(|s|, i requires 0 <= i < |s| => f(s[i]))
  }

  predicate ShouldSkip(name: string) {
    || Mapped(name, ToUpper) in SKIP_DIRS
    || "~$" <= name
    || Mapped(name, ToLower) == "thumbs.db"
    || Mapped(name, ToLower) == "desktop.ini"
  }

  // ─── what is to be listed ────────────────────────────────────────────────────

  /** An entry and the names that lead to it. */
  datatype Found = Found(path: seq<string>, isDir: bool, size: Option<int>, mtime: Option<int>)

  function Listing(dir: Directory, at: seq<string>, maxDepth: nat): seq<Found>
    decreases dir, 2
  {
    match dir
    case Readable(entries) => ListEntries(entries, at, maxDepth)
    case _ => []
  }

  function ListEntries(entries: seq<Entry>, at: seq<string>, maxDepth: nat): seq<Found>
    decreases entries, 1
  {
    if entries == [] then [] else ListEntry(entries[0], at, maxDepth) + ListEntries(entries[1..], at, maxDepth)
  }

  function ListEntry(e: Entry, at: seq<string>, maxDepth: nat): seq<Found>
    decreases e, 0
  {
    if ShouldSkip(e.name) then []
    else
      match e
      case Other(_) => []
      case File(name, stat) => if stat.None? then [] else [Found(at + [name], false, Some(stat.value.size), Some(stat.value.mtime))]
      case Dir(name, mtime, contents) =>
        [Found(at + [name], true, None, mtime)]
        + (if |at| + 1 < maxDepth then Listing(contents, at + [name], maxDepth) else [])
  }

  /** Whether a directory the walk would read cannot be read. */
  predicate Breaks(dir: Directory, depth: nat, maxDepth: nat)
    decreases dir, 2
  {
    match dir
    case Denied => false
    case Broken => true
    case Readable(entries) => BreaksIn(entries, depth, maxDepth)
  }

  predicate BreaksIn(entries: seq<Entry>, depth: nat, maxDepth: nat)
    decreases entries, 1
  {
    entries != [] && (BreaksAt(entries[0], depth, maxDepth) || BreaksIn(entries[1..], depth, maxDepth))
  }

  predicate BreaksAt(e: Entry, depth: nat, maxDepth: nat)
    decreases e, 0
  {
    e.Dir? && !ShouldSkip(e.name) && depth + 1 < maxDepth && Breaks(e.contents, depth + 1, maxDepth)
  }

  // ─── paths ───────────────────────────────────────────────────────────────────

  function JoinPath(path: seq<string>): string {
    if path == [] then ""
    else if |path| == 1 then path[0]
    else JoinPath(path[..|path| - 1]) + "/" + path[|path| - 1]
  }

  predicate GoodName(name: string) {
    name != "" && '/' !in name
  }

  lemma {:induction false} JoinNonEmpty(path: seq<string>)
    requires path != [] && forall name | name in path :: GoodName(name)
    ensures JoinPath(path) != ""
  {
    assert path[0] in path;
  }

  /** The code's own way of extending a path. */
  function Extended(rel: string, name: string): string {
    if rel == "" then name else rel + "/" + name
  }

  lemma JoinExtends(at: seq<string>, name: string)
    requires forall n | n in at :: GoodName(n)
    ensures JoinPath(at + [name]) == Extended(JoinPath(at), name)
  {
    assert (at + [name])[..|at|] == at;
    if at != [] {
      JoinNonEmpty(at);
    }
  }

  lemma SlashIsLast(a: string, x: string)
    requires '/' !in x
    ensures var s := a + "/" + x; s[|a|] == '/' && (forall i | |a| < i < |s| :: s[i] != '/') && a == s[..|a|] && x == s[|a| + 1..]
  {
    var s := a + "/" + x;
    forall i | |a| < i < |s| ensures s[i] != '/' {
      assert s[i] == x[i - |a| - 1] && x[i - |a| - 1] in x;
    }
  }

  lemma LastSlash(a: string, b: string, x: string, y: string)
    requires '/' !in x && '/' !in y && a + "/" + x == b + "/" + y
    ensures a == b && x == y
  {
    SlashIsLast(a, x);
    SlashIsLast(b, y);
  }

  lemma SlashInJoin(path: seq<string>)
    requires |path| >= 2
    ensures '/' in JoinPath(path)
  {
    assert JoinPath(path)[|JoinPath(path[..|path| - 1])|] == '/';
  }

  /** Different name lists are different paths. */
  lemma {:induction false} JoinInjective(p: seq<string>, q: seq<string>)
    requires (forall n | n in p :: GoodName(n)) && (forall n | n in q :: GoodName(n))
    requires JoinPath(p) == JoinPath(q)
    ensures p == q
    decreases |p|
  {
    if p == [] || q == [] {
      if p != [] { JoinNonEmpty(p); }
      if q != [] { JoinNonEmpty(q); }
    } else {
      var pf, pl := p[..|p| - 1], p[|p| - 1];
      var qf, ql := q[..|q| - 1], q[|q| - 1];
      assert p == pf + [pl] && q == qf + [ql] && pl in p && ql in q;
      assert (forall n | n in pf :: n in p) && (forall n | n in qf :: n in q);
      if pf == [] && qf == [] {
      } else if pf == [] {
        SlashInJoin(q);
      } else if qf == [] {
        SlashInJoin(p);
      } else {
        LastSlash(JoinPath(pf), JoinPath(qf), pl, ql);
        JoinInjective(pf, qf);
      }
    }
  }

  // ─── listed exactly when reachable ───────────────────────────────────────────

  /** Following the names from `dir`, past no skipped entry, leads to `target`. */
  ghost predicate Reaches(dir: Directory, names: seq<string>, target: Entry)
    decreases |names|
  {
    && names != [] && dir.Readable?
    && exists e | e in dir.entries :: Via(e, names, target)
  }

  ghost predicate Via(e: Entry, names: seq<string>, target: Entry)
    requires names != []
    decreases |names|, 0
  {
    && e.name == names[0] && !ShouldSkip(e.name)
    && if |names| == 1 then e == target else e.Dir? && Reaches(e.contents, names[1..], target)
  }

  /** What the entry is listed as. */
  predicate ListedAs(target: Entry, f: Found) {
    match target
    case Other(_) => false
    case File(_, stat) => stat.Some? && !f.isDir && f.size == Some(stat.value.size) && f.mtime == Some(stat.value.mtime)
    case Dir(_, mtime, _) => f.isDir && f.size == None && f.mtime == mtime
  }

  /** Deepest level that is listed, counting the entries of the folder itself as one. */
  function Limit(at: nat, maxDepth: nat): nat {
    if maxDepth <= at + 1 then at + 1 else maxDepth
  }

  ghost predicate ShouldList(dir: Directory, at: seq<string>, maxDepth: nat, f: Found) {
    && |at| < |f.path| <= Limit(|at|, maxDepth) && f.path[..|at|] == at
    && exists target :: Reaches(dir, f.path[|at|..], target) && ListedAs(target, f)
  }

  ghost predicate ShouldListVia(e: Entry, at: seq<string>, maxDepth: nat, f: Found) {
    && |at| < |f.path| <= Limit(|at|, maxDepth) && f.path[..|at|] == at
    && exists target :: Via(e, f.path[|at|..], target) && ListedAs(target, f)
  }

  /** The walk lists an entry exactly when names lead to it, no name of them skipped, within the
      depth, past readable directories only. */
  lemma {:induction false} ListedExactlyWhenReachable(dir: Directory, at: seq<string>, maxDepth: nat, f: Found)
    ensures f in Listing(dir, at, maxDepth) <==> ShouldList(dir, at, maxDepth, f)
    decreases dir, 2
  {
    match dir
    case Readable(entries) =>
      EntriesListed(entries, at, maxDepth, f);
      SomeEntry(dir, at, maxDepth, f);
    case _ =>
  }

  lemma SomeEntry(dir: Directory, at: seq<string>, maxDepth: nat, f: Found)
    requires dir.Readable?
    ensures ShouldList(dir, at, maxDepth, f) <==> exists e | e in dir.entries :: ShouldListVia(e, at, maxDepth, f)
  {
    if ShouldList(dir, at, maxDepth, f) {
      var target :| Reaches(dir, f.path[|at|..], target) && ListedAs(target, f);
      var e :| e in dir.entries && Via(e, f.path[|at|..], target);
      assert ShouldListVia(e, at, maxDepth, f);
    }
    if e :| e in dir.entries && ShouldListVia(e, at, maxDepth, f) {
      var target :| Via(e, f.path[|at|..], target) && ListedAs(target, f);
      assert Reaches(dir, f.path[|at|..], target);
    }
  }

  lemma {:induction false} EntriesListed(entries: seq<Entry>, at: seq<string>, maxDepth: nat, f: Found)
    ensures f in ListEntries(entries, at, maxDepth) <==> exists e | e in entries :: ShouldListVia(e, at, maxDepth, f)
    decreases entries, 1
  {
    if entries != [] {
      EntryListed(entries[0], at, maxDepth, f);
      EntriesListed(entries[1..], at, maxDepth, f);
      assert forall e | e in entries :: e == entries[0] || e in entries[1..];
      assert forall e | e in entries[1..] :: e in entries;
    }
  }

  lemma {:induction false} EntryListed(e: Entry, at: seq<string>, maxDepth: nat, f: Found)
    ensures f in ListEntry(e, at, maxDepth) <==> ShouldListVia(e, at, maxDepth, f)
    decreases e, 0
  {
    hide ShouldSkip;
    var here := at + [e.name];
    if e.Dir? {
      ListedExactlyWhenReachable(e.contents, here, maxDepth, f);
      DirListed(e, at, maxDepth, f);
    } else {
      LeafListed(e, at, maxDepth, f);
    }
  }

  lemma LeafListed(e: Entry, at: seq<string>, maxDepth: nat, f: Found)
    requires !e.Dir?
    ensures f in ListEntry(e, at, maxDepth) <==> ShouldListVia(e, at, maxDepth, f)
  {
    hide ShouldSkip;
    var here := at + [e.name];
    if ShouldListVia(e, at, maxDepth, f) {
      assert f.path == f.path[..|at|] + f.path[|at|..];
      assert f.path[|at|..] == [e.name];
    }
    if f.path == here {
      assert f.path[|at|..] == [e.name] && f.path[..|at|] == at;
      assert Via(e, f.path[|at|..], e) <==> !ShouldSkip(e.name);
    }
  }

  lemma DirListed(e: Entry, at: seq<string>, maxDepth: nat, f: Found)
    requires e.Dir?
    requires f in Listing(e.contents, at + [e.name], maxDepth) <==> ShouldList(e.contents, at + [e.name], maxDepth, f)
    ensures f in ListEntry(e, at, maxDepth) <==> ShouldListVia(e, at, maxDepth, f)
  {
    hide ShouldSkip, Listing;
    var here := at + [e.name];
    if f.path == here {
      assert f.path[|at|..] == [e.name] && f.path[..|at|] == at;
      assert Via(e, f.path[|at|..], e) <==> !ShouldSkip(e.name);
      assert !ShouldList(e.contents, here, maxDepth, f);
    } else if |f.path| > |here| && f.path[..|here|] == here {
      assert f.path[..|at|] == f.path[..|here|][..|at|] == at;
      assert f.path[|at|..][0] == f.path[..|here|][|at|] == e.name;
      assert f.path[|at|..][1..] == f.path[|here|..];
      Deeper(e, at, maxDepth, f);
    } else {
      assert !ShouldList(e.contents, here, maxDepth, f);
      if ShouldListVia(e, at, maxDepth, f) {
        StartsHere(e, at, maxDepth, f);
      }
    }
  }

  lemma StartsHere(e: Entry, at: seq<string>, maxDepth: nat, f: Found)
    requires ShouldListVia(e, at, maxDepth, f)
    ensures |at| < |f.path| && f.path[..|at| + 1] == at + [e.name]
    ensures |f.path| == |at| + 1 ==> f.path == at + [e.name]
  {
    assert f.path[|at|..][0] == e.name;
    assert f.path == f.path[..|f.path|];
  }

  lemma Deeper(e: Entry, at: seq<string>, maxDepth: nat, f: Found)
    requires e.Dir? && |f.path| > |at| + 1 && f.path[..|at|] == at && f.path[|at|] == e.name
    requires f.path[|at|..][1..] == f.path[|at| + 1..] && f.path[..|at| + 1] == at + [e.name]
    ensures ShouldListVia(e, at, maxDepth, f)
        <==> !ShouldSkip(e.name) && |at| + 1 < maxDepth && ShouldList(e.contents, at + [e.name], maxDepth, f)
  {
    hide ShouldSkip, ListedAs;
    var names := f.path[|at|..];
    forall target ensures Via(e, names, target) <==> !ShouldSkip(e.name) && Reaches(e.contents, names[1..], target) {}
  }

  lemma {:induction false} NamesOnTheWay(dir: Directory, names: seq<string>, target: Entry, k: nat)
    requires Reaches(dir, names, target) && k < |names|
    ensures !ShouldSkip(names[k])
    decreases |names|
  {
    hide ShouldSkip;
    var e :| e in dir.entries && Via(e, names, target);
    if k > 0 {
      NamesOnTheWay(e.contents, names[1..], target, k - 1);
    }
  }

  /** Windows' own folders, a repository's, lock files of an office suite and the thumbnail caches are
      never listed in any spelling, nor anything below them, however deep. */
  lemma HousekeepingIsNeverListed(dir: Directory, maxDepth: nat, f: Found, k: nat)
    requires f in Listing(dir, [], maxDepth) && k < |f.path|
    ensures var name := f.path[k];
      && !("~$" <= name)
      && Mapped(name, ToLower) != "thumbs.db" && Mapped(name, ToLower) != "desktop.ini"
      && Mapped(name, ToUpper) !in {"$RECYCLE.BIN", "SYSTEM VOLUME INFORMATION", "$WINDOWS.~BT", "$WINDOWS.~WS", "RECYCLER", ".GIT"}
  {
    ListedExactlyWhenReachable(dir, [], maxDepth, f);
    assert f.path[0..] == f.path;
    var target :| Reaches(dir, f.path, target) && ListedAs(target, f);
    NamesOnTheWay(dir, f.path, target, k);
  }

  // ─── once each, parents included ─────────────────────────────────────────────

  /** Names as a file system gives them: no slash, not empty, none twice in a directory. */
  ghost predicate GoodDirectory(dir: Directory)
    decreases dir, 2
  {
    dir.Readable? ==>
      && GoodEntries(dir.entries)
      && forall i, j | 0 <= i < j < |dir.entries| :: dir.entries[i].name != dir.entries[j].name
  }

  ghost predicate GoodEntries(entries: seq<Entry>)
    decreases entries, 1
  {
    entries == [] || (GoodEntry(entries[0]) && GoodEntries(entries[1..]))
  }

  ghost predicate GoodEntry(e: Entry)
    decreases e, 0
  {
    GoodName(e.name) && (e.Dir? ==> GoodDirectory(e.contents))
  }

  ghost predicate Distinct(fs: seq<Found>) {
    forall i, j | 0 <= i < j < |fs| :: fs[i].path != fs[j].path
  }

  /** Everything listed lies strictly below `at`, and its next name is one of these. */
  lemma {:induction false} EntriesStartBelow(entries: seq<Entry>, at: seq<string>, maxDepth: nat, f: Found)
    requires f in ListEntries(entries, at, maxDepth)
    ensures |at| < |f.path| && exists e | e in entries :: f.path[..|at| + 1] == at + [e.name]
  {
    EntriesListed(entries, at, maxDepth, f);
    var e :| e in entries && ShouldListVia(e, at, maxDepth, f);
    StartsHere(e, at, maxDepth, f);
  }

  lemma {:induction false} EntryStartsBelow(e: Entry, at: seq<string>, maxDepth: nat, f: Found)
    requires f in ListEntry(e, at, maxDepth)
    ensures |at| < |f.path| && f.path[..|at| + 1] == at + [e.name]
  {
    EntryListed(e, at, maxDepth, f);
    StartsHere(e, at, maxDepth, f);
  }

  lemma {:induction false} ListingIsDistinct(dir: Directory, at: seq<string>, maxDepth: nat)
    requires GoodDirectory(dir)
    ensures Distinct(Listing(dir, at, maxDepth))
    decreases dir, 2
  {
    match dir
    case Readable(entries) => EntriesAreDistinct(entries, at, maxDepth);
    case _ =>
  }

  lemma {:induction false} EntriesAreDistinct(entries: seq<Entry>, at: seq<string>, maxDepth: nat)
    requires GoodEntries(entries)
    requires forall i, j | 0 <= i < j < |entries| :: entries[i].name != entries[j].name
    ensures Distinct(ListEntries(entries, at, maxDepth))
    decreases entries, 1
  {
    if entries != [] {
      var first, rest := ListEntry(entries[0], at, maxDepth), ListEntries(entries[1..], at, maxDepth);
      EntryIsDistinct(entries[0], at, maxDepth);
      EntriesAreDistinct(entries[1..], at, maxDepth);
      forall f, g | f in first && g in rest ensures f.path != g.path {
        EntryStartsBelow(entries[0], at, maxDepth, f);
        EntriesStartBelow(entries[1..], at, maxDepth, g);
        var e :| e in entries[1..] && g.path[..|at| + 1] == at + [e.name];
        var i :| 0 <= i < |entries[1..]| && entries[1..][i] == e;
        assert entries[i + 1] == e;
        assert (at + [e.name])[|at|] != (at + [entries[0].name])[|at|];
      }
      DistinctParts(first, rest);
    }
  }

  lemma DistinctParts(a: seq<Found>, b: seq<Found>)
    requires Distinct(a) && Distinct(b) && forall f, g | f in a && g in b :: f.path != g.path
    ensures Distinct(a + b)
  {
    forall i, j | 0 <= i < j < |a + b| ensures (a + b)[i].path != (a + b)[j].path {
      if i < |a| <= j {
        assert a[i] in a && b[j - |a|] in b;
      }
    }
  }

  lemma {:induction false} EntryIsDistinct(e: Entry, at: seq<string>, maxDepth: nat)
    requires GoodEntry(e)
    ensures Distinct(ListEntry(e, at, maxDepth))
    decreases e, 0
  {
    hide ShouldSkip;
    if e.Dir? && |at| + 1 < maxDepth {
      var here := at + [e.name];
      var below := Listing(e.contents, here, maxDepth);
      ListingIsDistinct(e.contents, here, maxDepth);
      forall f | f in below ensures f.path != here {
        ListedExactlyWhenReachable(e.contents, here, maxDepth, f);
      }
      DistinctParts([Found(here, true, None, e.mtime)], below);
    }
  }

  /** Every nested entry is listed together with its parent directory. */
  lemma ParentsAreListed(dir: Directory, maxDepth: nat, f: Found) returns (parent: Found)
    requires f in Listing(dir, [], maxDepth) && |f.path| >= 2
    ensures parent in Listing(dir, [], maxDepth) && parent.isDir && parent.path == f.path[..|f.path| - 1]
  {
    ListedExactlyWhenReachable(dir, [], maxDepth, f);
    assert f.path[0..] == f.path;
    var target :| Reaches(dir, f.path, target) && ListedAs(target, f);
    var above := ParentReaches(dir, f.path, target);
    parent := Found(f.path[..|f.path| - 1], true, None, above.mtime);
    assert parent.path[0..] == parent.path && parent.path[..0] == [];
    ListedExactlyWhenReachable(dir, [], maxDepth, parent);
  }

  lemma {:induction false} ParentReaches(dir: Directory, names: seq<string>, target: Entry) returns (above: Entry)
    requires Reaches(dir, names, target) && |names| >= 2
    ensures above.Dir? && Reaches(dir, names[..|names| - 1], above)
    decreases |names|
  {
    var e :| e in dir.entries && Via(e, names, target);
    var shorter := names[..|names| - 1];
    if |names| == 2 {
      above := e;
      assert Via(e, shorter, e);
    } else {
      above := ParentReaches(e.contents, names[1..], target);
      assert names[1..][..|names| - 2] == shorter[1..];
      assert Via(e, shorter, above);
    }
  }

  // ─── the walk itself ─────────────────────────────────────────────────────────

  function Row(f: Found): Walked
    requires f.path != []
  {
    Walked(JoinPath(f.path), JoinPath(f.path[..|f.path| - 1]), f.path[|f.path| - 1], f.isDir, f.size, f.mtime)
  }

  function Rows(fs: seq<Found>): (rows: seq<Walked>)
    requires forall f | f in fs :: f.path != []
    ensures |rows| == |fs| && forall i | 0 <= i < |fs| :: rows[i] == Row(fs[i])
  {
    seq(|fs|, i requires 0 <= i < |fs| => Row(fs[i]))
  }

  /** The rows below a directory, with paths built as the code builds them. */
  function RowsOf(dir: Directory, rel: string, depth: nat, maxDepth: nat): seq<Walked>
    decreases dir, 2
  {
    match dir
    case Readable(entries) => RowsIn(entries, rel, depth, maxDepth)
    case _ => []
  }

  function RowsIn(entries: seq<Entry>, rel: string, depth: nat, maxDepth: nat): seq<Walked>
    decreases entries, 1
  {
    if entries == [] then [] else RowsAt(entries[0], rel, depth, maxDepth) + RowsIn(entries[1..], rel, depth, maxDepth)
  }

  function RowsAt(e: Entry, rel: string, depth: nat, maxDepth: nat): seq<Walked>
    decreases e, 0
  {
    if ShouldSkip(e.name) then []
    else
      match e
      case Other(_) => []
      case File(name, stat) =>
        if stat.None? then []
        else [Walked(Extended(rel, name), rel, name, false, Some(stat.value.size), Some(stat.value.mtime))]
      case Dir(name, mtime, contents) =>
        [Walked(Extended(rel, name), rel, name, true, None, mtime)]
        + (if depth + 1 < maxDepth then RowsOf(contents, Extended(rel, name), depth + 1, maxDepth) else [])
  }

  lemma {:induction false} PathsNonEmpty(dir: Directory, at: seq<string>, maxDepth: nat)
    ensures forall f | f in Listing(dir, at, maxDepth) :: |f.path| > |at|
  {
    forall f | f in Listing(dir, at, maxDepth) ensures |f.path| > |at| {
      ListedExactlyWhenReachable(dir, at, maxDepth, f);
    }
  }

  lemma {:induction false} RowsAreListing(dir: Directory, at: seq<string>, maxDepth: nat)
    requires GoodDirectory(dir) && forall n | n in at :: GoodName(n)
    requires forall f | f in Listing(dir, at, maxDepth) :: f.path != []
    ensures RowsOf(dir, JoinPath(at), |at|, maxDepth) == Rows(Listing(dir, at, maxDepth))
    decreases dir, 2
  {
    match dir
    case Readable(entries) => RowsInAreListing(entries, at, maxDepth);
    case _ =>
  }

  lemma {:induction false} RowsInAreListing(entries: seq<Entry>, at: seq<string>, maxDepth: nat)
    requires GoodEntries(entries) && forall n | n in at :: GoodName(n)
    requires forall f | f in ListEntries(entries, at, maxDepth) :: f.path != []
    ensures RowsIn(entries, JoinPath(at), |at|, maxDepth) == Rows(ListEntries(entries, at, maxDepth))
    decreases entries, 1
  {
    hide JoinPath, Rows;
    if entries == [] {
      NoRows();
    } else {
      var first, rest := ListEntry(entries[0], at, maxDepth), ListEntries(entries[1..], at, maxDepth);
      assert ListEntries(entries, at, maxDepth) == first + rest;
      assert (forall f | f in first :: f in first + rest) && (forall f | f in rest :: f in first + rest);
      RowsAtAreListing(entries[0], at, maxDepth);
      RowsInAreListing(entries[1..], at, maxDepth);
      RowsAppend(first, rest);
    }
  }

  lemma NoRows()
    ensures Rows([]) == []
  {}

  lemma RowsAppend(a: seq<Found>, b: seq<Found>)
    requires (forall f | f in a :: f.path != []) && (forall f | f in b :: f.path != []) && forall f | f in a + b :: f.path != []
    ensures Rows(a + b) == Rows(a) + Rows(b)
  {
    hide Row;
  }

  lemma {:induction false} RowsAtAreListing(e: Entry, at: seq<string>, maxDepth: nat)
    requires GoodEntry(e) && forall n | n in at :: GoodName(n)
    requires forall f | f in ListEntry(e, at, maxDepth) :: f.path != []
    ensures RowsAt(e, JoinPath(at), |at|, maxDepth) == Rows(ListEntry(e, at, maxDepth))
    decreases e, 0
  {
    hide ShouldSkip;
    var here := at + [e.name];
    JoinExtends(at, e.name);
    assert here[..|here| - 1] == at && here[|here| - 1] == e.name;
    hide JoinPath;
    if e.Dir? {
      PathsNonEmpty(e.contents, here, maxDepth);
      RowsAreListing(e.contents, here, maxDepth);
    }
  }

  datatype Job = Job(dir: Directory, rel: string, depth: nat)

  function Pending(queue: seq<Job>, maxDepth: nat): multiset<Walked> {
    if queue == [] then multiset{}
    else
      var last := queue[|queue| - 1];
      Pending(queue[..|queue| - 1], maxDepth) + multiset(RowsOf(last.dir, last.rel, last.depth, maxDepth))
  }

  predicate AnyBreaks(queue: seq<Job>, maxDepth: nat) {
    queue != [] &&
    (var last := queue[|queue| - 1];
     AnyBreaks(queue[..|queue| - 1], maxDepth) || Breaks(last.dir, last.depth, maxDepth))
  }

  function Size(dir: Directory): nat
    decreases dir, 2
  {
    match dir
    case Readable(entries) => 1 + SizeIn(entries)
    case _ => 1
  }

  function SizeIn(entries: seq<Entry>): nat
    decreases entries, 1
  {
    if entries == [] then 0 else (if entries[0].Dir? then Size(entries[0].contents) else 0) + SizeIn(entries[1..])
  }

  function QueueSize(queue: seq<Job>): nat {
    if queue == [] then 0 else QueueSize(queue[..|queue| - 1]) + Size(queue[|queue| - 1].dir)
  }

  lemma Pushed(queue: seq<Job>, job: Job, maxDepth: nat)
    ensures Pending(queue + [job], maxDepth) == Pending(queue, maxDepth) + multiset(RowsOf(job.dir, job.rel, job.depth, maxDepth))
    ensures AnyBreaks(queue + [job], maxDepth) <==> AnyBreaks(queue, maxDepth) || Breaks(job.dir, job.depth, maxDepth)
    ensures QueueSize(queue + [job]) == QueueSize(queue) + Size(job.dir)
  {
    assert (queue + [job])[..|queue|] == queue;
  }

  /** The rows of one directory entry by entry: those of its own are pushed, a directory below is
      left for later. */
  lemma NextEntry(entries: seq<Entry>, i: nat, rel: string, depth: nat, maxDepth: nat)
    requires i < |entries|
    ensures RowsIn(entries[i..], rel, depth, maxDepth) == RowsAt(entries[i], rel, depth, maxDepth) + RowsIn(entries[i + 1..], rel, depth, maxDepth)
    ensures BreaksIn(entries[i..], depth, maxDepth) <==> BreaksAt(entries[i], depth, maxDepth) || BreaksIn(entries[i + 1..], depth, maxDepth)
    ensures SizeIn(entries[i..]) == (if entries[i].Dir? then Size(entries[i].contents) else 0) + SizeIn(entries[i + 1..])
  {
    assert entries[i..][1..] == entries[i + 1..];
  }

  /** Everything found, waiting on the stack, or still to be read from the current directory. */
  function Balance(rows: seq<Walked>, queue: seq<Job>, rest: seq<Walked>, maxDepth: nat): multiset<Walked> {
    multiset(rows) + Pending(queue, maxDepth) + multiset(rest)
  }

  /** An entry's own row, and the directory it leaves for later. */
  function Own(e: Entry, rel: string): seq<Walked> {
    if ShouldSkip(e.name) then []
    else
      match e
      case Other(_) => []
      case File(name, stat) =>
        if stat.None? then []
        else [Walked(Extended(rel, name), rel, name, false, Some(stat.value.size), Some(stat.value.mtime))]
      case Dir(name, mtime, _) => [Walked(Extended(rel, name), rel, name, true, None, mtime)]
  }

  function Later(e: Entry, rel: string, depth: nat, maxDepth: nat): (jobs: seq<Job>)
    ensures |jobs| <= 1
  {
    if e.Dir? && !ShouldSkip(e.name) && depth + 1 < maxDepth then [Job(e.contents, Extended(rel, e.name), depth + 1)] else []
  }

  lemma Advance(rows: seq<Walked>, queue: seq<Job>, e: Entry, tail: seq<Walked>, rel: string, depth: nat, maxDepth: nat)
    ensures Balance(rows + Own(e, rel), queue + Later(e, rel, depth, maxDepth), tail, maxDepth)
         == Balance(rows, queue, RowsAt(e, rel, depth, maxDepth) + tail, maxDepth)
    ensures AnyBreaks(queue + Later(e, rel, depth, maxDepth), maxDepth) <==> AnyBreaks(queue, maxDepth) || BreaksAt(e, depth, maxDepth)
    ensures QueueSize(queue + Later(e, rel, depth, maxDepth)) <= QueueSize(queue) + (if e.Dir? then Size(e.contents) else 0)
  {
    var own, later := Own(e, rel), Later(e, rel, depth, maxDepth);
    var below := if later == [] then [] else RowsOf(e.contents, Extended(rel, e.name), depth + 1, maxDepth);
    assert RowsAt(e, rel, depth, maxDepth) == own + below;
    if later == [] {
      assert queue + later == queue && Pending(queue, maxDepth) == Pending(queue, maxDepth) + multiset(below);
    } else {
      assert later == [later[0]];
      Pushed(queue, later[0], maxDepth);
    }
    hide Own, Later, RowsAt, RowsOf, Pending, ShouldSkip;
    Rebalanced(rows, own, Pending(queue, maxDepth), below, tail);
  }

  lemma Rebalanced(rows: seq<Walked>, own: seq<Walked>, waiting: multiset<Walked>, below: seq<Walked>, tail: seq<Walked>)
    ensures multiset(rows + own) + (waiting + multiset(below)) + multiset(tail)
         == multiset(rows) + waiting + multiset(own + below + tail)
  {}

  lemma LastEntry(rows: seq<Walked>, queue: seq<Job>, maxDepth: nat)
    ensures Balance(rows, queue, [], maxDepth) == multiset(rows) + Pending(queue, maxDepth)
  {}

  /** One turn of the loop over a directory's entries: the row pushed to `out`, the job pushed to the
      stack. */
  method Visit(dirent: Entry, rel: string, depth: nat, maxDepth: nat) returns (own: seq<Walked>, later: seq<Job>)
    ensures own == Own(dirent, rel) && later == Later(dirent, rel, depth, maxDepth)
  {
    own, later := [], [];
    if ShouldSkip(dirent.name) || dirent.Other? { return; }
    var path := if rel == "" then dirent.name else rel + "/" + dirent.name;
    if dirent.Dir? {
      own := [Walked(path, rel, dirent.name, true, None, dirent.mtime)];
      if depth + 1 < maxDepth {
        later := [Job(dirent.contents, path, depth + 1)];
      }
      return;
    }
    if dirent.stat.None? { return; }
    own := [Walked(path, rel, dirent.name, false, Some(dirent.stat.value.size), Some(dirent.stat.value.mtime))];
  }

  method WalkEntries(current: Job, waiting: seq<Job>, found: seq<Walked>, maxDepth: nat) returns (rows: seq<Walked>, queue: seq<Job>)
    requires current.dir.Readable?
    ensures Balance(rows, queue, [], maxDepth)
         == Balance(found, waiting, RowsOf(current.dir, current.rel, current.depth, maxDepth), maxDepth)
    ensures AnyBreaks(queue, maxDepth) <==> AnyBreaks(waiting, maxDepth) || Breaks(current.dir, current.depth, maxDepth)
    ensures QueueSize(queue) < QueueSize(waiting) + Size(current.dir)
  {
    var entries, rel, depth := current.dir.entries, current.rel, current.depth;
    rows, queue := found, waiting;
    var i := 0;
    assert entries[0..] == entries;
    Unfolded(current, maxDepth);
    hide Balance, RowsOf, RowsIn, RowsAt, AnyBreaks, Breaks, BreaksIn, BreaksAt, QueueSize, Size, SizeIn, Own, Later;
    while i < |entries|
      invariant i <= |entries|
      invariant Balance(rows, queue, RowsIn(entries[i..], rel, depth, maxDepth), maxDepth)
             == Balance(found, waiting, RowsIn(entries, rel, depth, maxDepth), maxDepth)
      invariant AnyBreaks(queue, maxDepth) || BreaksIn(entries[i..], depth, maxDepth)
           <==> AnyBreaks(waiting, maxDepth) || BreaksIn(entries, depth, maxDepth)
      invariant QueueSize(queue) + SizeIn(entries[i..]) <= QueueSize(waiting) + SizeIn(entries)
    {
      NextEntry(entries, i, rel, depth, maxDepth);
      Advance(rows, queue, entries[i], RowsIn(entries[i + 1..], rel, depth, maxDepth), rel, depth, maxDepth);
      var own, later := Visit(entries[i], rel, depth, maxDepth);
      rows, queue := rows + own, queue + later;
      i := i + 1;
    }
    assert entries[i..] == [];
  }

  lemma Unfolded(job: Job, maxDepth: nat)
    requires job.dir.Readable?
    ensures RowsOf(job.dir, job.rel, job.depth, maxDepth) == RowsIn(job.dir.entries, job.rel, job.depth, maxDepth)
    ensures Breaks(job.dir, job.depth, maxDepth) == BreaksIn(job.dir.entries, job.depth, maxDepth)
    ensures Size(job.dir) == 1 + SizeIn(job.dir.entries)
    ensures RowsIn([], job.rel, job.depth, maxDepth) == [] && !BreaksIn([], job.depth, maxDepth) && SizeIn([]) == 0
  {}

  /** Taking the last job off the stack. */
  lemma Popped(rows: seq<Walked>, queue: seq<Job>, maxDepth: nat)
    requires queue != []
    ensures var last := queue[|queue| - 1]; var rest := queue[..|queue| - 1];
      && Balance(rows, queue, [], maxDepth) == Balance(rows, rest, RowsOf(last.dir, last.rel, last.depth, maxDepth), maxDepth)
      && (AnyBreaks(queue, maxDepth) <==> AnyBreaks(rest, maxDepth) || Breaks(last.dir, last.depth, maxDepth))
      && QueueSize(queue) == QueueSize(rest) + Size(last.dir)
  {
    hide RowsOf, Breaks, Size;
  }

  /** The stack-driven walk lists exactly what the tree holds, each entry as often, and fails exactly
      when a directory it reads is broken. */
  method WalkTree(root: Directory, maxDepth: nat) returns (out: Option<seq<Walked>>)
    ensures out.None? <==> Breaks(root, 0, maxDepth)
    ensures out.Some? ==> multiset(out.value) == multiset(RowsOf(root, "", 0, maxDepth))
  {
    var queue := [Job(root, "", 0)];
    var rows: seq<Walked> := [];
    Begun(root, maxDepth);
    while queue != []
      invariant Balance(rows, queue, [], maxDepth) == multiset(RowsOf(root, "", 0, maxDepth))
      invariant AnyBreaks(queue, maxDepth) <==> Breaks(root, 0, maxDepth)
      decreases QueueSize(queue)
    {
      hide Balance, AnyBreaks, QueueSize;
      var current := queue[|queue| - 1];
      Popped(rows, queue, maxDepth);
      queue := queue[..|queue| - 1];
      if current.dir.Denied? { continue; }
      if current.dir.Broken? { return None; }
      rows, queue := WalkEntries(current, queue, rows, maxDepth);
    }
    LastEntry(rows, queue, maxDepth);
    out := Some(rows);
  }

  lemma Begun(root: Directory, maxDepth: nat)
    ensures Balance([], [Job(root, "", 0)], [], maxDepth) == multiset(RowsOf(root, "", 0, maxDepth))
    ensures AnyBreaks([Job(root, "", 0)], maxDepth) <==> Breaks(root, 0, maxDepth)
  {
    Pushed([], Job(root, "", 0), maxDepth);
    assert [] + [Job(root, "", 0)] == [Job(root, "", 0)];
  }

  // ─── what the walk promises ──────────────────────────────────────────────────

  ghost predicate OnceEach(walked: seq<Walked>) {
    forall i, j | 0 <= i < j < |walked| :: walked[i].relPath != walked[j].relPath
  }

  /** In a tree with proper names, the rows are those of the listing, each path once. */
  lemma EachPathOnce(root: Directory, maxDepth: nat)
    requires GoodDirectory(root)
    ensures forall f | f in Listing(root, [], maxDepth) :: f.path != []
    ensures RowsOf(root, "", 0, maxDepth) == Rows(Listing(root, [], maxDepth))
    ensures OnceEach(RowsOf(root, "", 0, maxDepth))
  {
    var fs := Listing(root, [], maxDepth);
    PathsNonEmpty(root, [], maxDepth);
    RowsAreListing(root, [], maxDepth);
    ListingIsDistinct(root, [], maxDepth);
    hide Listing, RowsOf, GoodDirectory;
    forall i, j | 0 <= i < j < |fs| ensures JoinPath(fs[i].path) != JoinPath(fs[j].path) {
      if JoinPath(fs[i].path) == JoinPath(fs[j].path) {
        assert fs[i] in fs && fs[j] in fs;
        NamesAreGood(root, maxDepth, fs[i]);
        NamesAreGood(root, maxDepth, fs[j]);
        JoinInjective(fs[i].path, fs[j].path);
      }
    }
  }

  lemma NamesAreGood(root: Directory, maxDepth: nat, f: Found)
    requires GoodDirectory(root) && f in Listing(root, [], maxDepth)
    ensures forall n | n in f.path :: GoodName(n)
  {
    ListedExactlyWhenReachable(root, [], maxDepth, f);
    assert f.path[0..] == f.path;
    var target :| Reaches(root, f.path, target) && ListedAs(target, f);
    ReachedNamesAreGood(root, f.path, target);
  }

  lemma {:induction false} ReachedNamesAreGood(dir: Directory, names: seq<string>, target: Entry)
    requires GoodDirectory(dir) && Reaches(dir, names, target)
    ensures forall n | n in names :: GoodName(n)
    decreases |names|
  {
    var e :| e in dir.entries && Via(e, names, target);
    MemberIsGood(dir.entries, e);
    if |names| > 1 {
      ReachedNamesAreGood(e.contents, names[1..], target);
    }
    assert forall n | n in names :: n == names[0] || n in names[1..];
  }

  lemma {:induction false} MemberIsGood(entries: seq<Entry>, e: Entry)
    requires GoodEntries(entries) && e in entries
    ensures GoodEntry(e)
  {
    if e != entries[0] {
      MemberIsGood(entries[1..], e);
    }
  }

  lemma {:induction false} AtMostOnce(walked: seq<Walked>, w: Walked)
    requires OnceEach(walked)
    ensures multiset(walked)[w] <= 1
    decreases |walked|
  {
    if walked != [] {
      var front, last := walked[..|walked| - 1], walked[|walked| - 1];
      AtMostOnce(front, w);
      assert walked == front + [last];
      forall i | 0 <= i < |front| ensures front[i] != last {
        assert walked[i].relPath != walked[|front|].relPath;
      }
    }
  }

  lemma Twice(walked: seq<Walked>, i: nat, j: nat)
    requires i < j < |walked| && walked[i] == walked[j]
    ensures multiset(walked)[walked[i]] >= 2
  {
    assert walked == walked[..j] + [walked[j]] + walked[j + 1..];
    assert walked[..j][i] == walked[i];
  }

  /** Whatever order the walk lists them in, each path comes once. */
  lemma OnceEachInAnyOrder(a: seq<Walked>, b: seq<Walked>)
    requires OnceEach(a) && multiset(a) == multiset(b)
    ensures OnceEach(b)
  {
    forall i, j | 0 <= i < j < |b| ensures b[i].relPath != b[j].relPath {
      assert b[i] in multiset(b) && b[j] in multiset(b);
      var k :| 0 <= k < |a| && a[k] == b[i];
      var l :| 0 <= l < |a| && a[l] == b[j];
      if k == l {
        Twice(b, i, j);
        AtMostOnce(a, b[i]);
      }
    }
  }
}
