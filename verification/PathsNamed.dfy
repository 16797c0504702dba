/** A count of files and of the set of directories above them that keeps no set: sorted, each path is compared
    with its neighbour alone. */
module PathsNamed {
  import opened Paths
  import opened Trees

  /** The directories above the paths, each with the slash that ends it. */
  ghost function Directories(paths: seq<string>): set<string> {
    set p, i | p in paths && 0 <= i < |p| && p[i] == '/' :: p[..i + 1]
  }

  /** The paths a commit writes. */
  function Written(files: seq<Change>): seq<string> {
    if files == [] then []
    else
      var before, last := Written(files[..|files| - 1]), files[|files| - 1];
      if last.text.Some? then before + [last.path] else before
  }

  /** Those and no others. */
  lemma {:induction false} WrittenAre(files: seq<Change>, p: string)
    ensures p in Written(files) <==> exists f :: f in files && f.text.Some? && f.path == p
    decreases |files|
  {
    if files != [] {
      var before, last := files[..|files| - 1], files[|files| - 1];
      WrittenAre(before, p);
      assert files == before + [last];
      if last.text.Some? && last.path == p {
        assert last in files;
      }
    }
  }

  /** And of distinct paths each once. */
  lemma {:induction false} WrittenOnce(files: seq<Change>, i: nat, j: nat)
    requires forall i, j | 0 <= i < j < |files| :: files[i].path != files[j].path
    requires i < j < |Written(files)|
    ensures Written(files)[i] != Written(files)[j]
    decreases |files|
  {
    var before, last := files[..|files| - 1], files[|files| - 1];
    assert files == before + [last];
    assert forall k | 0 <= k < |before| :: files[k] == before[k];
    if j < |Written(before)| {
      WrittenOnce(before, i, j);
    } else {
      var p := Written(before)[i];
      WrittenAre(before, p);
      var f :| f in before && f.text.Some? && f.path == p;
      var k :| 0 <= k < |before| && before[k] == f;
      assert files[k].path != files[|files| - 1].path;
    }
  }

  function Slashes(s: string): nat {
    if s == [] then 0 else (if s[0] == '/' then 1 else 0) + Slashes(s[1..])
  }

  function Itself(p: string): string {
    p
  }

  // ---- Sorting, where a path may come twice ----

  ghost predicate Ordered(s: seq<string>) {
    forall i, j | 0 <= i < j < |s| :: !Less(s[j], s[i])
  }

  lemma {:induction false} InsertOrdered(s: seq<string>, x: string)
    requires Ordered(s)
    ensures Ordered(Insert(Itself, s, x))
  {
    if s == [] {
    } else if Less(x, s[0]) {
      forall j | 0 <= j < |s|
        ensures !Less(s[j], x)
      {
        if Less(s[j], x) {
          LessTrans(s[j], x, s[0]);
          LessIrreflexive(s[j]);
        }
      }
    } else {
      InsertOrdered(s[1..], x);
      var rest := Insert(Itself, s[1..], x);
      forall j | 0 <= j < |rest|
        ensures !Less(rest[j], s[0])
      {
        InsertHolds(Itself, s[1..], x, rest[j]);
      }
    }
  }

  lemma {:induction false} SortOrdered(s: seq<string>)
    ensures Ordered(Sort(Itself, s)) && |Sort(Itself, s)| == |s|
  {
    if s != [] {
      SortOrdered(s[1..]);
      InsertOrdered(Sort(Itself, s[1..]), s[0]);
      InsertSize(Itself, Sort(Itself, s[1..]), s[0]);
    }
  }

  lemma SortedDirectories(s: seq<string>)
    ensures Directories(Sort(Itself, s)) == Directories(s)
  {
    forall p
      ensures p in Sort(Itself, s) <==> p in s
    {
      SortHolds(Itself, s, p);
    }
  }

  // ---- What a path names anew ----

  /** The directories above a path that end at or past a place in it. */
  ghost function From(p: string, at: nat): set<string> {
    set i | at <= i < |p| && p[i] == '/' :: p[..i + 1]
  }

  lemma {:induction false} FromSize(p: string, at: nat)
    requires at <= |p|
    ensures |From(p, at)| == Slashes(p[at..])
    decreases |p| - at
  {
    if at < |p| {
      FromSize(p, at + 1);
      assert p[at..][1..] == p[at + 1..];
      if p[at] == '/' {
        assert From(p, at) == From(p, at + 1) + {p[..at + 1]};
        assert forall d | d in From(p, at + 1) :: |d| > at + 1;
      } else {
        assert From(p, at) == From(p, at + 1);
      }
    }
  }

  /** `shared` is where the last directory above both a path and the one before it ends. */
  predicate SharedUpTo(p: string, before: string, shared: nat) {
    && shared <= |p| && p[..shared] <= before
    && (shared > 0 ==> p[shared - 1] == '/')
    && forall i | 0 <= i < |p| && p[i] == '/' && p[..i + 1] <= before :: i < shared
  }

  /** A directory above a path that is above any earlier one is above the one just before. */
  lemma NextTo(paths: seq<string>, p: string, d: string)
    requires Ordered(paths + [p]) && d <= p && exists q | q in paths :: d <= q
    ensures paths != [] && d <= paths[|paths| - 1]
  {
    var j :| 0 <= j < |paths| && d <= paths[j];
    var all, before := paths + [p], paths[|paths| - 1];
    assert all[j] == paths[j] && all[|paths| - 1] == before && all[|paths|] == p;
    LessTotal(paths[j], before);
    LessTotal(before, p);
    if Less(paths[j], before) && Less(before, p) {
      Between(d, paths[j], before, p);
    }
  }

  lemma NamedAnew(paths: seq<string>, p: string, shared: nat)
    requires Ordered(paths + [p])
    requires SharedUpTo(p, if paths == [] then "" else paths[|paths| - 1], shared)
    ensures Directories(paths + [p]) == Directories(paths) + From(p, shared)
    ensures Directories(paths) !! From(p, shared)
  {
    hide Ordered;
    var all := paths + [p];
    forall d | d in Directories(paths) && d in From(p, shared)
      ensures false
    {
      var q, i :| q in paths && 0 <= i < |q| && q[i] == '/' && d == q[..i + 1];
      NextTo(paths, p, d);
    }
    forall d | d in Directories(all)
      ensures d in Directories(paths) + From(p, shared)
    {
      var q, i :| q in all && 0 <= i < |q| && q[i] == '/' && d == q[..i + 1];
      if q !in paths && i < shared {
        Shares(paths, p, shared, i);
      }
    }
  }

  lemma Shares(paths: seq<string>, p: string, shared: nat, i: nat)
    requires SharedUpTo(p, if paths == [] then "" else paths[|paths| - 1], shared)
    requires i < shared && p[i] == '/'
    ensures p[..i + 1] in Directories(paths)
  {
    var before := paths[|paths| - 1];
    assert p[..i + 1] == p[..shared][..i + 1] == before[..i + 1];
    assert before[i] == p[..shared][i] == '/';
  }

  lemma PrefixAgrees(p: string, before: string, k: nat, i: nat)
    requires k < |p| && p[..k + 1] <= before
    ensures i <= k ==> i < |before| && p[i] == before[i]
  {
    if i <= k {
      assert p[i] == p[..k + 1][i] == before[i];
    }
  }

  // ---- The count ----

  /** Where the last directory two paths share ends. */
  method SharedWith(p: string, before: string) returns (shared: nat)
    ensures SharedUpTo(p, before, shared)
  {
    shared := 0;
    var i := 0;
    while i < (if |p| < |before| then |p| else |before|) && p[i] == before[i]
      invariant i <= |p| && i <= |before| && p[..i] == before[..i]
      invariant shared <= i && (shared > 0 ==> p[shared - 1] == '/')
      invariant forall k | 0 <= k < i && p[k] == '/' :: k < shared
    {
      if p[i] == '/' {
        shared := i + 1;
      }
      i := i + 1;
    }
    assert p[..shared] == p[..i][..shared] == before[..shared];
    forall k | 0 <= k < |p| && p[k] == '/' && p[..k + 1] <= before
      ensures k < shared
    {
      PrefixAgrees(p, before, k, i);
    }
  }

  /** How many paths a tree holding the files lists at least: as many as there are files written and
      directories above them, each directory once. */
  method PathsNamed(files: seq<Change>) returns (n: nat)
    ensures n == |Written(files)| + |Directories(Written(files))|
  {
    hide Ordered, SharedUpTo, Directories, From, Sort;
    var written := Written(files);
    var sorted := Sort(Itself, written);
    SortOrdered(written);
    SortedDirectories(written);
    n := 0;
    var before := "";
    NoDirectories();
    for k := 0 to |sorted|
      invariant before == if k == 0 then "" else sorted[k - 1]
      invariant n == k + |Directories(sorted[..k])|
    {
      var p := sorted[k];
      var shared := SharedWith(p, before);
      ghost var paths := sorted[..k];
      assert paths + [p] == sorted[..k + 1];
      OrderedPrefix(sorted, k + 1);
      NamedAnew(paths, p, shared);
      SharedFits(p, before, shared);
      FromSize(p, shared);
      n := n + 1 + Slashes(p[shared..]);
      before := p;
    }
    assert sorted[..|sorted|] == sorted;
  }

  lemma NoDirectories()
    ensures Directories([]) == {}
  {}

  lemma OrderedPrefix(s: seq<string>, k: nat)
    requires Ordered(s) && k <= |s|
    ensures Ordered(s[..k])
  {}

  lemma SharedFits(p: string, before: string, shared: nat)
    requires SharedUpTo(p, before, shared)
    ensures shared <= |p|
  {}
}
