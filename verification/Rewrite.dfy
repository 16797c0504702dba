/** A commit made from files: the parent's tree rewritten, directory by directory. */
module Rewrite {
  import opened Options
  import opened GitObjects
  import opened Paths
  import opened Trees

  /** The changes below one directory of the tree being rewritten. */
  datatype Dir = Dir(name: string, changes: seq<Change>)

  function PathOf(c: Change): string {
    c.path
  }

  function NameOf(d: Dir): string {
    d.name
  }

  function Name(c: Change, at: nat): string {
    Head(Tail(c, at))
  }

  predicate Deeper(c: Change, at: nat) {
    |Name(c, at)| < |Tail(c, at)|
  }

  predicate Same(es: map<string, Entry>, es': map<string, Entry>, n: string) {
    (n in es <==> n in es') && (n in es ==> es[n] == es'[n])
  }

  /** A change of the file n was made among the entries, which held no directory there, and held
      something where it was removed. */
  predicate Made(hash: Hash, text: Option<string>, es: map<string, Entry>, es': map<string, Entry>, n: string) {
    && !(n in es && es[n].mode == Directory)
    && (text.None? ==> n in es && n !in es')
    && (text.Some? ==>
          n in es' && es'[n] == Entry(n, if n in es && es[n].mode == Executable then Executable else File, hash(Blob(text.value))))
  }

  ghost predicate MadeAt(hash: Hash, changes: seq<Change>, at: nat, es: map<string, Entry>, es': map<string, Entry>, n: string) {
    && (forall c | c in changes && Tail(c, at) == n :: Made(hash, c.text, es, es', n))
    && ((forall c | c in changes :: Tail(c, at) != n) ==> Same(es, es', n))
  }

  /** The changes of files here were made, and nothing else was. */
  ghost predicate MadeHere(hash: Hash, changes: seq<Change>, at: nat, es: map<string, Entry>, es': map<string, Entry>) {
    forall n: string | '/' !in n :: MadeAt(hash, changes, at, es, es', n)
  }

  /** `below` partitions the Deeper changes by their Name. */
  ghost predicate Grouped(changes: seq<Change>, at: nat, below: seq<Dir>) {
    && DistinctKeys(NameOf, below)
    && (forall d | d in below :: GroupOf(changes, at, d))
    && (forall c | c in changes && Deeper(c, at) :: exists d :: d in below && d.name == Name(c, at))
  }

  ghost predicate GroupOf(changes: seq<Change>, at: nat, d: Dir) {
    && d.changes != []
    && (forall c :: c in d.changes <==> c in changes && Deeper(c, at) && Name(c, at) == d.name)
  }

  function SubID(es: map<string, Entry>, n: string): ID {
    if n in es then es[n].id else ZERO
  }

  /** The directory d was rewritten: what it lays out now is what it did with its changes applied. */
  ghost predicate Rewrote(hash: Hash, now: Store, store: Store, es: map<string, Entry>, es': map<string, Entry>, d: Dir, at: nat) {
    && (d.name in es ==> es[d.name].mode == Directory)
    && (d.name in es' ==> es'[d.name].mode == Directory)
    && Means(hash, now, SubID(es', d.name), store, SubID(es, d.name), d.changes, at + |d.name| + 1)
    && Applies(store, SubID(es, d.name), d.changes, at + |d.name| + 1)
  }

  ghost predicate RewroteAll(hash: Hash, now: Store, store: Store, es: map<string, Entry>, es': map<string, Entry>, below: seq<Dir>, at: nat) {
    && (forall d | d in below :: Rewrote(hash, now, store, es, es', d, at))
    && (forall n: string | !Among(below, n) :: Same(es, es', n))
  }

  predicate Among(below: seq<Dir>, n: string) {
    exists d :: d in below && d.name == n
  }

  /** A tail is the name of its directory, a slash, and the tail below it. */
  lemma TailSplits(c: Change, at: nat)
    requires Deeper(c, at)
    ensures Tail(c, at) == Name(c, at) + "/" + Tail(c, at + |Name(c, at)| + 1)
    ensures at + |Name(c, at)| < |c.path|
  {
    HeadIs(Tail(c, at));
  }

  function LeafOf(es: map<string, Entry>, n: string): Option<Leaf> {
    if n in es && es[n].mode != Directory then Some(Leaf(es[n].mode, es[n].id)) else None
  }

  lemma LookupFile(store: Store, id: ID, n: string)
    requires '/' !in n
    ensures Lookup(store, id, n) == LeafOf(EntriesOf(store, id), n)
  {
    HeadOf(n, "");
  }

  lemma LookupBelow(store: Store, id: ID, path: string)
    requires |Head(path)| < |path|
    ensures var es, n := EntriesOf(store, id), Head(path);
            Lookup(store, id, path) == if n in es && es[n].mode == Directory then Lookup(store, es[n].id, path[|n| + 1..]) else None
  {}

  lemma LookupNothing(store: Store, path: string)
    requires ZERO !in store
    ensures Lookup(store, ZERO, path) == None
  {}

  /** The parts put together at a file of this directory. */
  lemma ComposesFile(hash: Hash, now: Store, id: ID, store: Store, base: ID, changes: seq<Change>, at: nat,
                     es: map<string, Entry>, below: seq<Dir>, n: string)
    requires '/' !in n && MadeHere(hash, changes, at, EntriesOf(store, base), es)
    requires RewroteAll(hash, now, store, es, EntriesOf(now, id), below, at)
    ensures MeansAt(hash, now, id, store, base, changes, at, n)
  {
    hide Means, EntriesOf, Applies, Lookup, MadeHere, Head, Tail;
    LookupFile(store, base, n);
    LookupFile(now, id, n);
    ThereMade(hash, changes, at, EntriesOf(store, base), es, n);
    if Among(below, n) {
      var d :| d in below && d.name == n;
      assert Rewrote(hash, now, store, es, EntriesOf(now, id), d, at);
    } else {
      assert Same(es, EntriesOf(now, id), n);
    }
  }

  lemma ThereMade(hash: Hash, changes: seq<Change>, at: nat, es: map<string, Entry>, es': map<string, Entry>, n: string)
    requires MadeHere(hash, changes, at, es, es') && '/' !in n
    ensures MadeAt(hash, changes, at, es, es', n)
  {}

  lemma ClosedEntry(store: Store, id: ID, e: Entry)
    requires Closed(store) && IsTree(store, id) && e in store[id].entries && e.mode != Submodule
    ensures e.id in store
  {
    assert e.id in Links(Everything, store[id]);
  }

  /** The parts put together below a directory of this one that no change lies below. */
  lemma ComposesElsewhere(hash: Hash, now: Store, id: ID, store: Store, base: ID, changes: seq<Change>, at: nat,
                          es: map<string, Entry>, below: seq<Dir>, path: string)
    requires |Head(path)| < |path| && !Among(below, Head(path)) && '/' !in Head(path)
    requires MadeHere(hash, changes, at, EntriesOf(store, base), es) && Grouped(changes, at, below)
    requires RewroteAll(hash, now, store, es, EntriesOf(now, id), below, at)
    requires Closed(store) && Extends(store, now)
    ensures MeansAt(hash, now, id, store, base, changes, at, path)
  {
    hide Means, Closed, Applies, MadeHere, Lookup, Head, Tail, Rewrote;
    var es0, es', n := EntriesOf(store, base), EntriesOf(now, id), Head(path);
    ThereMade(hash, changes, at, es0, es, n);
    LookupBelow(store, base, path);
    LookupBelow(now, id, path);
    assert Same(es, es', n);
    assert forall c | c in changes :: Tail(c, at) != path;
    if n in es0 && n in es && es0[n] == es[n] && es[n].mode == Directory {
      ByNameHolds(store[base].entries, n);
      ClosedEntry(store, base, es[n]);
      LookupMono(store, now, es[n].id, path[|n| + 1..]);
    }
  }

  /** The changes gathered below a directory are those whose paths lie below it. */
  lemma SameChanges(changes: seq<Change>, at: nat, d: Dir, path: string, rest: string, c: Change)
    requires GroupOf(changes, at, d) && '/' !in d.name && path == d.name + "/" + rest
    ensures c in changes && Tail(c, at) == path <==> c in d.changes && Tail(c, at + |d.name| + 1) == rest
  {
    HeadOf(d.name, rest);
    hide Head, Tail;
    if Deeper(c, at) && Name(c, at) == d.name {
      TailSplits(c, at);
    }
  }

  /** The parts put together below a directory of this one that was rewritten. */
  lemma ComposesGroup(hash: Hash, now: Store, id: ID, store: Store, base: ID, changes: seq<Change>, at: nat,
                      es: map<string, Entry>, below: seq<Dir>, path: string, d: Dir)
    requires |Head(path)| < |path| && d in below && d.name == Head(path) && '/' !in Head(path)
    requires path == d.name + "/" + path[|d.name| + 1..]
    requires MadeHere(hash, changes, at, EntriesOf(store, base), es) && Grouped(changes, at, below)
    requires RewroteAll(hash, now, store, es, EntriesOf(now, id), below, at)
    requires ZERO !in store && ZERO !in now
    ensures MeansAt(hash, now, id, store, base, changes, at, path)
  {
    hide EntriesOf, Applies, MadeHere, Lookup, Head, Tail, Grouped, GroupOf, RewroteAll;
    var es0, es', n, rest := EntriesOf(store, base), EntriesOf(now, id), d.name, path[|d.name| + 1..];
    ThereMade(hash, changes, at, es0, es, n);
    ThisGroup(changes, at, below, d);
    ThisRewrote(hash, now, store, es, es', below, at, d);
    assert MeansAt(hash, now, SubID(es', n), store, SubID(es, n), d.changes, at + |n| + 1, rest);
    LookupBelow(store, base, path);
    LookupBelow(now, id, path);
    LookupNothing(store, rest);
    LookupNothing(now, rest);
    forall c
      ensures c in changes && Tail(c, at) == path <==> c in d.changes && Tail(c, at + |n| + 1) == rest
    {
      SameChanges(changes, at, d, path, rest, c);
    }
    assert Lookup(now, id, path) == Lookup(now, SubID(es', n), rest);
    assert Lookup(store, base, path) == Lookup(store, SubID(es, n), rest);
  }

  lemma ThisGroup(changes: seq<Change>, at: nat, below: seq<Dir>, d: Dir)
    requires Grouped(changes, at, below) && d in below
    ensures GroupOf(changes, at, d)
  {}

  lemma ThisRewrote(hash: Hash, now: Store, store: Store, es: map<string, Entry>, es': map<string, Entry>, below: seq<Dir>, at: nat, d: Dir)
    requires RewroteAll(hash, now, store, es, es', below, at) && d in below
    ensures Rewrote(hash, now, store, es, es', d, at)
  {}

  /** A directory put together from its files and its directories means what it should. */
  lemma Composes(hash: Hash, now: Store, id: ID, store: Store, base: ID, changes: seq<Change>, at: nat,
                 es: map<string, Entry>, below: seq<Dir>)
    requires MadeHere(hash, changes, at, EntriesOf(store, base), es) && Grouped(changes, at, below)
    requires RewroteAll(hash, now, store, es, EntriesOf(now, id), below, at)
    requires Closed(store) && Extends(store, now) && ZERO !in now
    ensures Means(hash, now, id, store, base, changes, at)
  {
    hide MeansAt, MadeHere, Grouped, RewroteAll, Closed, EntriesOf;
    forall path: string
      ensures MeansAt(hash, now, id, store, base, changes, at, path)
    {
      HeadIs(path);
      if |Head(path)| == |path| {
        assert Head(path) == path;
        ComposesFile(hash, now, id, store, base, changes, at, es, below, path);
      } else if Among(below, Head(path)) {
        var d :| d in below && d.name == Head(path);
        ComposesGroup(hash, now, id, store, base, changes, at, es, below, path, d);
      } else {
        ComposesElsewhere(hash, now, id, store, base, changes, at, es, below, path);
      }
    }
  }

  // ---- What is refused ----

  lemma DirFile(store: Store, id: ID, n: string)
    requires '/' !in n
    ensures DirAt(store, id, n) <==> n in EntriesOf(store, id) && EntriesOf(store, id)[n].mode == Directory
  {
    HeadOf(n, "");
  }

  lemma DirBelow(store: Store, id: ID, path: string)
    requires |Head(path)| < |path|
    ensures var es, n := EntriesOf(store, id), Head(path);
            DirAt(store, id, path) <==> n in es && es[n].mode == Directory && DirAt(store, es[n].id, path[|n| + 1..])
  {}

  lemma DirNothing(store: Store, path: string)
    requires ZERO !in store
    ensures !DirAt(store, ZERO, path)
  {}

  lemma TakenHere(hash: Hash, store: Store, base: ID, changes: seq<Change>, at: nat, es: map<string, Entry>, n: string)
    requires MadeHere(hash, changes, at, EntriesOf(store, base), es) && '/' !in n
    ensures Taken(store, base, changes, at, n) <==> n in es && es[n].mode != Directory
  {
    hide EntriesOf, Lookup, Tail, MadeHere;
    ThereMade(hash, changes, at, EntriesOf(store, base), es, n);
    LookupFile(store, base, n);
  }

  lemma BadFile(store: Store, base: ID, changes: seq<Change>, at: nat, c: Change)
    requires !Deeper(c, at)
    ensures var es, n := EntriesOf(store, base), Tail(c, at);
            Bad(store, base, changes, at, c) <==> (n in es && es[n].mode == Directory) || (c.text.None? && n !in es)
  {
    hide EntriesOf, Lookup, Tail, DirAt, Taken;
    var n := Tail(c, at);
    HeadIs(n);
    assert n == Head(n);
    LookupFile(store, base, n);
    DirFile(store, base, n);
  }

  /** Below a directory the changes go on below, the parent's tree holds what that directory's did. */
  lemma SubHolds(hash: Hash, store: Store, base: ID, changes: seq<Change>, at: nat, es: map<string, Entry>, n: string, rest: string)
    requires MadeHere(hash, changes, at, EntriesOf(store, base), es) && '/' !in n && ZERO !in store
    requires n in es ==> es[n].mode == Directory
    ensures Lookup(store, base, n + "/" + rest) == Lookup(store, SubID(es, n), rest)
    ensures DirAt(store, base, n + "/" + rest) <==> DirAt(store, SubID(es, n), rest)
  {
    hide EntriesOf, Lookup, Tail, MadeHere, DirAt, Head;
    ThereMade(hash, changes, at, EntriesOf(store, base), es, n);
    var path := n + "/" + rest;
    HeadOf(n, rest);
    assert path[|n| + 1..] == rest;
    LookupBelow(store, base, path);
    DirBelow(store, base, path);
    LookupNothing(store, rest);
    DirNothing(store, rest);
  }

  lemma SubTaken(hash: Hash, store: Store, base: ID, changes: seq<Change>, at: nat, es: map<string, Entry>, d: Dir, rest: string)
    requires MadeHere(hash, changes, at, EntriesOf(store, base), es) && '/' !in d.name && ZERO !in store && GroupOf(changes, at, d)
    requires d.name in es ==> es[d.name].mode == Directory
    ensures Taken(store, base, changes, at, d.name + "/" + rest) <==> Taken(store, SubID(es, d.name), d.changes, at + |d.name| + 1, rest)
  {
    hide EntriesOf, Lookup, Tail, MadeHere, DirAt, GroupOf;
    SubHolds(hash, store, base, changes, at, es, d.name, rest);
    forall c
      ensures c in changes && Tail(c, at) == d.name + "/" + rest <==> c in d.changes && Tail(c, at + |d.name| + 1) == rest
    {
      SameChanges(changes, at, d, d.name + "/" + rest, rest, c);
    }
  }

  lemma SubTakenAbove(hash: Hash, store: Store, base: ID, changes: seq<Change>, at: nat, es: map<string, Entry>, d: Dir, rest: string)
    requires MadeHere(hash, changes, at, EntriesOf(store, base), es) && '/' !in d.name && ZERO !in store && GroupOf(changes, at, d)
    requires d.name in es ==> es[d.name].mode == Directory
    ensures TakenAbove(store, base, changes, at, d.name + "/" + rest) <==> TakenAbove(store, SubID(es, d.name), d.changes, at + |d.name| + 1, rest)
  {
    hide EntriesOf, Taken, MadeHere, GroupOf;
    var n, path, sub, at' := d.name, d.name + "/" + rest, SubID(es, d.name), at + |d.name| + 1;
    if TakenAbove(store, base, changes, at, path) {
      var k :| 0 <= k < |path| && path[k] == '/' && Taken(store, base, changes, at, path[..k]);
      TakenHere(hash, store, base, changes, at, es, n);
      BeforeSlash(n, rest, k);
      SubTaken(hash, store, base, changes, at, es, d, rest[..k - |n| - 1]);
      assert rest[k - |n| - 1] == '/';
    }
    if TakenAbove(store, sub, d.changes, at', rest) {
      var k :| 0 <= k < |rest| && rest[k] == '/' && Taken(store, sub, d.changes, at', rest[..k]);
      SubTaken(hash, store, base, changes, at, es, d, rest[..k]);
      var j := |n| + 1 + k;
      assert path[..j] == n + "/" + rest[..k] && path[j] == '/';
    }
  }

  lemma BeforeSlash(n: string, rest: string, k: nat)
    requires '/' !in n && k < |n + "/" + rest| && (n + "/" + rest)[k] == '/'
    ensures (n + "/" + rest)[..k] == n || (k > |n| && (n + "/" + rest)[..k] == n + "/" + rest[..k - |n| - 1])
  {}

  /** A change that goes below a directory cannot be made where a file lies there, and otherwise exactly
      where it cannot be below it. */
  lemma BadBelow(hash: Hash, store: Store, base: ID, changes: seq<Change>, at: nat, es: map<string, Entry>, d: Dir, c: Change)
    requires MadeHere(hash, changes, at, EntriesOf(store, base), es) && '/' !in d.name && ZERO !in store && GroupOf(changes, at, d)
    requires c in d.changes
    ensures if d.name in es && es[d.name].mode != Directory then Bad(store, base, changes, at, c)
            else Bad(store, base, changes, at, c) <==> Bad(store, SubID(es, d.name), d.changes, at + |d.name| + 1, c)
  {
    hide EntriesOf, Taken, TakenAbove, MadeHere, Lookup, DirAt, Tail, Head;
    TailSplits(c, at);
    var n, rest := d.name, Tail(c, at + |d.name| + 1);
    if n in es && es[n].mode != Directory {
      TakenHere(hash, store, base, changes, at, es, n);
      AboveFirst(store, base, changes, at, n, rest);
    } else {
      SubHolds(hash, store, base, changes, at, es, n, rest);
      SubTakenAbove(hash, store, base, changes, at, es, d, rest);
    }
  }

  lemma AboveFirst(store: Store, base: ID, changes: seq<Change>, at: nat, n: string, rest: string)
    requires Taken(store, base, changes, at, n)
    ensures TakenAbove(store, base, changes, at, n + "/" + rest)
  {
    hide Taken;
    var path := n + "/" + rest;
    assert path[..|n|] == n && path[|n|] == '/';
  }

  /** And no change of it was one that cannot be made. */
  lemma ComposesApplies(hash: Hash, now: Store, id: ID, store: Store, base: ID, changes: seq<Change>, at: nat,
                        es: map<string, Entry>, below: seq<Dir>)
    requires MadeHere(hash, changes, at, EntriesOf(store, base), es) && Grouped(changes, at, below)
    requires RewroteAll(hash, now, store, es, EntriesOf(now, id), below, at) && ZERO !in store
    ensures Applies(store, base, changes, at)
  {
    hide MadeHere, GroupOf, EntriesOf, Means, Head, Tail, RewroteAll, Bad;
    forall c | c in changes
      ensures !Bad(store, base, changes, at, c)
    {
      var path := Tail(c, at);
      HeadIs(path);
      if Deeper(c, at) {
        var d :| d in below && d.name == Name(c, at);
        ThisGroup(changes, at, below, d);
        ThisRewrote(hash, now, store, es, EntriesOf(now, id), below, at, d);
        InItsGroup(changes, at, d, c);
        BadBelow(hash, store, base, changes, at, es, d, c);
      } else {
        assert Head(path) == path;
        ThereMade(hash, changes, at, EntriesOf(store, base), es, path);
        BadFile(store, base, changes, at, c);
      }
    }
  }

  lemma InItsGroup(changes: seq<Change>, at: nat, d: Dir, c: Change)
    requires GroupOf(changes, at, d) && c in changes && Deeper(c, at) && Name(c, at) == d.name
    ensures c in d.changes
  {}

  // ---- The changes of one directory ----

  /** Every name of a path is there: no slash begins it, ends it or follows another. */
  predicate GoodTail(path: string)
    decreases |path|
  {
    Head(path) != [] && (|Head(path)| < |path| ==> GoodTail(path[|Head(path)| + 1..]))
  }

  /** The changes are in byte order, all below one directory that `at` bytes of each path name. */
  ghost predicate Below(changes: seq<Change>, at: nat) {
    && InOrder(PathOf, changes)
    && (forall c | c in changes :: at < |c.path| && GoodTail(Tail(c, at)))
    && (forall c, c' | c in changes && c' in changes :: c.path[..at] == c'.path[..at])
  }

  predicate InGroup(c: Change, at: nat, n: string) {
    Deeper(c, at) && Name(c, at) == n
  }

  /** A path goes below the directory n exactly where n and a slash begin it. */
  lemma GroupPrefix(c: Change, at: nat, n: string)
    requires '/' !in n
    ensures InGroup(c, at, n) <==> n + "/" <= Tail(c, at)
  {
    var t := Tail(c, at);
    if n + "/" <= t {
      HeadOf(n, t[|n| + 1..]);
      assert t == n + "/" + t[|n| + 1..];
    } else if InGroup(c, at, n) {
      TailSplits(c, at);
    }
  }

  lemma PrefixWhole(c: Change, at: nat, pre: string, p: string)
    requires at <= |c.path| && c.path[..at] == pre
    ensures p <= Tail(c, at) <==> pre + p <= c.path
  {
    assert c.path == pre + Tail(c, at);
    if p <= Tail(c, at) {
      assert Tail(c, at) == p + Tail(c, at)[|p|..];
      assert c.path == (pre + p) + Tail(c, at)[|p|..];
    }
    if pre + p <= c.path {
      assert Tail(c, at) == p + c.path[|pre + p|..];
    }
  }

  /** Past the end of a group in byte order, nothing is of it. */
  lemma GroupEnds(changes: seq<Change>, at: nat, i: nat, j: nat, k: nat, n: string)
    requires Below(changes, at) && i < j < k < |changes| && '/' !in n
    requires InGroup(changes[i], at, n) && !InGroup(changes[j], at, n)
    ensures !InGroup(changes[k], at, n)
  {
    hide GoodTail, InGroup, Tail;
    var pre := changes[i].path[..at];
    GroupPrefix(changes[i], at, n);
    GroupPrefix(changes[j], at, n);
    GroupPrefix(changes[k], at, n);
    PrefixWhole(changes[i], at, pre, n + "/");
    PrefixWhole(changes[j], at, pre, n + "/");
    PrefixWhole(changes[k], at, pre, n + "/");
    if InGroup(changes[k], at, n) {
      Between(pre + (n + "/"), changes[i].path, changes[j].path, changes[k].path);
    }
  }

  /** Where the run of changes below one directory ends. */
  method GroupEnd(changes: seq<Change>, at: nat, i: nat) returns (j: nat)
    requires Below(changes, at) && i < |changes| && Deeper(changes[i], at)
    ensures i < j <= |changes|
    ensures forall k | i <= k < j :: InGroup(changes[k], at, Name(changes[i], at))
    ensures forall k | j <= k < |changes| :: !InGroup(changes[k], at, Name(changes[i], at))
  {
    hide GoodTail, InGroup, Tail, Head;
    var n := Name(changes[i], at);
    HeadIs(Tail(changes[i], at));
    GroupPrefix(changes[i], at, n);
    assert InGroup(changes[i], at, n) by { ItsOwn(changes[i], at); }
    j := i + 1;
    while j < |changes| && n + "/" <= Tail(changes[j], at)
      invariant i < j <= |changes|
      invariant forall k | i <= k < j :: InGroup(changes[k], at, n)
    {
      GroupPrefix(changes[j], at, n);
      j := j + 1;
    }
    if j < |changes| {
      GroupPrefix(changes[j], at, n);
      forall k | j < k < |changes|
        ensures !InGroup(changes[k], at, n)
      {
        GroupEnds(changes, at, i, j, k, n);
      }
    }
  }

  lemma ItsOwn(c: Change, at: nat)
    requires Deeper(c, at)
    ensures InGroup(c, at, Name(c, at))
  {}

  /** The changes gathered below a directory are below it, in order. */
  lemma GroupBelow(changes: seq<Change>, at: nat, i: nat, j: nat, n: string)
    requires Below(changes, at) && i < j <= |changes| && '/' !in n
    requires forall k | i <= k < j :: InGroup(changes[k], at, n)
    ensures Below(changes[i..j], at + |n| + 1)
  {
    hide Head;
    var group := changes[i..j];
    forall c | c in group
      ensures at + |n| + 1 < |c.path| && GoodTail(Tail(c, at + |n| + 1)) && c.path[..at + |n| + 1] == changes[i].path[..at] + n + "/"
    {
      var k :| i <= k < j && changes[k] == c;
      GroupTail(c, at, n, changes[i].path[..at]);
    }
  }

  lemma GroupTail(c: Change, at: nat, n: string, pre: string)
    requires at <= |c.path| && GoodTail(Tail(c, at)) && InGroup(c, at, n) && c.path[..at] == pre
    ensures at + |n| + 1 < |c.path| && GoodTail(Tail(c, at + |n| + 1)) && c.path[..at + |n| + 1] == pre + n + "/"
  {
    hide Tail, Head, GoodTail;
    TailSplits(c, at);
    var rest := Tail(c, at + |n| + 1);
    GoodBelow(n, rest, Tail(c, at));
    PathIs(c, at, pre);
    assert c.path == pre + (n + "/" + rest);
    CutAfter(pre, n, rest, c.path);
  }

  lemma PathIs(c: Change, at: nat, pre: string)
    requires at <= |c.path| && c.path[..at] == pre
    ensures c.path == pre + Tail(c, at)
  {}

  lemma GoodBelow(n: string, rest: string, path: string)
    requires GoodTail(path) && path == n + "/" + rest && Head(path) == n
    ensures GoodTail(rest) && rest != []
  {
    assert path[|n| + 1..] == rest;
  }

  lemma CutAfter(pre: string, n: string, rest: string, path: string)
    requires path == pre + (n + "/" + rest)
    ensures |pre| + |n| + 1 + |rest| == |path| && path[..|pre| + |n| + 1] == pre + n + "/"
  {
    assert path == (pre + n + "/") + rest;
  }
}
