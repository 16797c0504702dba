/** The tree of a commit made from files, written object by object. */
module Commits {
  import opened Options
  import opened GitObjects
  import opened Paths
  import opened Trees
  import opened Rewrite
  import opened Legality

  /** What an object is beside the parent's tree: reached from it. ZERO is no tree. */
  ghost predicate FromTop(store: Store, top: ID, x: ID) {
    top != ZERO && Reaches(Everything, store, top, x)
  }

  /** Whatever the objects written name was written, or the parent's tree reaches it. */
  ghost predicate Sourced(store: Store, top: ID, held: Store) {
    forall id, x | id in held && x in Links(Everything, held[id]) :: x in held || FromTop(store, top, x)
  }

  ghost predicate NoneEmpty(held: Store) {
    forall id | id in held :: held[id] != Tree([])
  }

  ghost predicate NoneEmptyBut(held: Store, root: ID) {
    forall id | id in held && held[id] == Tree([]) :: id == root
  }

  /** What a rewrite stands on: a repository holding each object under its hash, and all it names. */
  ghost predicate Ground(hash: Hash, store: Store, top: ID) {
    && CollisionFree(hash) && Addressed(hash, store) && Closed(store)
    && (top == ZERO || top in store)
  }

  /** The list a rewrite appends to, and an index of it by hash; `Held` is the store the two stand for. */
  class ObjectsWritten {
    const hash: Hash
    var objects: seq<Object>
    var at: map<ID, nat>

    constructor (hash: Hash)
      ensures this.hash == hash && Valid() && objects == [] && Held() == map[]
    {
      this.hash := hash;
      objects, at := [], map[];
    }

    ghost predicate Valid()
      reads this
    {
      && (forall id | id in at :: at[id] < |objects| && hash(objects[at[id]]) == id)
      && (forall i | 0 <= i < |objects| :: hash(objects[i]) in at && at[hash(objects[i])] == i)
    }

    ghost function Held(): Store
      requires Valid()
      reads this
    {
      map id | id in at :: objects[at[id]]
    }

    method Add(o: Object) returns (id: ID)
      requires Valid() && CollisionFree(hash)
      modifies this
      ensures Valid() && id == hash(o) && Held() == old(Held())[id := o]
    {
      hide CollisionFree;
      id := hash(o);
      ghost var held := Held();
      if id in at {
        SameHash(hash, objects[at[id]], o);
        assert held[id := o] == held;
      } else {
        at := at[id := |objects|];
        objects := objects + [o];
      }
    }

    /** Where the writing stands: what was written agrees with the repository, names only what was
        written or the parent's tree reaches, and holds no empty tree. */
    ghost predicate Fits(store: Store, top: ID)
      reads this
    {
      && Valid() && Addressed(hash, Held())
      && Sourced(store, top, Held()) && NoneEmpty(Held())
    }
  }

  lemma SameHash(hash: Hash, o: Object, p: Object)
    requires CollisionFree(hash) && hash(o) == hash(p)
    ensures o == p
  {}

  lemma GroundAgrees(hash: Hash, store: Store, top: ID, held: Store)
    requires Ground(hash, store, top) && Addressed(hash, held) && Sourced(store, top, held)
    ensures Agree(store, held) && Extends(store, store + held) && Closed(store + held)
    ensures ZERO !in store + held
  {
    hide Reaches, Links;
    forall id | id in store && id in held
      ensures store[id] == held[id]
    {
      assert hash(store[id]) == hash(held[id]);
    }
    forall id, x | id in store + held && x in Links(Everything, (store + held)[id])
      ensures x in store + held
    {
      if id in held {
        if x !in held {
          ClosedHolds(store, top, x);
        }
      }
    }
  }

  lemma WroteBlob(hash: Hash, store: Store, top: ID, held: Store, text: string)
    requires CollisionFree(hash) && Addressed(hash, held) && Sourced(store, top, held) && NoneEmpty(held)
    ensures var held' := held[hash(Blob(text)) := Blob(text)];
            Addressed(hash, held') && Sourced(store, top, held') && NoneEmpty(held') && Extends(held, held')
  {}

  /** Each entry that names an object names one written, or one the parent's tree reaches. */
  ghost predicate EntriesSourced(store: Store, top: ID, held: Store, es: map<string, Entry>) {
    forall n | n in es :: es[n].name == n && (es[n].mode != Submodule ==> es[n].id in held || FromTop(store, top, es[n].id))
  }

  lemma SourcedMore(store: Store, top: ID, held: Store, held': Store, es: map<string, Entry>)
    requires EntriesSourced(store, top, held, es) && held.Keys <= held'.Keys
    ensures EntriesSourced(store, top, held', es)
  {}

  // ---- The files of one directory ----

  datatype Gathered = Gathered(entries: map<string, Entry>, below: seq<Dir>) | Refused

  /** One more change of a file here was made. */
  lemma MadeOne(hash: Hash, changes: seq<Change>, at: nat, i: nat, es: map<string, Entry>, es1: map<string, Entry>, es': map<string, Entry>)
    requires Below(changes, at) && i < |changes| && MadeHere(hash, changes[..i], at, es, es1)
    requires var n := Tail(changes[i], at);
             && '/' !in n && Made(hash, changes[i].text, es1, es', n)
             && forall m: string | m != n :: Same(es1, es', m)
    ensures MadeHere(hash, changes[..i + 1], at, es, es')
  {
    hide GoodTail, Made, Same, Tail, MadeAt;
    var n := Tail(changes[i], at);
    assert changes[..i + 1] == changes[..i] + [changes[i]];
    forall c | c in changes[..i]
      ensures Tail(c, at) != n
    {
      var k :| 0 <= k < i && changes[k] == c;
      DifferentTails(changes, at, k, i);
    }
    forall m: string | '/' !in m
      ensures MadeAt(hash, changes[..i + 1], at, es, es', m)
    {
      assert MadeAt(hash, changes[..i], at, es, es1, m);
      if m == n {
        MadeNew(hash, changes[..i], at, es, es1, es', changes[i]);
      } else {
        MadeStays(hash, changes[..i], at, es, es1, es', m);
        MadeNotHere(hash, changes[..i], at, es, es', changes[i], m);
      }
    }
  }

  lemma MadeNew(hash: Hash, changes: seq<Change>, at: nat, es: map<string, Entry>, es1: map<string, Entry>, es': map<string, Entry>, c: Change)
    requires MadeAt(hash, changes, at, es, es1, Tail(c, at)) && Made(hash, c.text, es1, es', Tail(c, at))
    requires forall x | x in changes :: Tail(x, at) != Tail(c, at)
    ensures MadeAt(hash, changes + [c], at, es, es', Tail(c, at))
  {
    hide Tail;
    MadeSame(hash, c.text, es, es1, es', Tail(c, at));
  }

  lemma MadeNotHere(hash: Hash, changes: seq<Change>, at: nat, es: map<string, Entry>, es': map<string, Entry>, c: Change, m: string)
    requires MadeAt(hash, changes, at, es, es', m) && Tail(c, at) != m
    ensures MadeAt(hash, changes + [c], at, es, es', m)
  {
    hide Tail, Made, Same;
  }

  lemma MadeSame(hash: Hash, text: Option<string>, es: map<string, Entry>, es1: map<string, Entry>, es': map<string, Entry>, n: string)
    requires Same(es, es1, n) && Made(hash, text, es1, es', n)
    ensures Made(hash, text, es, es', n)
  {}

  lemma MadeStays(hash: Hash, changes: seq<Change>, at: nat, es: map<string, Entry>, es1: map<string, Entry>, es': map<string, Entry>, m: string)
    requires MadeAt(hash, changes, at, es, es1, m) && Same(es1, es', m)
    ensures MadeAt(hash, changes, at, es, es', m)
  {}

  lemma DifferentTails(changes: seq<Change>, at: nat, k: nat, i: nat)
    requires Below(changes, at) && k < i < |changes|
    ensures Tail(changes[k], at) != Tail(changes[i], at)
  {
    hide GoodTail;
    var c, d := changes[k], changes[i];
    assert Less(PathOf(c), PathOf(d));
    LessIrreflexive(d.path);
    assert c.path == c.path[..at] + Tail(c, at) && d.path == d.path[..at] + Tail(d, at);
  }

  /** The changes below a directory change no file here. */
  lemma MadeNone(hash: Hash, changes: seq<Change>, at: nat, i: nat, j: nat, n: string, es: map<string, Entry>, es1: map<string, Entry>)
    requires i <= j <= |changes| && MadeHere(hash, changes[..i], at, es, es1)
    requires forall k | i <= k < j :: InGroup(changes[k], at, n)
    ensures MadeHere(hash, changes[..j], at, es, es1)
  {
    hide Made, Same;
    assert changes[..j] == changes[..i] + changes[i..j];
    forall c | c in changes[i..j]
      ensures '/' in Tail(c, at)
    {
      var k :| i <= k < j && changes[k] == c;
      TailSplits(c, at);
    }
    forall m: string | '/' !in m
      ensures MadeAt(hash, changes[..j], at, es, es1, m)
    {
      assert MadeAt(hash, changes[..i], at, es, es1, m);
    }
  }

  /** Where the gathering stands: the changes before i are grouped, and no group goes on past it. */
  ghost predicate Gathering(changes: seq<Change>, at: nat, i: nat, below: seq<Dir>)
    requires i <= |changes|
  {
    && Grouped(changes[..i], at, below)
    && (forall d | d in below :: '/' !in d.name && Below(d.changes, at + |d.name| + 1))
    && (forall d, k | d in below && i <= k < |changes| :: !InGroup(changes[k], at, d.name))
  }

  lemma GatheringFile(changes: seq<Change>, at: nat, i: nat, below: seq<Dir>)
    requires i < |changes| && Gathering(changes, at, i, below) && !Deeper(changes[i], at)
    ensures Gathering(changes, at, i + 1, below)
  {
    hide Below, Name, Tail;
    assert changes[..i + 1] == changes[..i] + [changes[i]];
    forall d | d in below
      ensures GroupOf(changes[..i + 1], at, d)
    {
      assert GroupOf(changes[..i], at, d);
    }
  }

  lemma GatheringGroup(changes: seq<Change>, at: nat, i: nat, j: nat, below: seq<Dir>, n: string)
    requires i < j <= |changes| && Below(changes, at) && Gathering(changes, at, i, below) && '/' !in n
    requires forall k | i <= k < j :: InGroup(changes[k], at, n)
    requires forall k | j <= k < |changes| :: !InGroup(changes[k], at, n)
    ensures Gathering(changes, at, j, below + [Dir(n, changes[i..j])])
  {
    hide Below, InGroup, Grouped;
    GroupBelow(changes, at, i, j, n);
    GroupedMore(changes, at, i, j, below, n);
    forall d, k | d in below + [Dir(n, changes[i..j])] && j <= k < |changes|
      ensures !InGroup(changes[k], at, d.name)
    {}
  }

  lemma GroupedMore(changes: seq<Change>, at: nat, i: nat, j: nat, below: seq<Dir>, n: string)
    requires i < j <= |changes| && Gathering(changes, at, i, below)
    requires forall k | i <= k < j :: InGroup(changes[k], at, n)
    ensures Grouped(changes[..j], at, below + [Dir(n, changes[i..j])])
  {
    hide Below, Name, Tail, Deeper, GroupOf;
    var d', below' := Dir(n, changes[i..j]), below + [Dir(n, changes[i..j])];
    forall d | d in below
      ensures d.name != n && GroupOf(changes[..j], at, d)
    {
      assert !InGroup(changes[i], at, d.name);
      GroupStays(changes, at, i, j, d, n);
    }
    GroupNew(changes, at, i, j, below, n);
    forall c | c in changes[..j] && Deeper(c, at)
      ensures exists d :: d in below' && d.name == Name(c, at)
    {
      if c in changes[..i] {
        var d :| d in below && d.name == Name(c, at);
        assert d in below';
      } else {
        assert changes[..j] == changes[..i] + changes[i..j];
        var k :| i <= k < j && changes[k] == c;
        assert d' in below';
      }
    }
  }

  lemma GroupStays(changes: seq<Change>, at: nat, i: nat, j: nat, d: Dir, n: string)
    requires i < j <= |changes| && GroupOf(changes[..i], at, d) && d.name != n
    requires forall k | i <= k < j :: InGroup(changes[k], at, n)
    ensures GroupOf(changes[..j], at, d)
  {
    hide Name, Tail, Deeper;
    assert changes[..j] == changes[..i] + changes[i..j];
    forall c | c in changes[i..j]
      ensures Name(c, at) == n
    {
      var k :| i <= k < j && changes[k] == c;
    }
  }

  lemma NotYet(changes: seq<Change>, at: nat, i: nat, below: seq<Dir>, c: Change, n: string)
    requires i < |changes| && Gathering(changes, at, i, below)
    requires c in changes[..i] && InGroup(c, at, n)
    ensures !InGroup(changes[i], at, n)
  {
    var d :| d in below && d.name == Name(c, at);
  }

  lemma GroupNew(changes: seq<Change>, at: nat, i: nat, j: nat, below: seq<Dir>, n: string)
    requires i < j <= |changes| && Gathering(changes, at, i, below)
    requires forall k | i <= k < j :: InGroup(changes[k], at, n)
    ensures GroupOf(changes[..j], at, Dir(n, changes[i..j]))
  {
    hide Below, Name, Tail, Deeper;
    assert changes[..j] == changes[..i] + changes[i..j];
    forall c
      ensures c in changes[i..j] <==> c in changes[..j] && InGroup(c, at, n)
    {
      if c in changes[i..j] {
        var k :| i <= k < j && changes[k] == c;
      } else if c in changes[..i] && InGroup(c, at, n) {
        NotYet(changes, at, i, below, c, n);
      }
    }
  }

  /** Writes or removes one file among the entries, or refuses to. */
  method Apply(w: ObjectsWritten, ghost store: Store, ghost top: ID, entries: map<string, Entry>, n: string, text: Option<string>)
    returns (ok: bool, entries': map<string, Entry>)
    requires CollisionFree(w.hash) && w.Fits(store, top) && EntriesSourced(store, top, w.Held(), entries)
    modifies w
    ensures w.Fits(store, top) && Extends(old(w.Held()), w.Held())
    ensures ok ==> Made(w.hash, text, entries, entries', n) && forall m: string | m != n :: Same(entries, entries', m)
    ensures ok ==> EntriesSourced(store, top, w.Held(), entries')
    ensures !ok ==> (n in entries && entries[n].mode == Directory) || (n !in entries && text.None?)
  {
    hide CollisionFree, FromTop, Sourced, NoneEmpty, Addressed;
    entries' := entries;
    if n in entries && entries[n].mode == Directory {
      return false, entries;
    }
    if text.None? && n !in entries {
      return false, entries;
    }
    if text.None? {
      return true, entries - {n};
    }
    var mode := if n in entries && entries[n].mode == Executable then Executable else File;
    WroteBlob(w.hash, store, top, w.Held(), text.value);
    var id := w.Add(Blob(text.value));
    SourcedMore(store, top, old(w.Held()), w.Held(), entries);
    return true, entries[n := Entry(n, mode, id)];
  }

  /** Makes the changes of files here, and gathers those below each directory of this one. */
  method Gather(w: ObjectsWritten, ghost store: Store, ghost top: ID, ghost base: ID, entries: map<string, Entry>, changes: seq<Change>, at: nat)
    returns (r: Gathered)
    requires entries == EntriesOf(store, base)
    requires CollisionFree(w.hash) && w.Fits(store, top) && EntriesSourced(store, top, w.Held(), entries)
    requires Below(changes, at)
    modifies w
    ensures w.Fits(store, top) && Extends(old(w.Held()), w.Held())
    ensures r.Gathered? ==> MadeHere(w.hash, changes, at, entries, r.entries) && Gathering(changes, at, |changes|, r.below)
    ensures r.Gathered? ==> EntriesSourced(store, top, w.Held(), r.entries)
    ensures r.Refused? ==> !Applies(store, base, changes, at)
    ensures r.Gathered? && Plain(entries) ==> Plain(r.entries)
  {
    hide EntriesOf, Bad, Below, MadeHere, Gathering, CollisionFree, ObjectsWritten.Valid, Sourced, NoneEmpty, Addressed, EntriesSourced, InGroup, Made, Same, Tail, Head;
    var es, below, i := entries, [], 0;
    NothingYet(w.hash, changes, at, entries);
    while i < |changes|
      invariant i <= |changes|
      invariant w.Fits(store, top) && Extends(old(w.Held()), w.Held())
      invariant MadeHere(w.hash, changes[..i], at, entries, es) && Gathering(changes, at, i, below)
      invariant EntriesSourced(store, top, w.Held(), es) && (Plain(entries) ==> Plain(es))
    {
      var c := changes[i];
      HeadIs(Tail(c, at));
      var n := Head(Tail(c, at));
      if |n| < |Tail(c, at)| {
        var j := GroupEnd(changes, at, i);
        MadeNone(w.hash, changes, at, i, j, n, entries, es);
        GatheringGroup(changes, at, i, j, below, n);
        below, i := below + [Dir(n, changes[i..j])], j;
        continue;
      }
      assert n == Tail(c, at);
      var ok, es' := Apply(w, store, top, es, n, c.text);
      if !ok {
        RefusedFile(w.hash, store, base, changes, at, i, es);
        return Refused;
      }
      MadeOne(w.hash, changes, at, i, entries, es, es');
      PlainStays(es, es', n);
      GatheringFile(changes, at, i, below);
      es, i := es', i + 1;
    }
    assert changes[..|changes|] == changes;
    return Gathered(es, below);
  }

  /** No name among the entries holds a slash. */
  predicate Plain(es: map<string, Entry>) {
    forall n | n in es :: '/' !in n
  }

  lemma PlainStays(es: map<string, Entry>, es': map<string, Entry>, n: string)
    requires '/' !in n && forall m: string | m != n :: Same(es, es', m)
    ensures Plain(es) ==> Plain(es')
  {
    forall m | m in es' && m != n
      ensures m in es
    {
      assert Same(es, es', m);
    }
  }

  /** What is refused of a file here cannot be made, since no change before it was of the same path. */
  lemma RefusedFile(hash: Hash, store: Store, base: ID, changes: seq<Change>, at: nat, i: nat, es: map<string, Entry>)
    requires Below(changes, at) && i < |changes| && MadeHere(hash, changes[..i], at, EntriesOf(store, base), es)
    requires var n := Tail(changes[i], at);
             && !Deeper(changes[i], at) && '/' !in n
             && ((n in es && es[n].mode == Directory) || (n !in es && changes[i].text.None?))
    ensures !Applies(store, base, changes, at)
  {
    hide GoodTail, EntriesOf, Tail, Bad, MadeHere;
    var c := changes[i];
    forall x | x in changes[..i]
      ensures Tail(x, at) != Tail(c, at)
    {
      var k :| 0 <= k < i && changes[k] == x;
      DifferentTails(changes, at, k, i);
    }
    ThereMade(hash, changes[..i], at, EntriesOf(store, base), es, Tail(c, at));
    BadFile(store, base, changes, at, c);
    assert c in changes;
  }

  lemma NothingYet(hash: Hash, changes: seq<Change>, at: nat, es: map<string, Entry>)
    ensures MadeHere(hash, changes[..0], at, es, es) && Gathering(changes, at, 0, [])
  {}

  // ---- The tree of one directory ----

  /** The key entries are sorted by, in byte order: a slash is added for a directory. */
  function EntryKey(e: Entry): string {
    if e.mode == Directory then e.name + "/" else e.name
  }

  /** Writes the entries out as a tree, in git's order, where all of them are legal. */
  method EncodeTree(naming: Naming, entries: map<string, Entry>) returns (ok: bool, o: Object)
    requires forall n | n in entries :: entries[n].name == n
    ensures ok <==> AllLegal(naming, entries)
    ensures ok ==> o.Tree? && ByName(o.entries) == entries && InOrder(EntryKey, o.entries)
    ensures ok ==> forall e | e in o.entries :: e.name in entries && entries[e.name] == e
    ensures ok ==> (o == Tree([]) <==> entries == map[])
  {
    hide ByName, LegalName;
    var list := EntryList(entries);
    var sorted := Sort(EntryKey, list);
    forall e: Entry
      ensures e in sorted <==> e in list
    {
      SortHolds(EntryKey, list, e);
    }
    for i := 0 to |sorted|
      invariant forall j | 0 <= j < i :: LegalEntry(naming, sorted[j])
    {
      assert sorted[i] in sorted;
      var legal := CheckEntry(naming, sorted[i]);
      if !legal {
        return false, Tree([]);
      }
    }
    EachListed(naming, sorted, entries);
    KeysApart(naming, list, entries);
    SortOrders(EntryKey, list);
    ByNameOf(sorted, entries);
    NoneListed(sorted, entries);
    return true, Tree(sorted);
  }

  /** Holds one entry to the rules a tree is read by. */
  method CheckEntry(naming: Naming, e: Entry) returns (ok: bool)
    ensures ok <==> LegalEntry(naming, e)
  {
    if '\0' in e.name || e.name == "" || |e.name| > MAX_NAME_BYTES || '/' in e.name || e.name == "." || e.name == ".." {
      return false;
    }
    if naming.dotGit(e.name) || e.id == ZERO {
      return false;
    }
    if naming.dotGitmodules(e.name) && (e.mode == Symlink || (e.mode != File && e.mode != Executable)) {
      return false;
    }
    return true;
  }

  lemma EachListed(naming: Naming, list: seq<Entry>, entries: map<string, Entry>)
    requires forall e :: e in list <==> e.name in entries && entries[e.name] == e
    requires forall n | n in entries :: entries[n].name == n
    requires forall j | 0 <= j < |list| :: LegalEntry(naming, list[j])
    ensures AllLegal(naming, entries)
  {
    hide LegalEntry;
    forall n | n in entries
      ensures LegalEntry(naming, entries[n])
    {
      assert entries[n] in list;
    }
  }

  method EntryList(entries: map<string, Entry>) returns (list: seq<Entry>)
    requires forall n | n in entries :: entries[n].name == n
    ensures forall e :: e in list <==> e.name in entries && entries[e.name] == e
    ensures forall i, j | 0 <= i < j < |list| :: list[i].name != list[j].name
  {
    list := [];
    var left := entries.Keys;
    while left != {}
      invariant left <= entries.Keys
      invariant forall e :: e in list <==> e.name in entries && e.name !in left && entries[e.name] == e
      invariant forall i, j | 0 <= i < j < |list| :: list[i].name != list[j].name
    {
      var n :| n in left;
      forall i | 0 <= i < |list|
        ensures list[i].name != n
      {
        assert list[i] in list;
      }
      list := list + [entries[n]];
      left := left - {n};
    }
  }

  lemma NoneListed(list: seq<Entry>, entries: map<string, Entry>)
    requires forall e :: e in list <==> e.name in entries && entries[e.name] == e
    requires forall n | n in entries :: entries[n].name == n
    ensures list == [] <==> entries == map[]
  {
    if list != [] {
      assert list[0] in list;
    }
    if n :| n in entries {
      assert entries[n] in list;
    }
  }

  lemma KeysApart(naming: Naming, list: seq<Entry>, entries: map<string, Entry>)
    requires AllLegal(naming, entries) && forall e | e in list :: e.name in entries && entries[e.name] == e
    requires forall i, j | 0 <= i < j < |list| :: list[i].name != list[j].name
    ensures DistinctKeys(EntryKey, list)
  {
    forall i, j | 0 <= i < j < |list|
      ensures EntryKey(list[i]) != EntryKey(list[j])
    {
      assert list[i] in list && list[j] in list;
      NoSlash(naming, list[i]);
      NoSlash(naming, list[j]);
      OneKey(list[i], list[j]);
    }
  }

  lemma NoSlash(naming: Naming, e: Entry)
    requires LegalEntry(naming, e)
    ensures '/' !in e.name
  {}

  lemma OneKey(e: Entry, f: Entry)
    requires '/' !in e.name && '/' !in f.name
    ensures EntryKey(e) == EntryKey(f) ==> e.name == f.name
  {
    assert e.mode == Directory ==> EntryKey(e)[|e.name|] == '/' && EntryKey(e)[..|e.name|] == e.name;
    assert f.mode == Directory ==> EntryKey(f)[|f.name|] == '/' && EntryKey(f)[..|f.name|] == f.name;
  }

  lemma {:induction false} ByNameHas(list: seq<Entry>, e: Entry)
    requires e in list
    ensures e.name in ByName(list)
  {
    var before, last := list[..|list| - 1], list[|list| - 1];
    assert list == before + [last];
    if e.name != last.name {
      ByNameHas(before, e);
    }
  }

  lemma ByNameOf(list: seq<Entry>, entries: map<string, Entry>)
    requires forall e :: e in list <==> e.name in entries && entries[e.name] == e
    requires forall n | n in entries :: entries[n].name == n
    ensures ByName(list) == entries
  {
    hide ByName;
    forall n | n in entries
      ensures n in ByName(list)
    {
      assert entries[n] in list;
      ByNameHas(list, entries[n]);
    }
    forall n | n in ByName(list)
      ensures n in entries && ByName(list)[n] == entries[n]
    {
      ByNameHolds(list, n);
    }
  }

  lemma WroteTree(hash: Hash, store: Store, top: ID, held: Store, o: Object, es: map<string, Entry>)
    requires CollisionFree(hash) && Addressed(hash, held) && Sourced(store, top, held)
    requires o.Tree? && EntriesSourced(store, top, held, es)
    requires forall e | e in o.entries :: e.name in es && es[e.name] == e
    ensures var held' := held[hash(o) := o];
            Addressed(hash, held') && Sourced(store, top, held') && Extends(held, held')
  {
    hide FromTop;
    forall x | x in Links(Everything, o)
      ensures x in held || FromTop(store, top, x)
    {
      var e :| e in o.entries && e.mode != Submodule && e.id == x;
    }
    if hash(o) in held {
      SameHash(hash, o, held[hash(o)]);
    }
  }

  // ---- The directories below ----

  datatype Rewritten = Wrote(id: ID) | NotWritten

  /** Whatever directories the entries name are held, or there is none. */
  ghost predicate DirsHeld(now: Store, es: map<string, Entry>) {
    forall n | n in es && es[n].mode == Directory :: es[n].id in now
  }

  lemma RewroteMono(hash: Hash, now: Store, now': Store, store: Store, es: map<string, Entry>, es': map<string, Entry>, d: Dir, at: nat)
    requires Rewrote(hash, now, store, es, es', d, at) && DirsHeld(now, es')
    requires Closed(now) && Extends(now, now') && ZERO !in now'
    ensures Rewrote(hash, now', store, es, es', d, at)
  {
    hide Means, Closed, Applies;
    MeansMono(hash, now, now', SubID(es', d.name), store, SubID(es, d.name), d.changes, at + |d.name| + 1);
  }

  lemma RewroteAllMono(hash: Hash, now: Store, now': Store, store: Store, es: map<string, Entry>, es': map<string, Entry>, below: seq<Dir>, at: nat)
    requires RewroteAll(hash, now, store, es, es', below, at) && DirsHeld(now, es')
    requires Closed(now) && Extends(now, now') && ZERO !in now'
    ensures RewroteAll(hash, now', store, es, es', below, at)
  {
    hide Rewrote, Closed, DirsHeld;
    forall d | d in below
      ensures Rewrote(hash, now', store, es, es', d, at)
    {
      RewroteMono(hash, now, now', store, es, es', d, at);
    }
  }

  /** One more directory was rewritten. */
  lemma RewroteMore(hash: Hash, now: Store, store: Store, es: map<string, Entry>, es1: map<string, Entry>, es': map<string, Entry>,
                    below: seq<Dir>, k: nat, at: nat)
    requires k < |below| && DistinctKeys(NameOf, below)
    requires RewroteAll(hash, now, store, es, es1, below[..k], at)
    requires Rewrote(hash, now, store, es, es', below[k], at)
    requires forall n: string | n != below[k].name :: Same(es1, es', n)
    ensures RewroteAll(hash, now, store, es, es', below[..k + 1], at)
  {
    hide Means, Applies;
    assert below[..k + 1] == below[..k] + [below[k]];
    forall d | d in below[..k]
      ensures Rewrote(hash, now, store, es, es', d, at)
    {
      var i :| 0 <= i < k && below[i] == d;
      assert NameOf(below[i]) != NameOf(below[k]);
      assert Same(es1, es', d.name);
    }
    forall n: string | !Among(below[..k + 1], n)
      ensures Same(es, es', n)
    {
      assert below[k] in below[..k + 1];
      assert Same(es1, es', n);
      assert !Among(below[..k], n);
    }
  }

  /** A directory among the entries is one the parent's tree holds. */
  lemma DirFromTop(hash: Hash, store: Store, top: ID, base: ID, changes: seq<Change>, at: nat, es: map<string, Entry>, n: string)
    requires MadeHere(hash, changes, at, EntriesOf(store, base), es) && '/' !in n
    requires base == ZERO || FromTop(store, top, base)
    requires ZERO !in store && n in es && es[n].mode == Directory
    ensures FromTop(store, top, es[n].id) && (Typed(store) ==> IsTree(store, es[n].id))
  {
    hide Reaches;
    assert MadeAt(hash, changes, at, EntriesOf(store, base), es, n);
    ByNameHolds(store[base].entries, n);
    ReachStep(Everything, store, top, base, es[n].id);
  }

  lemma BaseSourced(store: Store, top: ID, base: ID, held: Store)
    requires base == ZERO || FromTop(store, top, base)
    requires ZERO !in store
    ensures EntriesSourced(store, top, held, EntriesOf(store, base))
  {
    hide Reaches;
    forall n | n in EntriesOf(store, base)
      ensures var e := EntriesOf(store, base)[n]; e.name == n && (e.mode != Submodule ==> FromTop(store, top, e.id))
    {
      ByNameHolds(store[base].entries, n);
      var e := EntriesOf(store, base)[n];
      if e.mode != Submodule {
        assert e.id in Links(Everything, store[base]);
        ReachStep(Everything, store, top, base, e.id);
      }
    }
  }

  lemma SourcedHeld(hash: Hash, store: Store, top: ID, held: Store, es: map<string, Entry>)
    requires Ground(hash, store, top) && EntriesSourced(store, top, held, es)
    ensures DirsHeld(store + held, es)
  {
    hide Closed, CollisionFree, Reaches;
    forall n | n in es && es[n].mode == Directory
      ensures es[n].id in store + held
    {
      if es[n].id !in held {
        ClosedHolds(store, top, es[n].id);
      }
    }
  }

  /** What rewriting one directory leaves: the tree it wrote, ZERO where nothing of it is left, means
      what it should, and whatever was removed was there. */
  ghost predicate WroteBelow(hash: Hash, held: Store, id: ID, store: Store, base: ID, changes: seq<Change>, at: nat) {
    && Means(hash, store + held, id, store, base, changes, at)
    && Applies(store, base, changes, at)
    && (id == ZERO ==> at > 0)
    && (id != ZERO ==> id in held && held[id].Tree?)
  }

  /** What a rewrite of the directories below was given. */
  ghost predicate BelowGiven(store: Store, top: ID, es: map<string, Entry>, below: seq<Dir>, at: nat, bound: nat) {
    && DistinctKeys(NameOf, below)
    && (forall d | d in below :: '/' !in d.name && d.changes != [] && Below(d.changes, at + |d.name| + 1))
    && (forall d, c | d in below && c in d.changes :: |c.path| <= bound)
    && (forall d | d in below && d.name in es && es[d.name].mode == Directory ::
          FromTop(store, top, es[d.name].id) && (Typed(store) ==> IsTree(store, es[d.name].id)))
  }

  /** What every tree names as a directory is a tree. */
  ghost predicate Typed(store: Store) {
    forall id, x | IsTree(store, id) && x in DirectoryIDs(store[id].entries) :: IsTree(store, x)
  }

  /** Nothing but the changes can be refused: every tree is one, and was written with legal entries. */
  ghost predicate Willing(naming: Naming, store: Store, base: ID) {
    Typed(store) && TreesLegal(naming, store) && (base == ZERO || IsTree(store, base))
  }

  /** The changes can be made, and written. */
  ghost predicate Doable(naming: Naming, store: Store, base: ID, changes: seq<Change>, at: nat) {
    Applies(store, base, changes, at) && LegalChanges(naming, changes, at)
  }

  /** A file lies where a directory's changes go, or they are not Doable there. */
  ghost predicate HinderedAt(naming: Naming, store: Store, es: map<string, Entry>, d: Dir, at: nat) {
    (d.name in es && es[d.name].mode != Directory) || !Doable(naming, store, SubID(es, d.name), d.changes, at + |d.name| + 1)
  }

  ghost predicate Hindered(naming: Naming, store: Store, es: map<string, Entry>, below: seq<Dir>, at: nat) {
    exists d :: d in below && HinderedAt(naming, store, es, d, at)
  }

  lemma WillingBelow(naming: Naming, store: Store, top: ID, base: ID, es: map<string, Entry>, below: seq<Dir>, at: nat, bound: nat, d: Dir)
    requires Willing(naming, store, base) && BelowGiven(store, top, es, below, at, bound) && d in below
    requires d.name in es ==> es[d.name].mode == Directory
    ensures Willing(naming, store, SubID(es, d.name))
  {
    hide TreesLegal;
  }

  lemma HinderedBy(naming: Naming, store: Store, es: map<string, Entry>, below: seq<Dir>, at: nat, d: Dir)
    requires d in below && HinderedAt(naming, store, es, d, at)
    ensures Hindered(naming, store, es, below, at)
  {}

  lemma HinderedBad(naming: Naming, hash: Hash, store: Store, top: ID, base: ID, changes: seq<Change>, at: nat, bound: nat, es: map<string, Entry>, below: seq<Dir>)
    requires MadeHere(hash, changes, at, EntriesOf(store, base), es) && ZERO !in store && Grouped(changes, at, below)
    requires BelowGiven(store, top, es, below, at, bound)
    requires Hindered(naming, store, es, below, at)
    ensures !Doable(naming, store, base, changes, at)
  {
    hide MadeHere, EntriesOf, Bad, GroupOf, Applies, LegalChanges;
    var d :| d in below && HinderedAt(naming, store, es, d, at);
    assert GroupOf(changes, at, d);
    if (d.name in es && es[d.name].mode != Directory) || !Applies(store, SubID(es, d.name), d.changes, at + |d.name| + 1) {
      var c := SomeBad(hash, store, base, changes, at, es, d);
      BadBelow(hash, store, base, changes, at, es, d, c);
      NotApplies(store, base, changes, at, c, d);
    } else {
      LegalGroup(naming, changes, at, d);
    }
  }

  /** Changes that are legal are so below each directory of their paths. */
  lemma LegalGroup(naming: Naming, changes: seq<Change>, at: nat, d: Dir)
    requires GroupOf(changes, at, d)
    ensures LegalChanges(naming, changes, at) ==> LegalChanges(naming, d.changes, at + |d.name| + 1)
  {
    hide Tail, LegalPath, LegalName, Head;
    forall c | c in d.changes
      ensures c in changes && (LegalPath(naming, Tail(c, at)) ==> LegalPath(naming, Tail(c, at + |d.name| + 1)))
    {
      LegalBelow(naming, c, at);
    }
  }

  lemma NotApplies(store: Store, base: ID, changes: seq<Change>, at: nat, c: Change, d: Dir)
    requires GroupOf(changes, at, d) && c in d.changes && Bad(store, base, changes, at, c)
    ensures !Applies(store, base, changes, at)
  {
    hide Bad;
  }

  lemma SomeBad(hash: Hash, store: Store, base: ID, changes: seq<Change>, at: nat, es: map<string, Entry>, d: Dir) returns (c: Change)
    requires GroupOf(changes, at, d)
    requires (d.name in es && es[d.name].mode != Directory) || !Applies(store, SubID(es, d.name), d.changes, at + |d.name| + 1)
    ensures c in d.changes
    ensures (d.name in es && es[d.name].mode != Directory) || Bad(store, SubID(es, d.name), d.changes, at + |d.name| + 1, c)
  {
    hide Bad;
    if d.name in es && es[d.name].mode != Directory {
      c := d.changes[0];
    } else {
      c :| c in d.changes && Bad(store, SubID(es, d.name), d.changes, at + |d.name| + 1, c);
    }
  }

  /** Rewrites each directory of this one that changes lie below. */
  method Descend(w: ObjectsWritten, naming: Naming, store: Store, ghost top: ID, ghost base: ID,
                 entries: map<string, Entry>, below: seq<Dir>, at: nat, ghost bound: nat)
    returns (ok: bool, entries': map<string, Entry>)
    requires Ground(w.hash, store, top) && w.Fits(store, top) && EntriesSourced(store, top, w.Held(), entries)
    requires BelowGiven(store, top, entries, below, at, bound) && at <= bound
    modifies w
    ensures w.Fits(store, top) && Extends(old(w.Held()), w.Held())
    ensures ok ==> RewroteAll(w.hash, store + w.Held(), store, entries, entries', below, at)
    ensures ok ==> EntriesSourced(store, top, w.Held(), entries')
    ensures ok ==> DirsLegal(naming, below, at)
    ensures ok && Plain(entries) ==> Plain(entries')
    ensures !ok && Willing(naming, store, base) ==> Hindered(naming, store, entries, below, at)
    decreases bound - at, 0
  {
    hide Willing, Doable, LegalChanges, Hindered, Plain, DirsLegal, BelowGiven, ObjectsWritten.Valid, Sourced, NoneEmpty, Addressed, EntriesSourced, RewroteAll, Ground, Below, Means, Applies, FromTop;
    var es := entries;
    NoneRewrote(w.hash, store + w.Held(), store, entries, at);
    NoDirs(naming, at);
    for k := 0 to |below|
      invariant w.Fits(store, top) && Extends(old(w.Held()), w.Held())
      invariant RewroteAll(w.hash, store + w.Held(), store, entries, es, below[..k], at)
      invariant EntriesSourced(store, top, w.Held(), es) && (Plain(entries) ==> Plain(es))
      invariant DirsLegal(naming, below[..k], at)
    {
      var d := below[k];
      GivenBelow(store, top, entries, below, at, bound, d);
      ghost var held := w.Held();
      StillSame(w.hash, store + held, store, entries, es, below, k, at);
      if d.name in es && es[d.name].mode != Directory {
        HinderedBy(naming, store, entries, below, at, d);
        return false, es;
      }
      if Willing(naming, store, base) {
        WillingBelow(naming, store, top, base, entries, below, at, bound, d);
      }
      var sub := SubID(es, d.name);
      PathsGoOn(d, at, bound);
      var r := RewriteBelow(w, naming, store, top, sub, d.changes, at + |d.name| + 1, bound);
      if r.NotWritten? {
        if Willing(naming, store, base) {
          HinderedBy(naming, store, entries, below, at, d);
        }
        return false, es;
      }
      var es' := if r.id == ZERO then es - {d.name} else es[d.name := Entry(d.name, Directory, r.id)];
      Descended(w.hash, store, top, entries, es, es', below, k, at, held, w.Held(), r.id);
      OneMoreDir(naming, below, k, at);
      PlainDir(es, es', d.name);
      es := es';
    }
    assert below[..|below|] == below;
    return true, es;
  }

  lemma NoDirs(naming: Naming, at: nat)
    ensures DirsLegal(naming, [], at)
  {}

  lemma OneMoreDir(naming: Naming, below: seq<Dir>, k: nat, at: nat)
    requires k < |below| && DirsLegal(naming, below[..k], at) && LegalChanges(naming, below[k].changes, at + |below[k].name| + 1)
    ensures DirsLegal(naming, below[..k + 1], at)
  {
    hide LegalChanges;
    assert below[..k + 1] == below[..k] + [below[k]];
  }

  lemma PlainDir(es: map<string, Entry>, es': map<string, Entry>, n: string)
    requires '/' !in n && es'.Keys <= es.Keys + {n}
    ensures Plain(es) ==> Plain(es')
  {}

  lemma GivenBelow(store: Store, top: ID, es: map<string, Entry>, below: seq<Dir>, at: nat, bound: nat, d: Dir)
    requires BelowGiven(store, top, es, below, at, bound) && d in below
    ensures '/' !in d.name && d.changes != [] && Below(d.changes, at + |d.name| + 1)
    ensures forall c | c in d.changes :: |c.path| <= bound
    ensures d.name in es && es[d.name].mode == Directory ==> FromTop(store, top, es[d.name].id)
    ensures DistinctKeys(NameOf, below)
  {}

  lemma NoneRewrote(hash: Hash, now: Store, store: Store, es: map<string, Entry>, at: nat)
    ensures RewroteAll(hash, now, store, es, es, [], at)
  {}

  lemma StillSame(hash: Hash, now: Store, store: Store, es: map<string, Entry>, es1: map<string, Entry>, below: seq<Dir>, k: nat, at: nat)
    requires k < |below| && DistinctKeys(NameOf, below) && RewroteAll(hash, now, store, es, es1, below[..k], at)
    ensures Same(es, es1, below[k].name)
  {
    hide Rewrote, Same;
    assert forall i | 0 <= i < k :: NameOf(below[i]) != NameOf(below[k]);
    assert !Among(below[..k], below[k].name);
  }

  lemma PathsGoOn(d: Dir, at: nat, bound: nat)
    requires Below(d.changes, at + |d.name| + 1) && d.changes != []
    requires forall c | c in d.changes :: |c.path| <= bound
    ensures at < at + |d.name| + 1 <= bound
  {
    assert d.changes[0] in d.changes;
  }

  lemma Descended(hash: Hash, store: Store, top: ID, es: map<string, Entry>, es1: map<string, Entry>, es': map<string, Entry>,
                  below: seq<Dir>, k: nat, at: nat, held: Store, held': Store, id: ID)
    requires Ground(hash, store, top) && Addressed(hash, held) && Sourced(store, top, held) && Addressed(hash, held') && Sourced(store, top, held')
    requires k < |below| && DistinctKeys(NameOf, below) && Extends(held, held')
    requires RewroteAll(hash, store + held, store, es, es1, below[..k], at) && EntriesSourced(store, top, held, es1)
    requires Same(es, es1, below[k].name) && (below[k].name in es ==> es[below[k].name].mode == Directory)
    requires WroteBelow(hash, held', id, store, SubID(es1, below[k].name), below[k].changes, at + |below[k].name| + 1)
    requires es' == if id == ZERO then es1 - {below[k].name} else es1[below[k].name := Entry(below[k].name, Directory, id)]
    ensures RewroteAll(hash, store + held', store, es, es', below[..k + 1], at) && EntriesSourced(store, top, held', es')
  {
    hide Means, Applies, RewroteAll, Ground, Sourced, Addressed, FromTop, EntriesSourced, DistinctKeys, Extends, Agree, Closed, DirsHeld;
    OneSourced(store, top, held, held', es1, es', below[k].name, id);
    GroundAgrees(hash, store, top, held);
    GroundAgrees(hash, store, top, held');
    SourcedHeld(hash, store, top, held, es1);
    OverExtends(store, held, held');
    RewroteAllMono(hash, store + held, store + held', store, es, es1, below[..k], at);
    RewroteMore(hash, store + held', store, es, es1, es', below, k, at);
  }

  lemma OverExtends(store: Store, held: Store, held': Store)
    requires Extends(held, held') && Agree(store, held')
    ensures Extends(store + held, store + held')
  {}

  lemma OneSourced(store: Store, top: ID, held: Store, held': Store, es: map<string, Entry>, es': map<string, Entry>, n: string, id: ID)
    requires EntriesSourced(store, top, held, es) && Extends(held, held') && (id == ZERO || id in held')
    requires es' == if id == ZERO then es - {n} else es[n := Entry(n, Directory, id)]
    ensures EntriesSourced(store, top, held', es') && forall m: string | m != n :: Same(es, es', m)
  {
    hide FromTop;
  }

  /** Rewrites one directory of `store`, whose changes all share their first `at` bytes. It answers ZERO where
      no entry is left below the root. */
  method RewriteBelow(w: ObjectsWritten, naming: Naming, store: Store, ghost top: ID, base: ID,
                      changes: seq<Change>, at: nat, ghost bound: nat)
    returns (r: Rewritten)
    requires Ground(w.hash, store, top) && w.Fits(store, top) && Below(changes, at)
    requires base == ZERO || FromTop(store, top, base)
    requires at <= bound && forall c | c in changes :: |c.path| <= bound
    modifies w
    ensures w.Valid() && Addressed(w.hash, w.Held()) && Sourced(store, top, w.Held()) && Extends(old(w.Held()), w.Held())
    ensures at > 0 || r.NotWritten? ==> NoneEmpty(w.Held())
    ensures r.Wrote? ==> NoneEmptyBut(w.Held(), r.id)
    ensures r.Wrote? ==> WroteBelow(w.hash, w.Held(), r.id, store, base, changes, at)
    ensures r.Wrote? ==> LegalChanges(naming, changes, at)
    ensures r.NotWritten? && Willing(naming, store, base) ==> !Doable(naming, store, base, changes, at)
    decreases bound - at, 1
  {
    hide Willing, Hindered, Applies, LegalChanges, DirsLegal, Plain, IsTree, ObjectsWritten.Valid, Sourced, NoneEmpty, NoneEmptyBut, CollisionFree, Closed, Extends, Addressed, EntriesSourced, RewroteAll, Ground, Below, MadeHere, Gathering, Grouped, BelowGiven, WroteBelow, FromTop, EntriesOf;
    Itself(w.Held());
    NoZero(w.hash, store, top);
    if base == ZERO && exists c | c in changes :: c.text.None? {
      NothingThere(store, changes, at);
      return NotWritten;
    }
    if base != ZERO && !IsTree(store, base) {
      NotWilling(naming, store, base);
      return NotWritten;
    }
    BaseSourced(store, top, base, w.Held());
    var g := Gather(w, store, top, base, EntriesOf(store, base), changes, at);
    if g.Refused? {
      return NotWritten;
    }
    ghost var gathered := w.Held();
    var below := Sort(NameOf, g.below);
    SortedBelow(w.hash, store, top, base, changes, at, bound, g.entries, g.below);
    var ok, es := Descend(w, naming, store, top, base, g.entries, below, at, bound);
    Onward(old(w.Held()), gathered, w.Held());
    if !ok {
      if Willing(naming, store, base) {
        HinderedBad(naming, w.hash, store, top, base, changes, at, bound, g.entries, below);
      }
      return NotWritten;
    }
    ghost var descended := w.Held();
    if Willing(naming, store, base) {
      BasePlain(naming, store, base);
    }
    r := Finish(w, naming, store, top, base, changes, at, g.entries, es, below);
    Onward(old(w.Held()), descended, w.Held());
  }

  /** Writes the tree of a directory whose files and directories have been, or nothing where none of
      it is left. */
  method Finish(w: ObjectsWritten, naming: Naming, store: Store, ghost top: ID, ghost base: ID, ghost changes: seq<Change>,
                at: nat, ghost es: map<string, Entry>, entries: map<string, Entry>, ghost below: seq<Dir>)
    returns (r: Rewritten)
    requires Ground(w.hash, store, top) && w.Fits(store, top) && EntriesSourced(store, top, w.Held(), entries)
    requires MadeHere(w.hash, changes, at, EntriesOf(store, base), es) && Grouped(changes, at, below)
    requires RewroteAll(w.hash, store + w.Held(), store, es, entries, below, at)
    requires DirsLegal(naming, below, at) && (Willing(naming, store, base) ==> Plain(entries))
    requires base == ZERO || FromTop(store, top, base)
    modifies w
    ensures w.Valid() && Addressed(w.hash, w.Held()) && Sourced(store, top, w.Held()) && Extends(old(w.Held()), w.Held())
    ensures at > 0 || r.NotWritten? ==> NoneEmpty(w.Held())
    ensures r.Wrote? ==> NoneEmptyBut(w.Held(), r.id)
    ensures r.Wrote? ==> WroteBelow(w.hash, w.Held(), r.id, store, base, changes, at)
    ensures r.Wrote? ==> LegalChanges(naming, changes, at)
    ensures r.NotWritten? && Willing(naming, store, base) ==> !LegalChanges(naming, changes, at)
  {
    hide Willing, LegalChanges, DirsLegal, Plain, AllLegal, FromTop, ObjectsWritten.Valid, Sourced, NoneEmpty, NoneEmptyBut, CollisionFree, Closed, Extends, Addressed, EntriesSourced, RewroteAll, Ground, MadeHere, Grouped, WroteBelow, EntriesOf;
    ghost var held := w.Held();
    Itself(held);
    NoZero(w.hash, store, top);
    NoZeroHeld(w.hash, store, top, held);
    OwnNames(store, top, held, entries);
    if entries == map[] && at > 0 {
      NoneIllegal(naming);
      LegalWritten(naming, w.hash, store + held, store, base, changes, at, es, entries, below);
      NothingLeft(store, held);
      OnlyEmpty(held, ZERO, Tree([]));
      Finishes(w.hash, store, top, base, changes, at, es, entries, below, held, held, ZERO);
      return Wrote(ZERO);
    }
    var ok, o := EncodeTree(naming, entries);
    if !ok {
      if Willing(naming, store, base) && LegalChanges(naming, changes, at) {
        StaysLegal(naming, w.hash, store, top, base, changes, at, es, entries, below, held);
      }
      return NotWritten;
    }
    LegalWritten(naming, w.hash, store + held, store, base, changes, at, es, entries, below);
    WroteTree(w.hash, store, top, held, o, entries);
    var id := w.Add(o);
    NamesSomething(w.hash, o);
    TreeHeld(w.hash, store, held, o);
    Finishes(w.hash, store, top, base, changes, at, es, entries, below, held, w.Held(), id);
    OnlyEmpty(held, id, o);
    return Wrote(id);
  }

  lemma NoneIllegal(naming: Naming)
    ensures AllLegal(naming, map[])
  {}

  lemma NoZeroHeld(hash: Hash, store: Store, top: ID, held: Store)
    requires Ground(hash, store, top) && Addressed(hash, held) && Sourced(store, top, held)
    ensures ZERO !in store + held
  {
    hide Sourced, Addressed, Ground, Closed, Agree, Extends;
    GroundAgrees(hash, store, top, held);
  }

  lemma BasePlain(naming: Naming, store: Store, base: ID)
    requires Willing(naming, store, base) && ZERO !in store
    ensures AllLegal(naming, EntriesOf(store, base)) && Plain(EntriesOf(store, base))
    ensures forall m | m in EntriesOf(store, base) :: EntriesOf(store, base)[m].name == m
  {
    hide LegalEntry;
    forall n | n in EntriesOf(store, base)
      ensures LegalEntry(naming, EntriesOf(store, base)[n]) && EntriesOf(store, base)[n].name == n && '/' !in n
    {
      ByNameHolds(store[base].entries, n);
      NoSlash(naming, EntriesOf(store, base)[n]);
    }
  }

  /** What is written of a willing store with legal changes is legal: its entries name objects, and by legal names. */
  lemma StaysLegal(naming: Naming, hash: Hash, store: Store, top: ID, base: ID, changes: seq<Change>, at: nat, es: map<string, Entry>, es': map<string, Entry>,
                   below: seq<Dir>, held: Store)
    requires Ground(hash, store, top) && Addressed(hash, held) && Sourced(store, top, held) && EntriesSourced(store, top, held, es')
    requires MadeHere(hash, changes, at, EntriesOf(store, base), es) && Grouped(changes, at, below)
    requires RewroteAll(hash, store + held, store, es, es', below, at)
    requires Willing(naming, store, base) && Plain(es') && LegalChanges(naming, changes, at)
    ensures AllLegal(naming, es')
  {
    hide Ground, Sourced, Addressed, EntriesSourced, MadeHere, Grouped, RewroteAll, EntriesOf, LegalChanges, LegalEntry, Willing;
    NoZero(hash, store, top);
    NoZeroHeld(hash, store, top, held);
    BasePlain(naming, store, base);
    OwnNames(store, top, held, es');
    forall n | n in es'
      ensures LegalEntry(naming, es'[n])
    {
      NamesObject(naming, hash, store, top, base, changes, at, es, es', below, held, n);
      LegalStays(naming, hash, store + held, store, base, changes, at, es, es', below, n);
    }
  }

  /** An entry names an object written or held; a submodule's was there before, and legal. */
  lemma NamesObject(naming: Naming, hash: Hash, store: Store, top: ID, base: ID, changes: seq<Change>, at: nat, es: map<string, Entry>, es': map<string, Entry>,
                    below: seq<Dir>, held: Store, n: string)
    requires Ground(hash, store, top) && ZERO !in store + held && EntriesSourced(store, top, held, es')
    requires MadeHere(hash, changes, at, EntriesOf(store, base), es) && RewroteAll(hash, store + held, store, es, es', below, at)
    requires AllLegal(naming, EntriesOf(store, base)) && n in es' && '/' !in n
    ensures es'[n].id != ZERO
  {
    hide Ground, MadeHere, EntriesOf, LegalName, Means, Applies, Tail, Closed, CollisionFree;
    if es'[n].mode != Submodule {
      if es'[n].id !in held {
        TopHeld(hash, store, top, es'[n].id);
      }
    } else {
      ThereMade(hash, changes, at, EntriesOf(store, base), es, n);
      NoDirectory(hash, store + held, store, es, es', below, at, n);
      assert Same(es, es', n);
      SubmoduleThere(hash, changes, at, EntriesOf(store, base), es, n);
      assert LegalEntry(naming, EntriesOf(store, base)[n]);
    }
  }

  lemma NoDirectory(hash: Hash, now: Store, store: Store, es: map<string, Entry>, es': map<string, Entry>, below: seq<Dir>, at: nat, n: string)
    requires RewroteAll(hash, now, store, es, es', below, at) && n in es' && es'[n].mode != Directory
    ensures !Among(below, n)
  {
    hide Means, Applies, Same;
    forall d | d in below
      ensures d.name != n
    {
      assert Rewrote(hash, now, store, es, es', d, at);
    }
  }

  lemma SubmoduleThere(hash: Hash, changes: seq<Change>, at: nat, es0: map<string, Entry>, es: map<string, Entry>, n: string)
    requires MadeAt(hash, changes, at, es0, es, n) && n in es && es[n].mode == Submodule
    ensures n in es0 && es0[n] == es[n]
  {
    hide Tail;
  }

  lemma TopHeld(hash: Hash, store: Store, top: ID, x: ID)
    requires Ground(hash, store, top) && FromTop(store, top, x)
    ensures x in store
  {
    hide CollisionFree, Reaches;
    ClosedHolds(store, top, x);
  }

  lemma NothingThere(store: Store, changes: seq<Change>, at: nat)
    requires ZERO !in store && exists c | c in changes :: c.text.None?
    ensures !Applies(store, ZERO, changes, at)
  {
    hide Lookup, DirAt, TakenAbove, Tail;
    var c :| c in changes && c.text.None?;
    LookupNothing(store, Tail(c, at));
  }

  lemma NotWilling(naming: Naming, store: Store, base: ID)
    ensures base != ZERO && !IsTree(store, base) ==> !Willing(naming, store, base)
  {}

  lemma NamesSomething(hash: Hash, o: Object)
    requires CollisionFree(hash)
    ensures hash(o) != ZERO
  {}

  lemma Itself(held: Store)
    ensures Extends(held, held)
  {}

  lemma Onward(a: Store, b: Store, c: Store)
    requires Extends(a, b) && Extends(b, c)
    ensures Extends(a, c)
  {}

  lemma NoZero(hash: Hash, store: Store, top: ID)
    requires Ground(hash, store, top)
    ensures ZERO !in store && CollisionFree(hash) && Closed(store)
  {}

  lemma OwnNames(store: Store, top: ID, held: Store, es: map<string, Entry>)
    requires EntriesSourced(store, top, held, es)
    ensures forall n | n in es :: es[n].name == n
  {}

  lemma NothingLeft(store: Store, held: Store)
    ensures ZERO !in store + held ==> EntriesOf(store + held, ZERO) == map[]
  {}

  lemma TreeHeld(hash: Hash, store: Store, held: Store, o: Object)
    requires o.Tree?
    ensures EntriesOf(store + held[hash(o) := o], hash(o)) == ByName(o.entries)
  {}

  lemma OnlyEmpty(held: Store, id: ID, o: Object)
    requires NoneEmpty(held)
    ensures NoneEmptyBut(held[id := o], id) && NoneEmptyBut(held, id)
    ensures o != Tree([]) ==> NoneEmpty(held[id := o])
  {}

  /** Sorted, the directories gathered are what rewriting them takes. */
  lemma SortedBelow(hash: Hash, store: Store, top: ID, base: ID, changes: seq<Change>, at: nat, bound: nat, es: map<string, Entry>, below: seq<Dir>)
    requires Gathering(changes, at, |changes|, below) && MadeHere(hash, changes, at, EntriesOf(store, base), es)
    requires (base == ZERO || FromTop(store, top, base)) && ZERO !in store
    requires forall c | c in changes :: |c.path| <= bound
    ensures Grouped(changes, at, Sort(NameOf, below)) && BelowGiven(store, top, es, Sort(NameOf, below), at, bound)
  {
    hide Below, InGroup, FromTop, EntriesOf, MadeHere, Deeper, Name, Typed;
    assert changes[..|changes|] == changes;
    var sorted := Sort(NameOf, below);
    SortOrders(NameOf, below);
    InOrderDistinct(sorted);
    forall d: Dir
      ensures d in sorted <==> d in below
    {
      SortHolds(NameOf, below, d);
    }
    forall d | d in sorted && d.name in es && es[d.name].mode == Directory
      ensures FromTop(store, top, es[d.name].id) && (Typed(store) ==> IsTree(store, es[d.name].id))
    {
      DirFromTop(hash, store, top, base, changes, at, es, d.name);
    }
    forall d | d in sorted
      ensures GroupOf(changes, at, d)
    {
      assert d in below;
    }
  }

  lemma InOrderDistinct(below: seq<Dir>)
    requires InOrder(NameOf, below)
    ensures DistinctKeys(NameOf, below)
  {
    forall i, j | 0 <= i < j < |below|
      ensures NameOf(below[i]) != NameOf(below[j])
    {
      assert Less(NameOf(below[i]), NameOf(below[j]));
      LessIrreflexive(NameOf(below[i]));
    }
  }

  /** The parts of one directory, put together in what was written. */
  lemma Finishes(hash: Hash, store: Store, top: ID, base: ID, changes: seq<Change>, at: nat, es: map<string, Entry>, es': map<string, Entry>,
                 below: seq<Dir>, held: Store, held': Store, id: ID)
    requires Ground(hash, store, top) && Addressed(hash, held) && Sourced(store, top, held) && Addressed(hash, held') && Sourced(store, top, held')
    requires Extends(held, held') && EntriesSourced(store, top, held, es')
    requires MadeHere(hash, changes, at, EntriesOf(store, base), es) && Grouped(changes, at, below)
    requires RewroteAll(hash, store + held, store, es, es', below, at)
    requires ZERO !in store + held' ==> EntriesOf(store + held', id) == es'
    requires (id == ZERO ==> at > 0) && (id != ZERO ==> id in held' && held'[id].Tree?)
    ensures WroteBelow(hash, held', id, store, base, changes, at)
  {
    hide Ground, Sourced, Addressed, EntriesSourced, MadeHere, Grouped, RewroteAll, EntriesOf, Means, Applies, Extends, Agree, Closed, DirsHeld;
    NoZero(hash, store, top);
    GroundAgrees(hash, store, top, held);
    GroundAgrees(hash, store, top, held');
    OverExtends(store, held, held');
    SourcedHeld(hash, store, top, held, es');
    RewroteAllMono(hash, store + held, store + held', store, es, es', below, at);
    Composes(hash, store + held', id, store, base, changes, at, es, below);
    ComposesApplies(hash, store + held', id, store, base, changes, at, es, below);
  }

  // ---- The whole tree ----

  /** What a commit made from files promises of the tree it writes, given the parent's. */
  ghost predicate Committed(hash: Hash, store: Store, base: ID, changes: seq<Change>, held: Store, root: ID) {
    && Means(hash, store + held, root, store, base, changes, 0)
    && Applies(store, base, changes, 0) && RemovedWereThere(store, base, changes, 0)
    && (forall x | Reaches(Everything, store + held, root, x) :: x in held || FromTop(store, base, x))
    && NoneEmptyBut(held, root)
    && Extends(store, store + held) && Closed(store + held) && IsTree(store + held, root)
  }

  lemma ReachesWritten(hash: Hash, store: Store, top: ID, held: Store, root: ID, x: ID)
    requires Ground(hash, store, top) && Addressed(hash, held) && Sourced(store, top, held) && root in held
    requires Reaches(Everything, store + held, root, x)
    ensures x in held || FromTop(store, top, x)
  {
    hide Reaches;
    GroundAgrees(hash, store, top, held);
    var s := iset y | y in held || FromTop(store, top, y);
    forall y, z | y in s && Step(Everything, store + held, y, z)
      ensures z in s
    {
      if y !in held {
        ReachStep(Everything, store, top, y, z);
      }
    }
    Confined(Everything, store + held, s, root, x);
  }

  function LongestPath(changes: seq<Change>): (n: nat)
    ensures forall c | c in changes :: |c.path| <= n
  {
    if changes == [] then 0
    else
      var n := LongestPath(changes[1..]);
      assert changes == [changes[0]] + changes[1..];
      if |changes[0].path| > n then |changes[0].path| else n
  }

  lemma SortedAll(changes: seq<Change>)
    requires DistinctKeys(PathOf, changes) && forall c | c in changes :: GoodTail(c.path)
    ensures Below(Sort(PathOf, changes), 0) && forall c :: c in Sort(PathOf, changes) <==> c in changes
  {
    SortOrders(PathOf, changes);
    forall c: Change
      ensures c in Sort(PathOf, changes) <==> c in changes
    {
      SortHolds(PathOf, changes, c);
    }
    assert forall c: Change :: Tail(c, 0) == c.path;
  }

  lemma NothingWritten(hash: Hash, store: Store, top: ID, held: Store)
    requires held == map[]
    ensures Addressed(hash, held) && Sourced(store, top, held) && NoneEmpty(held)
  {}

  lemma SameMeaning(hash: Hash, now: Store, id: ID, store: Store, base: ID, changes: seq<Change>, sorted: seq<Change>, at: nat)
    requires Means(hash, now, id, store, base, sorted, at) && forall c :: c in sorted <==> c in changes
    ensures Means(hash, now, id, store, base, changes, at)
  {
    hide Lookup, Tail;
    forall path: string
      ensures MeansAt(hash, now, id, store, base, changes, at, path)
    {
      assert MeansAt(hash, now, id, store, base, sorted, at, path);
    }
  }

  lemma SameApplies(store: Store, base: ID, changes: seq<Change>, sorted: seq<Change>)
    requires forall c :: c in sorted <==> c in changes
    ensures Applies(store, base, changes, 0) <==> Applies(store, base, sorted, 0)
  {
    hide Lookup, DirAt, Tail;
    forall path: string
      ensures TakenAbove(store, base, changes, 0, path) <==> TakenAbove(store, base, sorted, 0, path)
    {
      assert forall p: string :: Taken(store, base, changes, 0, p) <==> Taken(store, base, sorted, 0, p);
    }
  }

  lemma CommitsAll(hash: Hash, store: Store, base: ID, changes: seq<Change>, sorted: seq<Change>, held: Store, root: ID)
    requires Ground(hash, store, base) && Addressed(hash, held) && Sourced(store, base, held)
    requires forall c :: c in sorted <==> c in changes
    requires WroteBelow(hash, held, root, store, base, sorted, 0)
    requires NoneEmptyBut(held, root)
    ensures Committed(hash, store, base, changes, held, root)
  {
    hide Ground, Sourced, Addressed, Means, Reaches, FromTop, Closed, Extends;
    GroundAgrees(hash, store, base, held);
    SameMeaning(hash, store + held, root, store, base, changes, sorted, 0);
    SameApplies(store, base, changes, sorted);
    AppliesRemoved(store, base, changes, 0);
    forall x | Reaches(Everything, store + held, root, x)
      ensures x in held || FromTop(store, base, x)
    {
      ReachesWritten(hash, store, base, held, root, x);
    }
  }

  /** Rewrites the parent's tree, ZERO where there is none, with the changes applied to it. */
  method RewriteTree(w: ObjectsWritten, naming: Naming, store: Store, base: ID, changes: seq<Change>)
    returns (r: Rewritten)
    requires Ground(w.hash, store, base) && w.Valid() && w.objects == []
    requires DistinctKeys(PathOf, changes) && forall c | c in changes :: GoodTail(c.path)
    modifies w
    ensures w.Valid() && (r.Wrote? ==> Committed(w.hash, store, base, changes, w.Held(), r.id))
    ensures r.Wrote? ==> LegalChanges(naming, changes, 0)
    ensures Willing(naming, store, base) ==> (r.Wrote? <==> Applies(store, base, changes, 0) && LegalChanges(naming, changes, 0))
  {
    hide Willing, Bad, LegalPath, Below, Ground, WroteBelow, Reaches;
    var sorted := Sort(PathOf, changes);
    SortedAll(changes);
    NothingWritten(w.hash, store, base, w.Held());
    if base != ZERO {
      ReachSelf(Everything, store, base);
    }
    ghost var bound := LongestPath(sorted);
    r := RewriteBelow(w, naming, store, base, base, sorted, 0, bound);
    if r.Wrote? {
      CommitsAll(w.hash, store, base, changes, sorted, w.Held(), r.id);
    } else {
      SameApplies(store, base, changes, sorted);
    }
  }
}
