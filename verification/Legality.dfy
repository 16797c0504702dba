/** Which entries a tree may be written with, and which changes need none other. */
module Legality {
  import opened Options
  import opened GitObjects
  import opened Paths
  import opened Trees
  import opened Rewrite

  /** Which names some filesystem takes for `.git`, and which for `.gitmodules`. */
  datatype Naming = Naming(dotGit: string -> bool, dotGitmodules: string -> bool)

  const MAX_NAME_BYTES: nat := 4096

  predicate LegalName(naming: Naming, name: string, mode: Mode) {
    && 0 < |name| <= 4096 && '/' !in name && '\0' !in name && name != "." && name != ".."
    && !naming.dotGit(name)
    && (naming.dotGitmodules(name) ==> mode == File || mode == Executable)
  }

  predicate LegalEntry(naming: Naming, e: Entry) {
    LegalName(naming, e.name, e.mode) && e.id != ZERO
  }

  predicate AllLegal(naming: Naming, es: map<string, Entry>) {
    forall n | n in es :: LegalEntry(naming, es[n])
  }

  /** Every tree held was written with legal entries. */
  ghost predicate TreesLegal(naming: Naming, store: Store) {
    forall id, e | IsTree(store, id) && e in store[id].entries :: LegalEntry(naming, e)
  }

  /** A path a file can be written at: its last name is legal of a file, and those before it of directories. */
  predicate LegalPath(naming: Naming, path: string)
    decreases |path|
  {
    var n := Head(path);
    if |n| < |path| then LegalName(naming, n, Directory) && LegalPath(naming, path[|n| + 1..])
    else LegalName(naming, path, File)
  }

  ghost predicate LegalChanges(naming: Naming, changes: seq<Change>, at: nat) {
    forall c | c in changes && c.text.Some? :: LegalPath(naming, Tail(c, at))
  }

  lemma LegalBelow(naming: Naming, c: Change, at: nat)
    requires Deeper(c, at)
    ensures LegalPath(naming, Tail(c, at)) <==> LegalName(naming, Name(c, at), Directory) && LegalPath(naming, Tail(c, at + |Name(c, at)| + 1))
  {
    TailSplits(c, at);
    assert Tail(c, at)[|Name(c, at)| + 1..] == Tail(c, at + |Name(c, at)| + 1);
  }

  lemma LegalHere(naming: Naming, c: Change, at: nat)
    requires !Deeper(c, at)
    ensures LegalPath(naming, Tail(c, at)) <==> LegalName(naming, Tail(c, at), File)
  {
    HeadIs(Tail(c, at));
  }

  /** The changes below each directory are legal there. */
  ghost predicate DirsLegal(naming: Naming, below: seq<Dir>, at: nat) {
    forall d | d in below :: LegalChanges(naming, d.changes, at + |d.name| + 1)
  }

  /** A file that is written is among the entries written, since no directory is rewritten in its place. */
  lemma FileWritten(hash: Hash, now: Store, store: Store, base: ID, changes: seq<Change>, at: nat,
                    es: map<string, Entry>, es': map<string, Entry>, below: seq<Dir>, c: Change)
    requires MadeHere(hash, changes, at, EntriesOf(store, base), es) && RewroteAll(hash, now, store, es, es', below, at)
    requires c in changes && c.text.Some? && !Deeper(c, at)
    ensures var n := Tail(c, at);
            n in es' && es'[n].name == n && es'[n].mode in {File, Executable}
  {
    hide EntriesOf, Head, Tail, MadeHere, Means, Applies;
    var n := Tail(c, at);
    HeadIs(n);
    assert n == Head(n);
    ThereMade(hash, changes, at, EntriesOf(store, base), es, n);
    assert Made(hash, c.text, EntriesOf(store, base), es, n);
    NotRewritten(hash, now, store, es, es', below, at, n);
    assert Same(es, es', n);
  }

  lemma NotRewritten(hash: Hash, now: Store, store: Store, es: map<string, Entry>, es': map<string, Entry>, below: seq<Dir>, at: nat, n: string)
    requires RewroteAll(hash, now, store, es, es', below, at) && n in es && es[n].mode != Directory
    ensures !Among(below, n)
  {
    hide Means, Applies, Same;
    forall d | d in below
      ensures d.name != n
    {
      assert Rewrote(hash, now, store, es, es', d, at);
    }
  }

  /** And so is the directory a file is written below. */
  lemma DirWritten(hash: Hash, now: Store, store: Store, changes: seq<Change>, at: nat,
                   es: map<string, Entry>, es': map<string, Entry>, below: seq<Dir>, d: Dir, c: Change)
    requires RewroteAll(hash, now, store, es, es', below, at) && ZERO !in now
    requires d in below && c in d.changes && c.text.Some?
    ensures d.name in es' && es'[d.name].mode == Directory
  {
    hide Tail, Lookup, Applies, Same;
    assert Rewrote(hash, now, store, es, es', d, at);
    var rest := Tail(c, at + |d.name| + 1);
    assert MeansAt(hash, now, SubID(es', d.name), store, SubID(es, d.name), d.changes, at + |d.name| + 1, rest);
    LookupNothing(now, rest);
  }

  /** Where what was written is legal, so were the changes. */
  lemma LegalWritten(naming: Naming, hash: Hash, now: Store, store: Store, base: ID, changes: seq<Change>, at: nat,
                     es: map<string, Entry>, es': map<string, Entry>, below: seq<Dir>)
    requires MadeHere(hash, changes, at, EntriesOf(store, base), es) && Grouped(changes, at, below) && ZERO !in now
    requires RewroteAll(hash, now, store, es, es', below, at) && DirsLegal(naming, below, at)
    requires AllLegal(naming, es') && forall n | n in es' :: es'[n].name == n
    ensures LegalChanges(naming, changes, at)
  {
    hide MadeHere, GroupOf, EntriesOf, Head, Tail, RewroteAll, LegalPath, LegalName;
    forall c | c in changes && c.text.Some?
      ensures LegalPath(naming, Tail(c, at))
    {
      if Deeper(c, at) {
        var d :| d in below && d.name == Name(c, at);
        ThisGroup(changes, at, below, d);
        InItsGroup(changes, at, d, c);
        DirWritten(hash, now, store, changes, at, es, es', below, d, c);
        LegalBelow(naming, c, at);
        assert LegalEntry(naming, es'[d.name]);
      } else {
        FileWritten(hash, now, store, base, changes, at, es, es', below, c);
        LegalHere(naming, c, at);
        assert LegalEntry(naming, es'[Tail(c, at)]);
        AsFile(naming, Tail(c, at), es'[Tail(c, at)].mode);
      }
    }
  }

  lemma AsFile(naming: Naming, n: string, mode: Mode)
    requires mode == File || mode == Executable
    ensures LegalName(naming, n, mode) <==> LegalName(naming, n, File)
  {}

  /** Where the parent's tree is legal and so are the changes, what is written is: an entry of it was there, or a
      change wrote it. */
  lemma LegalStays(naming: Naming, hash: Hash, now: Store, store: Store, base: ID, changes: seq<Change>, at: nat,
                   es: map<string, Entry>, es': map<string, Entry>, below: seq<Dir>, n: string)
    requires MadeHere(hash, changes, at, EntriesOf(store, base), es) && Grouped(changes, at, below) && ZERO !in store
    requires RewroteAll(hash, now, store, es, es', below, at) && AllLegal(naming, EntriesOf(store, base))
    requires forall m | m in EntriesOf(store, base) :: EntriesOf(store, base)[m].name == m
    requires '/' !in n && n in es' && es'[n].name == n && es'[n].id != ZERO && LegalChanges(naming, changes, at)
    ensures LegalEntry(naming, es'[n])
  {
    hide MadeHere, GroupOf, EntriesOf, Head, Tail, LegalPath, LegalName, Means, Applies;
    var es0 := EntriesOf(store, base);
    ThereMade(hash, changes, at, es0, es, n);
    if d :| d in below && d.name == n {
      assert Rewrote(hash, now, store, es, es', d, at);
      ThisGroup(changes, at, below, d);
      NewDirectory(hash, store, changes, at, es0, es, d);
      if n in es {
        assert LegalEntry(naming, es0[n]);
        OwnName(naming, es0, es, es', n);
      } else {
        var c := AnyWritten(store, changes, at, d);
        LegalBelow(naming, c, at);
      }
    } else {
      assert !Among(below, n) && Same(es, es', n);
      if c :| c in changes && Tail(c, at) == n {
        assert Made(hash, c.text, es0, es, n);
        FileHere(c, at, n);
        LegalHere(naming, c, at);
        AsFile(naming, n, es'[n].mode);
      } else {
        assert Same(es0, es, n) && LegalEntry(naming, es0[n]);
      }
    }
  }

  lemma FileHere(c: Change, at: nat, n: string)
    requires Tail(c, at) == n && '/' !in n
    ensures !Deeper(c, at)
  {
    HeadIs(n);
  }

  /** A directory among the entries once the files are changed is the parent's own. */
  lemma NewDirectory(hash: Hash, store: Store, changes: seq<Change>, at: nat, es0: map<string, Entry>, es: map<string, Entry>, d: Dir)
    requires MadeAt(hash, changes, at, es0, es, d.name) && (d.name in es ==> es[d.name].mode == Directory)
    ensures d.name in es ==> d.name in es0 && es0[d.name] == es[d.name]
  {
    hide Tail;
  }

  lemma OwnName(naming: Naming, es0: map<string, Entry>, es: map<string, Entry>, es': map<string, Entry>, n: string)
    requires n in es0 && n in es && n in es' && es0[n] == es[n] && LegalEntry(naming, es0[n])
    requires es[n].mode == Directory == es'[n].mode && es'[n].name == n && es'[n].id != ZERO
    ensures es0[n].name == n ==> LegalEntry(naming, es'[n])
  {}

  /** Below a directory that was not there, every change that can be made writes a file. */
  lemma AnyWritten(store: Store, changes: seq<Change>, at: nat, d: Dir) returns (c: Change)
    requires GroupOf(changes, at, d) && Applies(store, ZERO, d.changes, at + |d.name| + 1) && ZERO !in store
    ensures c in changes && c.text.Some? && Deeper(c, at) && Name(c, at) == d.name
  {
    hide Tail, Lookup, DirAt, TakenAbove, Head;
    c := d.changes[0];
    LookupNothing(store, Tail(c, at + |d.name| + 1));
    assert !Bad(store, ZERO, d.changes, at + |d.name| + 1, c);
  }
}
