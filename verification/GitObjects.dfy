/** Git's objects as a workflow repository keeps them: a finite map from an object's name to what it
    holds, and what it means for one object to reach another. */
module GitObjects {

  /** An object's name. ZERO is forty zeros, which names nothing. */
  type ID = nat

  const ZERO: ID := 0

  datatype Mode = Directory | File | Executable | Symlink | Submodule

  datatype Entry = Entry(name: string, mode: Mode, id: ID)

  /** `rest` is every header and the message a commit or a tag holds beside what it names. */
  datatype Object =
    | Commit(tree: ID, parents: seq<ID>, rest: string)
    | Tree(entries: seq<Entry>)
    | Blob(data: string)
    | Tag(tagged: ID, rest: string)

  /** A branch or a tag: the commit it points at, ZERO while the branch is unborn, and the annotated
      tag object it names, ZERO where there is none. */
  datatype Ref = Ref(commit: ID, tag: ID, protected: bool)

  type Store = map<ID, Object>

  datatype Error =
    | Missing(id: ID)
    | WrongType(id: ID)
    | TooManyTags

  datatype Outcome = Fine | Failed(error: Error)

  datatype Result<+T> = Ok(value: T) | Err(error: Error)

  /** Which of an object's links are followed: everything it names, a commit's parents alone, what lies
      behind a ref, a commit's parents and what a tag names, or the directories of a tree. */
  datatype Edge = Everything | Parents | Behind | Directories

  function Elems(s: seq<ID>): set<ID> {
    set x | x in s
  }

  /** What the entries of a tree that are files name, a symbolic link among them, and what those that
      are directories do. A submodule's commit belongs to another repository, and is neither. */
  function FileIDs(entries: seq<Entry>): set<ID> {
    set e | e in entries && e.mode != Directory && e.mode != Submodule :: e.id
  }

  function DirectoryIDs(entries: seq<Entry>): set<ID> {
    set e | e in entries && e.mode == Directory :: e.id
  }

  function Links(e: Edge, o: Object): set<ID> {
    match o
    case Commit(tree, parents, _) => if e.Directories? then {} else Elems(parents) + if e.Everything? then {tree} else {}
    case Tree(entries) => if e.Everything? then FileIDs(entries) + DirectoryIDs(entries) else if e.Directories? then DirectoryIDs(entries) else {}
    case Blob(_) => {}
    case Tag(tagged, _) => if e.Parents? || e.Directories? then {} else {tagged}
  }

  ghost predicate Step(e: Edge, store: Store, a: ID, b: ID) {
    a in store && b in Links(e, store[a])
  }

  ghost predicate Path(e: Edge, store: Store, p: seq<ID>) {
    p != [] && forall i | 0 <= i < |p| - 1 :: Step(e, store, p[i], p[i + 1])
  }

  /** b is a, or some chain of links leads from a to it. */
  ghost predicate Reaches(e: Edge, store: Store, a: ID, b: ID) {
    exists p :: Path(e, store, p) && p[0] == a && p[|p| - 1] == b
  }

  ghost predicate FromAny(e: Edge, store: Store, roots: set<ID>, b: ID) {
    exists a :: a in roots && Reaches(e, store, a, b)
  }

  /** Every object held names only objects held. */
  ghost predicate Closed(store: Store) {
    forall id | id in store :: Links(Everything, store[id]) <= store.Keys
  }

  /** What a tree lists as a file is a blob, where it is held. */
  ghost predicate LeavesAreBlobs(store: Store) {
    forall id, x | id in store && store[id].Tree? && x in FileIDs(store[id].entries) && x in store ::
      store[x].Blob?
  }

  predicate IsCommit(store: Store, id: ID) {
    id in store && store[id].Commit?
  }

  predicate IsTree(store: Store, id: ID) {
    id in store && store[id].Tree?
  }

  /** An error tells why something is no tree: it is not there, or is something else. */
  predicate NoTree(store: Store, e: Error) {
    (e.Missing? && e.id !in store) || (e.WrongType? && e.id in store && !store[e.id].Tree?)
  }

  predicate NoCommit(store: Store, e: Error) {
    (e.Missing? && e.id !in store) || (e.WrongType? && e.id in store && !store[e.id].Commit?)
  }

  /** Closed, and every link a walk follows leads to an object of the type it says: a commit's tree is a tree
      and its parents commits, and a directory is a tree. */
  ghost predicate Navigable(store: Store) {
    && Closed(store)
    && (forall id, x | IsTree(store, id) && x in DirectoryIDs(store[id].entries) :: IsTree(store, x))
    && (forall id | IsCommit(store, id) :: IsTree(store, store[id].tree))
    && (forall id, x | IsCommit(store, id) && x in store[id].parents :: IsCommit(store, x))
  }

  /** And a file is a blob. */
  ghost predicate Sound(store: Store) {
    Navigable(store) && LeavesAreBlobs(store)
  }

  /** The two stores hold the same object under every name both hold: a name is a hash. */
  ghost predicate Agree(s: Store, t: Store) {
    forall id | id in s && id in t :: s[id] == t[id]
  }

  ghost predicate Extends(s: Store, t: Store) {
    s.Keys <= t.Keys && Agree(s, t)
  }

  lemma ElemsConcat(s: seq<ID>, t: seq<ID>)
    ensures Elems(s + t) == Elems(s) + Elems(t)
  {}

  lemma ReachSelf(e: Edge, store: Store, a: ID)
    ensures Reaches(e, store, a, a)
  {
    assert Path(e, store, [a]);
  }

  lemma ReachStep(e: Edge, store: Store, a: ID, b: ID, c: ID)
    requires Reaches(e, store, a, b) && Step(e, store, b, c)
    ensures Reaches(e, store, a, c)
  {
    var p :| Path(e, store, p) && p[0] == a && p[|p| - 1] == b;
    var q := p + [c];
    forall i | 0 <= i < |q| - 1
      ensures Step(e, store, q[i], q[i + 1])
    {
      if i < |p| - 1 {
        assert Step(e, store, p[i], p[i + 1]);
      }
    }
    assert Path(e, store, q);
  }

  /** What a walk never leaves: a set holding a and closed under the links holds all a reaches. */
  lemma Confined(e: Edge, store: Store, s: iset<ID>, a: ID, b: ID)
    requires a in s
    requires forall x, y :: x in s && Step(e, store, x, y) ==> y in s
    requires Reaches(e, store, a, b)
    ensures b in s
  {
    var p :| Path(e, store, p) && p[0] == a && p[|p| - 1] == b;
    var i := 0;
    while i < |p| - 1
      invariant 0 <= i < |p|
      invariant p[i] in s
    {
      assert Step(e, store, p[i], p[i + 1]);
      i := i + 1;
    }
  }

  lemma ReachTrans(e: Edge, store: Store, a: ID, b: ID, c: ID)
    requires Reaches(e, store, a, b) && Reaches(e, store, b, c)
    ensures Reaches(e, store, a, c)
  {
    var s := iset x | Reaches(e, store, a, x);
    forall x, y | x in s && Step(e, store, x, y)
      ensures y in s
    {
      ReachStep(e, store, a, x, y);
    }
    Confined(e, store, s, b, c);
  }

  /** Following fewer links, or through a smaller store, reaches no more. */
  lemma ReachMono(e: Edge, f: Edge, s: Store, t: Store, a: ID, b: ID)
    requires Extends(s, t) && (e == f || (e == Parents && f == Behind) || f == Everything)
    requires Reaches(e, s, a, b)
    ensures Reaches(f, t, a, b)
  {
    var r := iset x | Reaches(f, t, a, x);
    forall x, y | x in r && Step(e, s, x, y)
      ensures y in r
    {
      assert Step(f, t, x, y);
      ReachStep(f, t, a, x, y);
    }
    ReachSelf(f, t, a);
    Confined(e, s, r, a, b);
  }

  /** In a closed store, whatever a held object reaches is held. */
  lemma ClosedHolds(store: Store, a: ID, b: ID)
    requires Closed(store) && a in store && Reaches(Everything, store, a, b)
    ensures b in store
  {
    var held := iset x | x in store;
    Confined(Everything, store, held, a, b);
  }
}
