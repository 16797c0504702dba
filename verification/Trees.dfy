/** What a tree means: the flat map from paths to files it lays out, and what changing files of it
    should mean. */
module Trees {
  import opened Options
  import opened GitObjects
  import opened Paths

  /** One path a commit writes, or removes where there is no text. */
  datatype Change = Change(path: string, text: Option<string>)

  /** What lies at a path that is no directory. */
  datatype Leaf = Leaf(mode: Mode, id: ID)

  type Hash = Object -> ID

  /** Hashing names every object apart, and none of them nothing. */
  ghost predicate CollisionFree(hash: Hash) {
    (forall o, p | hash(o) == hash(p) :: o == p) && forall o :: hash(o) != ZERO
  }

  /** Every object is held under its hash. */
  ghost predicate Addressed(hash: Hash, store: Store) {
    forall id | id in store :: hash(store[id]) == id
  }

  /** The entries of a tree by their names. */
  function ByName(entries: seq<Entry>): map<string, Entry> {
    if entries == [] then map[]
    else ByName(entries[..|entries| - 1])[entries[|entries| - 1].name := entries[|entries| - 1]]
  }

  lemma {:induction false} ByNameHolds(entries: seq<Entry>, name: string)
    requires name in ByName(entries)
    ensures ByName(entries)[name] in entries && ByName(entries)[name].name == name
  {
    var last := entries[|entries| - 1];
    if name != last.name {
      ByNameHolds(entries[..|entries| - 1], name);
    }
  }

  function EntriesOf(store: Store, id: ID): map<string, Entry> {
    if IsTree(store, id) then ByName(store[id].entries) else map[]
  }

  /** What the tree `id` lays out at a path, and nothing at a directory or where there is no tree. */
  function Lookup(store: Store, id: ID, path: string): Option<Leaf>
    decreases |path|
  {
    var entries, name := EntriesOf(store, id), Head(path);
    if name !in entries then None
    else if |name| < |path| then
      if entries[name].mode == Directory then Lookup(store, entries[name].id, path[|name| + 1..]) else None
    else if entries[name].mode == Directory then None
    else Some(Leaf(entries[name].mode, entries[name].id))
  }

  lemma DirectoryHeld(store: Store, id: ID, name: string)
    requires Closed(store) && name in EntriesOf(store, id) && EntriesOf(store, id)[name].mode == Directory
    ensures EntriesOf(store, id)[name].id in store
  {
    ByNameHolds(store[id].entries, name);
    assert EntriesOf(store, id)[name].id in Links(Everything, store[id]);
  }

  /** A tree held in a closed store lays out the same whatever is added to the store. */
  lemma {:induction false} LookupMono(s: Store, t: Store, id: ID, path: string)
    requires Closed(s) && Extends(s, t) && id in s
    ensures Lookup(t, id, path) == Lookup(s, id, path)
    decreases |path|
  {
    hide Head, ByName, Closed;
    var entries, name := EntriesOf(s, id), Head(path);
    if name in entries && |name| < |path| && entries[name].mode == Directory {
      DirectoryHeld(s, id, name);
      LookupMono(s, t, entries[name].id, path[|name| + 1..]);
    }
  }

  /** What a change leaves at its path, given what was there: a file stays executable. */
  function Leaves(hash: Hash, text: Option<string>, was: Option<Leaf>): Option<Leaf> {
    match text
    case None => None
    case Some(t) =>
      Some(Leaf(if was.Some? && was.value.mode == Executable then Executable else File, hash(Blob(t))))
  }

  /** What a change's path is below the directory `at` bytes of it name. */
  function Tail(c: Change, at: nat): string {
    if at <= |c.path| then c.path[at..] else []
  }

  /** The tree `id` lays out what the tree `base` did with the changes applied. */
  ghost predicate Means(hash: Hash, now: Store, id: ID, store: Store, base: ID, changes: seq<Change>, at: nat) {
    forall path: string :: MeansAt(hash, now, id, store, base, changes, at, path)
  }

  ghost predicate MeansAt(hash: Hash, now: Store, id: ID, store: Store, base: ID, changes: seq<Change>, at: nat, path: string) {
    && (forall c | c in changes && Tail(c, at) == path ::
          Lookup(now, id, path) == Leaves(hash, c.text, Lookup(store, base, path)))
    && ((forall c | c in changes :: Tail(c, at) != path) ==> Lookup(now, id, path) == Lookup(store, base, path))
  }

  /** Every path removed was one the tree `base` lays a file out at. */
  ghost predicate RemovedWereThere(store: Store, base: ID, changes: seq<Change>, at: nat) {
    forall c | c in changes && c.text.None? :: Lookup(store, base, Tail(c, at)).Some?
  }

  /** The tree `id` holds a directory at a path. */
  predicate DirAt(store: Store, id: ID, path: string)
    decreases |path|
  {
    var entries, name := EntriesOf(store, id), Head(path);
    && name in entries && entries[name].mode == Directory
    && (|name| < |path| ==> DirAt(store, entries[name].id, path[|name| + 1..]))
  }

  /** A file lies at a path once the changes of it are made: one they write, or one `base` lays out there
      that they do not remove. */
  ghost predicate Taken(store: Store, base: ID, changes: seq<Change>, at: nat, path: string) {
    || (exists c :: c in changes && Tail(c, at) == path && c.text.Some?)
    || (Lookup(store, base, path).Some? && forall c | c in changes :: Tail(c, at) != path)
  }

  ghost predicate TakenAbove(store: Store, base: ID, changes: seq<Change>, at: nat, path: string) {
    exists k :: 0 <= k < |path| && path[k] == '/' && Taken(store, base, changes, at, path[..k])
  }

  /** A change that cannot be made: its path is a directory's, it removes what is not there, or a file lies
      where its path names a directory. */
  ghost predicate Bad(store: Store, base: ID, changes: seq<Change>, at: nat, c: Change) {
    || DirAt(store, base, Tail(c, at))
    || (c.text.None? && Lookup(store, base, Tail(c, at)).None?)
    || TakenAbove(store, base, changes, at, Tail(c, at))
  }

  ghost predicate Applies(store: Store, base: ID, changes: seq<Change>, at: nat) {
    forall c | c in changes :: !Bad(store, base, changes, at, c)
  }

  lemma AppliesRemoved(store: Store, base: ID, changes: seq<Change>, at: nat)
    requires Applies(store, base, changes, at)
    ensures RemovedWereThere(store, base, changes, at)
  {
    hide Lookup, TakenAbove, DirAt, Tail;
  }

  lemma MeansMono(hash: Hash, now: Store, now': Store, id: ID, store: Store, base: ID, changes: seq<Change>, at: nat)
    requires Means(hash, now, id, store, base, changes, at)
    requires Closed(now) && Extends(now, now') && (id in now || (id == ZERO && ZERO !in now'))
    ensures Means(hash, now', id, store, base, changes, at)
  {
    hide Closed;
    forall path: string
      ensures MeansAt(hash, now', id, store, base, changes, at, path)
    {
      assert MeansAt(hash, now, id, store, base, changes, at, path);
      if id in now {
        LookupMono(now, now', id, path);
      }
    }
  }
}
