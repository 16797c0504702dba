/** A commit made from files: a push of what it writes, that is whole and moves its branch forward. */
module FileCommits {
  import opened GitObjects
  import opened FetchWalk
  import opened Walks
  import opened Paths
  import opened Trees
  import opened Rewrite
  import opened Legality
  import opened Commits
  import opened Push
  import opened PushRuns
  import PathsNamed

  datatype Why = NoMessage | NoFiles | TooManyPaths | ParentNeeded | HasMoved | NoStart | NoSuchCommit | TreeRefused

  /** What the installation holds a commit to: which messages are blank, and how many paths a tree may list. */
  datatype Rules = Rules(blank: string -> bool, most: nat)

  datatype Made = Made(command: Command, pack: Store, listed: seq<ID>) | NotMade(why: Why)

  function BaseOf(store: Store, parent: ID): ID {
    if parent in store && store[parent].Commit? then store[parent].tree else ZERO
  }

  ghost predicate AnyBorn(refs: Refs) {
    exists name :: name in refs && Target(refs[name]) != ZERO
  }

  /** What a commit made pushes: one commit that follows its parent, over a tree that means the parent's
      with the changes made, all it names in its git pack or the repository. */
  ghost predicate Follows(hash: Hash, r: Repository, branch: string, parent: ID, changes: seq<Change>, c: Command, pack: Store) {
    && c.ref == Branch(branch) && c.before == Now(r.refs, c.ref) && (c.before != ZERO ==> c.before == parent)
    && c.after != ZERO && c.after in pack && pack[c.after].Commit?
    && pack[c.after].parents == (if parent == ZERO then [] else [parent])
    && (if parent == ZERO then !AnyBorn(r.refs) else IsCommit(r.store, parent))
    && Means(hash, r.store + pack, pack[c.after].tree, r.store, BaseOf(r.store, parent), changes, 0)
    && Applies(r.store, BaseOf(r.store, parent), changes, 0)
    && Agree(pack, r.store) && Connected(pack, r.store, {c.after}) && Closed(r.store + pack)
  }

  /** How many paths a tree that holds the files written lists, with the directories above them. */
  ghost function Listing(changes: seq<Change>): nat {
    var written := PathsNamed.Written(changes);
    |written| + |PathsNamed.Directories(written)|
  }

  /** Why no commit is made. */
  ghost predicate Excuses(naming: Naming, rules: Rules, r: Repository, branch: string, parent: ID, message: string, changes: seq<Change>, why: Why) {
    var head := Now(r.refs, Branch(branch));
    match why
    case NoMessage => rules.blank(message)
    case NoFiles => changes == []
    case TooManyPaths => Listing(changes) > rules.most
    case ParentNeeded => head != ZERO && parent == ZERO
    case HasMoved => head != ZERO && parent != ZERO && parent != head
    case NoStart => head == ZERO && parent == ZERO && AnyBorn(r.refs)
    case NoSuchCommit => parent != ZERO && !IsCommit(r.store, parent)
    case TreeRefused => Willing(naming, r.store, BaseOf(r.store, parent)) ==> !Doable(naming, r.store, BaseOf(r.store, parent), changes, 0)
  }

  /** The tree of the commit made. */
  function RootOf(made: Made): ID {
    if made.Made? && made.command.after in made.pack && made.pack[made.command.after].Commit? then made.pack[made.command.after].tree else ZERO
  }

  lemma GroundHere(hash: Hash, store: Store, parent: ID)
    requires CollisionFree(hash) && Addressed(hash, store) && Closed(store)
    requires parent == ZERO || IsCommit(store, parent)
    ensures Ground(hash, store, BaseOf(store, parent))
  {
    assert ZERO !in store;
    if parent != ZERO {
      assert BaseOf(store, parent) in Links(Everything, store[parent]);
    }
  }

  lemma {:induction false} Listed(hash: Hash, objects: seq<Object>)
    ensures |Hashes(hash, objects)| == |objects|
    ensures forall i | 0 <= i < |objects| :: Hashes(hash, objects)[i] == hash(objects[i])
  {
    if objects != [] {
      Listed(hash, objects[..|objects| - 1]);
    }
  }

  function Hashes(hash: Hash, objects: seq<Object>): seq<ID> {
    if objects == [] then [] else Hashes(hash, objects[..|objects| - 1]) + [hash(objects[|objects| - 1])]
  }

  lemma ListedAll(w: ObjectsWritten)
    requires w.Valid()
    ensures Elems(Hashes(w.hash, w.objects)) == w.Held().Keys
  {
    Listed(w.hash, w.objects);
    forall id | id in w.at
      ensures id in Hashes(w.hash, w.objects)
    {
      assert Hashes(w.hash, w.objects)[w.at[id]] == id;
    }
  }

  /** The commit over what a rewrite wrote. */
  lemma CommitFollows(hash: Hash, r: Repository, branch: string, parent: ID, changes: seq<Change>, held: Store, o: Object, c: Command)
    requires CollisionFree(hash) && Addressed(hash, r.store) && Addressed(hash, held) && Closed(r.store)
    requires o.Commit? && o.parents == (if parent == ZERO then [] else [parent])
    requires if parent == ZERO then !AnyBorn(r.refs) else IsCommit(r.store, parent)
    requires Committed(hash, r.store, BaseOf(r.store, parent), changes, held, o.tree)
    requires c.ref == Branch(branch) && c.before == Now(r.refs, c.ref) && (c.before != ZERO ==> c.before == parent)
    requires c.after == hash(o)
    ensures Follows(hash, r, branch, parent, changes, c, held[hash(o) := o])
  {
    hide Means, Applies, AnyBorn, Reaches, Now;
    var pack := held[hash(o) := o];
    HashesAgree(hash, r.store, held, o);
    assert o.tree in r.store + held && Links(Everything, o) <= (r.store + held).Keys;
    MeansMono(hash, r.store + held, r.store + pack, o.tree, r.store, BaseOf(r.store, parent), changes, 0);
    ConnectedOver(r.store, held, hash(o), o);
  }

  lemma HashesAgree(hash: Hash, store: Store, held: Store, o: Object)
    requires CollisionFree(hash) && Addressed(hash, store) && Addressed(hash, held)
    ensures var pack := held[hash(o) := o];
            Agree(pack, store) && Extends(store + held, store + pack) && hash(o) != ZERO && ZERO !in store + pack
  {
    forall id | id in held[hash(o) := o] && id in store
      ensures held[hash(o) := o][id] == store[id]
    {
      assert hash(held[hash(o) := o][id]) == hash(store[id]);
    }
  }

  lemma ConnectedOver(store: Store, held: Store, id: ID, o: Object)
    requires Closed(store + held) && Links(Everything, o) <= (store + held).Keys
    requires Agree(held[id := o], store) && Extends(store + held, store + held[id := o])
    ensures Connected(held[id := o], store, {id}) && Closed(store + held[id := o])
  {
    hide Links;
    var pack := held[id := o];
    forall x | x in store + pack
      ensures Links(Everything, (store + pack)[x]) <= pack.Keys + store.Keys
    {
      if x != id {
        assert x in store + held;
      }
    }
    forall x | x in pack
      ensures Links(Everything, pack[x]) <= pack.Keys + store.Keys
    {
      assert (store + pack)[x] == pack[x];
    }
  }

  /** Whether any ref of the repository names a commit. */
  method HasCommits(refs: Refs) returns (born: bool)
    ensures born <==> AnyBorn(refs)
  {
    var left := refs.Keys;
    while left != {}
      invariant left <= refs.Keys
      invariant forall name | name in refs && name !in left :: Target(refs[name]) == ZERO
    {
      var name :| name in left;
      if Target(refs[name]) != ZERO {
        return true;
      }
      left := left - {name};
    }
    return false;
  }

  /** Makes the commit of some files on a branch: over the commit the files were read at, which is where the
      branch points where it points anywhere, and over nothing only in a repository of no commits. */
  method MakeCommit(hash: Hash, naming: Naming, rules: Rules, r: Repository, branch: string, parent: ID, message: string, changes: seq<Change>)
    returns (made: Made)
    requires CollisionFree(hash) && Addressed(hash, r.store) && Closed(r.store)
    requires DistinctKeys(PathOf, changes) && forall c | c in changes :: GoodTail(c.path)
    ensures made.Made? ==> Follows(hash, r, branch, parent, changes, made.command, made.pack) && Elems(made.listed) == made.pack.Keys
    ensures made.Made? ==> made.command.after in made.pack && made.pack[made.command.after] == Commit(RootOf(made), if parent == ZERO then [] else [parent], message)
    ensures made.Made? ==> !rules.blank(message) && changes != [] && Listing(changes) <= rules.most
    ensures made.NotMade? ==> Excuses(naming, rules, r, branch, parent, message, changes, made.why)
  {
    hide CollisionFree, Addressed, Closed, Ground, Committed, Follows, Willing, Applies, LegalChanges, AnyBorn, DistinctKeys, GoodTail, ObjectsWritten.Valid;
    if rules.blank(message) {
      return NotMade(NoMessage);
    }
    if changes == [] {
      return NotMade(NoFiles);
    }
    var paths := PathsNamed.PathsNamed(changes);
    if paths > rules.most {
      return NotMade(TooManyPaths);
    }
    var head := Now(r.refs, Branch(branch));
    var born := HasCommits(r.refs);
    if head != ZERO && parent == ZERO {
      return NotMade(ParentNeeded);
    }
    if head != ZERO && parent != head {
      return NotMade(HasMoved);
    }
    if head == ZERO && parent == ZERO && born {
      return NotMade(NoStart);
    }
    if parent != ZERO && !IsCommit(r.store, parent) {
      return NotMade(NoSuchCommit);
    }
    BornFrom(r.refs, branch);
    GroundHere(hash, r.store, parent);
    var base := if parent == ZERO then ZERO else r.store[parent].tree;
    NoBase(hash, r.store);
    assert base == BaseOf(r.store, parent);
    var w := new ObjectsWritten(hash);
    var root := RewriteTree(w, naming, r.store, base, changes);
    if root.NotWritten? {
      return NotMade(TreeRefused);
    }
    var o := Commit(root.id, if parent == ZERO then [] else [parent], message);
    ghost var held := w.Held();
    Written(w);
    var id := w.Add(o);
    var before := if head != ZERO then parent else ZERO;
    var c := Command(Branch(branch), before, id, ZERO, false, false);
    CommitFollows(hash, r, branch, parent, changes, held, o, c);
    var listed := Hashes(hash, w.objects);
    ListedAll(w);
    var pack := PackOf(w);
    return Made(c, pack, listed);
  }

  /** The objects written, by their names. */
  method PackOf(w: ObjectsWritten) returns (pack: Store)
    requires w.Valid()
    ensures pack == w.Held()
  {
    return map id | id in w.at :: w.objects[w.at[id]];
  }

  lemma Written(w: ObjectsWritten)
    requires w.Valid()
    ensures Addressed(w.hash, w.Held())
  {}

  lemma NoBase(hash: Hash, store: Store)
    requires CollisionFree(hash) && Addressed(hash, store)
    ensures ZERO !in store
  {}

  lemma BornFrom(refs: Refs, branch: string)
    ensures Now(refs, Branch(branch)) != ZERO ==> AnyBorn(refs)
  {}

  /** A commit made moves its branch forward. */
  lemma MovesForward(hash: Hash, r: Repository, branch: string, parent: ID, changes: seq<Change>, c: Command, pack: Store, manages: bool)
    requires Follows(hash, r, branch, parent, changes, c, pack)
    ensures manages || !Protected(r.refs, c.ref) ==> Forward(r.refs, r.store + pack, manages, c)
    ensures c.before != ZERO ==> Reaches(Parents, r.store + pack, c.after, c.before)
  {
    hide Means, Applies, AnyBorn, Reaches, Closed, Connected;
    var objects := r.store + pack;
    if c.before != ZERO {
      assert parent in objects[c.after].parents;
      ReachSelf(Parents, objects, c.after);
      ReachStep(Parents, objects, c.after, c.after, parent);
    }
  }

  /** So judging the push of it lets it by, whoever makes it and however long the history behind it: but for one
      to a protected branch, without grant:manage. */
  method AlwaysLet(ghost hash: Hash, r: Repository, ghost branch: string, ghost parent: ID, ghost changes: seq<Change>, c: Command, pack: Store, manages: bool)
    returns (j: Judged)
    requires Follows(hash, r, branch, parent, changes, c, pack)
    ensures if manages || !Protected(r.refs, c.ref)
            then j == Let(c.(commit := c.after, forced := false, unprotected := !Protected(r.refs, c.ref)))
            else j == Not(NeedsManage)
  {
    hide Means, Applies, AnyBorn, Reaches, Closed, Connected, Restricted;
    MovesForward(hash, r, branch, parent, changes, c, pack, manages);
    MovesForward(hash, r, branch, parent, changes, c, pack, true);
    j := JudgeCommand(r.refs, r.head, r.store + pack, manages, c);
  }
}
