/** The walk of a fetch: what it marks as had and what it collects to send, loop by loop. */
module FetchWalk {
  import opened GitObjects

  /** How many tags naming tags are followed. */
  const TAG_DEPTH: nat := 64

  /** What an object peels to through tags, giving up after `fuel` of them. */
  function Peel(store: Store, id: ID, fuel: nat): Result<ID>
    decreases fuel
  {
    if fuel == 0 then Err(TooManyTags)
    else if id !in store then Err(Missing(id))
    else if store[id].Tag? then Peel(store, store[id].tagged, fuel - 1)
    else Ok(id)
  }

  /** A chain of tags, each naming the next; what the last names need not be one. */
  ghost predicate TagChain(store: Store, p: seq<ID>) {
    p != [] && forall i | 0 <= i < |p| - 1 :: p[i] in store && store[p[i]].Tag? && store[p[i]].tagged == p[i + 1]
  }

  /** At most so many tags lead from one object to the other. */
  ghost predicate TagsLead(store: Store, id: ID, x: ID, most: nat) {
    exists p :: TagChain(store, p) && |p| <= most + 1 && p[0] == id && p[|p| - 1] == x
  }

  lemma TagsLeadOn(store: Store, id: ID, x: ID, most: nat)
    ensures TagsLead(store, id, x, most) <==>
            id == x || (most > 0 && id in store && store[id].Tag? && TagsLead(store, store[id].tagged, x, most - 1))
  {
    if id == x {
      assert TagChain(store, [id]);
    }
    if p :| TagChain(store, p) && |p| <= most + 1 && p[0] == id && p[|p| - 1] == x && |p| > 1 {
      var q := p[1..];
      forall i | 0 <= i < |q| - 1
        ensures q[i] in store && store[q[i]].Tag? && store[q[i]].tagged == q[i + 1]
      {
        assert q[i] == p[i + 1];
      }
      assert p[0] in store && store[p[0]].tagged == p[1];
      assert TagChain(store, q) && q[0] == store[id].tagged && q[|q| - 1] == x;
    }
    if most > 0 && id in store && store[id].Tag? && TagsLead(store, store[id].tagged, x, most - 1) {
      var q :| TagChain(store, q) && |q| <= most && q[0] == store[id].tagged && q[|q| - 1] == x;
      var p := [id] + q;
      forall i | 0 <= i < |p| - 1
        ensures p[i] in store && store[p[i]].Tag? && store[p[i]].tagged == p[i + 1]
      {
        assert i > 0 ==> p[i] == q[i - 1];
      }
      assert TagChain(store, p);
    }
  }

  /** Peeling answers an object exactly where fewer than `fuel` tags lead to it, and it is held and no tag. */
  lemma {:induction false} PeelIs(store: Store, id: ID, fuel: nat, x: ID)
    requires fuel > 0
    ensures Peel(store, id, fuel) == Ok(x) <==> x in store && !store[x].Tag? && TagsLead(store, id, x, fuel - 1)
    decreases fuel
  {
    hide TagsLead;
    TagsLeadOn(store, id, x, fuel - 1);
    if id in store && store[id].Tag? && fuel > 1 {
      PeelIs(store, store[id].tagged, fuel - 1, x);
    }
  }

  /** The tags on the way. */
  function TagsOn(store: Store, id: ID, fuel: nat): set<ID>
    decreases fuel
  {
    if fuel == 0 || id !in store || !store[id].Tag? then {} else {id} + TagsOn(store, store[id].tagged, fuel - 1)
  }

  /** They are those that fewer than `fuel` tags lead to. */
  lemma {:induction false} TagsOnAre(store: Store, id: ID, fuel: nat, x: ID)
    requires fuel > 0
    ensures x in TagsOn(store, id, fuel) <==> x in store && store[x].Tag? && TagsLead(store, id, x, fuel - 1)
    decreases fuel
  {
    hide TagsLead;
    TagsLeadOn(store, id, x, fuel - 1);
    if id in store && store[id].Tag? && fuel > 1 {
      TagsOnAre(store, store[id].tagged, fuel - 1, x);
    }
  }

  /** Whatever the objects xs link to is among `into`. */
  ghost predicate Followed(e: Edge, store: Store, xs: set<ID>, into: set<ID>) {
    forall x | x in xs && x in store :: Links(e, store[x]) <= into
  }

  /** Each of xs is reached from one of the roots. */
  ghost predicate Found(e: Edge, store: Store, xs: set<ID>, roots: set<ID>) {
    forall x | x in xs :: FromAny(e, store, roots, x)
  }

  function Commits(store: Store, xs: set<ID>): set<ID> {
    set x | x in xs && IsCommit(store, x)
  }

  function Trees(store: Store, xs: set<ID>): set<ID> {
    set x | x in xs && IsTree(store, x)
  }

  ghost predicate Distinct(s: seq<ID>) {
    forall i, j | 0 <= i < j < |s| :: s[i] != s[j]
  }

  lemma FromSelf(e: Edge, store: Store, roots: set<ID>, a: ID)
    requires a in roots
    ensures FromAny(e, store, roots, a)
  {
    ReachSelf(e, store, a);
  }

  lemma FromStep(e: Edge, store: Store, roots: set<ID>, a: ID, b: ID)
    requires FromAny(e, store, roots, a) && Step(e, store, a, b)
    ensures FromAny(e, store, roots, b)
  {
    var r :| r in roots && Reaches(e, store, r, a);
    ReachStep(e, store, r, a, b);
  }

  lemma FromReach(e: Edge, store: Store, roots: set<ID>, a: ID, b: ID)
    requires FromAny(e, store, roots, a) && Reaches(e, store, a, b)
    ensures FromAny(e, store, roots, b)
  {
    var r :| r in roots && Reaches(e, store, r, a);
    ReachTrans(e, store, r, a, b);
  }

  lemma FromLinks(e: Edge, store: Store, roots: set<ID>, id: ID)
    requires FromAny(e, store, roots, id) && id in store
    ensures Found(e, store, Links(e, store[id]), roots)
  {
    forall y | y in Links(e, store[id])
      ensures FromAny(e, store, roots, y)
    {
      FromStep(e, store, roots, id, y);
    }
  }

  lemma OneMore(entries: seq<Entry>, i: nat)
    requires i < |entries|
    ensures var e := entries[i];
            && FileIDs(entries[..i + 1]) == FileIDs(entries[..i]) + (if e.mode in {Directory, Submodule} then {} else {e.id})
            && DirectoryIDs(entries[..i + 1]) == DirectoryIDs(entries[..i]) + (if e.mode == Directory then {e.id} else {})
  {
    assert entries[..i + 1] == entries[..i] + [entries[i]];
  }

  /** What is reached around some objects, through none of them, is reached. */
  lemma Unpruned(store: Store, avoid: set<ID>, fewer: set<ID>, a: ID, b: ID)
    requires fewer <= avoid && Reaches(Everything, store - avoid, a, b)
    ensures Reaches(Everything, store - fewer, a, b) && Reaches(Everything, store, a, b)
  {
    ReachMono(Everything, Everything, store - avoid, store - fewer, a, b);
    ReachMono(Everything, Everything, store - avoid, store, a, b);
  }

  lemma FoundAround(store: Store, avoid: set<ID>, xs: set<ID>, root: ID)
    requires Found(Everything, store - avoid, xs, {root})
    ensures Found(Everything, store, xs, {root})
  {
    forall x | x in xs
      ensures FromAny(Everything, store, {root}, x)
    {
      assert FromAny(Everything, store - avoid, {root}, x);
      Unpruned(store, avoid, {}, root, x);
    }
  }

  /** x is a tree that directories lead to from the root, or listed as a file by one. */
  ghost predicate Listed(store: Store, root: ID, x: ID) {
    exists t :: Reaches(Directories, store, root, t) && IsTree(store, t) && (x == t || x in FileIDs(store[t].entries))
  }

  ghost predicate AllListed(store: Store, root: ID, xs: set<ID>) {
    forall x | x in xs :: Listed(store, root, x)
  }

  /** Where the marking of a tree stands: `had` was marked before it, and `left` is still to visit. What is
      marked is reached from the root around what was, and through directories. */
  ghost predicate Marking(store: Store, root: ID, had: set<ID>, skip: set<ID>, left: set<ID>) {
    && had <= skip && root in skip + left
    && Found(Everything, store - had, skip - had + left, {root})
    && AllListed(store, root, skip - had) && Found(Directories, store, left, {root})
    && (LeavesAreBlobs(store) ==>
          Followed(Everything, store, skip - had, skip + left) && Commits(store, skip - had) == {})
  }

  lemma MarkingTree(store: Store, root: ID, had: set<ID>, skip: set<ID>, left: set<ID>, id: ID)
    requires Marking(store, root, had, skip, left + {id})
    requires id in store && store[id].Tree? && id !in skip
    ensures Marking(store, root, had, skip + {id} + FileIDs(store[id].entries),
                    left + DirectoryIDs(store[id].entries))
  {
    hide FromAny, Listed;
    FromLinks(Everything, store - had, {root}, id);
    FromLinks(Directories, store, {root}, id);
    ListedThere(store, root, id);
  }

  lemma ListedThere(store: Store, root: ID, id: ID)
    requires FromAny(Directories, store, {root}, id) && IsTree(store, id)
    ensures AllListed(store, root, {id} + FileIDs(store[id].entries))
  {
    hide Reaches;
  }

  lemma MarkingStart(store: Store, root: ID, had: set<ID>)
    ensures Marking(store, root, had, had, {root})
  {
    hide FromAny, Listed;
    FromSelf(Everything, store - had, {root}, root);
    FromSelf(Directories, store, {root}, root);
  }

  lemma MarkingSkips(store: Store, root: ID, had: set<ID>, skip: set<ID>, left: set<ID>, id: ID)
    requires Marking(store, root, had, skip, left + {id}) && id in skip
    ensures Marking(store, root, had, skip, left)
  {
    hide FromAny, Listed;
  }

  /** Something directories lead to from the root is no tree that is held. */
  ghost predicate TreeStops(store: Store, root: ID) {
    exists x :: Reaches(Directories, store, root, x) && !IsTree(store, x)
  }

  lemma MarkingStops(store: Store, root: ID, had: set<ID>, skip: set<ID>, left: set<ID>, id: ID)
    requires Marking(store, root, had, skip, left + {id}) && !IsTree(store, id)
    ensures TreeStops(store, root)
  {
    hide Reaches;
    assert FromAny(Directories, store, {root}, id);
  }

  /** Something behind the root is no commit that is held. */
  ghost predicate HistoryStops(store: Store, root: ID) {
    exists x :: Reaches(Parents, store, root, x) && !IsCommit(store, x)
  }

  lemma TracingStops(store: Store, root: ID, had: set<ID>, skip: set<ID>, left: set<ID>, id: ID)
    requires Tracing(store, root, had, skip, left + {id}) && !IsCommit(store, id)
    ensures HistoryStops(store, root)
  {
    hide Reaches;
    assert FromAny(Parents, store, {root}, id);
  }

  /** Something behind the tips is no commit that is held, or is one whose tree stops. */
  ghost predicate CollectionStops(store: Store, tips: set<ID>) {
    exists n :: FromAny(Parents, store, tips, n) && (!IsCommit(store, n) || TreeStops(store, store[n].tree))
  }

  lemma CollectingStops(store: Store, tips: set<ID>, had: set<ID>, done: set<ID>, left: set<ID>, id: ID)
    requires Collecting(store, tips, had, done, left + {id}) && (!IsCommit(store, id) || TreeStops(store, store[id].tree))
    ensures CollectionStops(store, tips)
  {
    hide FromAny, TreeStops, Took;
    assert FromAny(Parents, store, tips, id);
  }

  /** Where the marking of a history stands. */
  ghost predicate Tracing(store: Store, root: ID, had: set<ID>, skip: set<ID>, left: set<ID>) {
    && had <= skip && root in skip + left
    && Found(Parents, store, skip - had + left, {root})
    && (forall x | x in skip - had :: IsCommit(store, x))
    && Followed(Parents, store, skip - had, skip + left)
  }

  lemma TracingCommit(store: Store, root: ID, had: set<ID>, skip: set<ID>, left: set<ID>, id: ID)
    requires Tracing(store, root, had, skip, left + {id})
    requires id in store && store[id].Commit?
    ensures Tracing(store, root, had, skip + {id}, left + Elems(store[id].parents))
  {
    FromLinks(Parents, store, {root}, id);
  }

  lemma TracingStart(store: Store, root: ID, had: set<ID>)
    ensures Tracing(store, root, had, had, {root})
  {
    FromSelf(Parents, store, {root}, root);
  }

  lemma TracingSkips(store: Store, root: ID, had: set<ID>, skip: set<ID>, left: set<ID>, id: ID)
    requires Tracing(store, root, had, skip, left + {id}) && id in skip
    ensures Tracing(store, root, had, skip, left)
  {}

  lemma NavigableDirs(store: Store, id: ID)
    requires IsTree(store, id)
    ensures Navigable(store) ==> Trees(store, DirectoryIDs(store[id].entries)) == DirectoryIDs(store[id].entries)
  {
    hide Closed;
  }

  lemma NavigableParents(store: Store, id: ID)
    requires IsCommit(store, id)
    ensures Navigable(store) ==> Commits(store, Elems(store[id].parents)) == Elems(store[id].parents)
  {}

  /** x lies under the tree of one of the commits, around what is to be avoided. */
  ghost predicate UnderOne(store: Store, avoid: set<ID>, commits: set<ID>, x: ID) {
    exists n :: n in commits && IsCommit(store, n) && Reaches(Everything, store - avoid, store[n].tree, x)
  }

  ghost predicate ListedByOne(store: Store, tips: set<ID>, x: ID) {
    exists n :: FromAny(Parents, store, tips, n) && IsCommit(store, n) && Listed(store, store[n].tree, x)
  }

  /** What a collection took: a commit behind the tips, or something listed under the tree of one; and what
      is no commit, under the tree of one it took, around what was had. */
  ghost predicate Took(store: Store, tips: set<ID>, had: set<ID>, done: set<ID>) {
    && (forall x | x in done - had :: FromAny(Parents, store, tips, x) || ListedByOne(store, tips, x))
    && (forall x | x in done - had && !IsCommit(store, x) :: UnderOne(store, had, done - had, x))
  }

  /** Where the collection of a history stands: `had` was sent or marked before it, `done` is now. */
  ghost predicate Collecting(store: Store, tips: set<ID>, had: set<ID>, done: set<ID>, left: set<ID>) {
    && had <= done && tips <= done + left
    && Found(Everything, store, done - had, tips)
    && Found(Parents, store, left, tips)
    && Took(store, tips, had, done)
    && (LeavesAreBlobs(store) ==>
          Followed(Everything, store, done - had, done + left) && Found(Parents, store, Commits(store, done - had), tips))
  }

  lemma CollectingCommit(store: Store, tips: set<ID>, had: set<ID>, done: set<ID>, left: set<ID>, id: ID, done': set<ID>)
    requires Collecting(store, tips, had, done, left + {id})
    requires id in store && store[id].Commit? && id !in done
    requires Marking(store, store[id].tree, done + {id}, done', {})
    ensures Collecting(store, tips, had, done', left + Elems(store[id].parents))
  {
    hide FromAny, Took, AllListed;
    var tree := store[id].tree;
    FoundAround(store, done + {id}, done' - (done + {id}), tree);
    FromLinks(Parents, store, tips, id);
    EveryParent(store, tips, id);
    FromStep(Everything, store, tips, id, tree);
    forall x | x in done' - had
      ensures FromAny(Everything, store, tips, x)
    {
      if x !in done + {id} {
        FoundFrom(store, tips, tree, x);
      }
    }
    TookCommit(store, tips, had, done, id, done');
  }

  lemma FoundFrom(store: Store, tips: set<ID>, tree: ID, x: ID)
    requires FromAny(Everything, store, tips, tree) && FromAny(Everything, store, {tree}, x)
    ensures FromAny(Everything, store, tips, x)
  {
    FromReach(Everything, store, tips, tree, x);
  }

  lemma TookCommit(store: Store, tips: set<ID>, had: set<ID>, done: set<ID>, id: ID, done': set<ID>)
    requires Took(store, tips, had, done) && had <= done && IsCommit(store, id) && id !in done && FromAny(Parents, store, tips, id)
    requires Marking(store, store[id].tree, done + {id}, done', {})
    ensures Took(store, tips, had, done')
  {
    hide FromAny, Listed, LeavesAreBlobs, Reaches;
    var tree := store[id].tree;
    forall x | x in done' - had
      ensures FromAny(Parents, store, tips, x) || ListedByOne(store, tips, x)
    {
      if x !in done + {id} {
        assert Listed(store, tree, x);
      }
    }
    forall x | x in done' - had && !IsCommit(store, x)
      ensures UnderOne(store, had, done' - had, x)
    {
      if x in done {
        UnderMore(store, had, done - had, done' - had, x);
      } else {
        AroundOne(store, done + {id}, had, tree, x);
        assert id in done' - had;
      }
    }
  }

  lemma UnderMore(store: Store, avoid: set<ID>, commits: set<ID>, more: set<ID>, x: ID)
    requires UnderOne(store, avoid, commits, x) && commits <= more
    ensures UnderOne(store, avoid, more, x)
  {}

  lemma AroundOne(store: Store, avoid: set<ID>, fewer: set<ID>, root: ID, x: ID)
    requires FromAny(Everything, store - avoid, {root}, x) && fewer <= avoid
    ensures Reaches(Everything, store - fewer, root, x)
  {
    Unpruned(store, avoid, fewer, root, x);
  }

  lemma CollectingStart(store: Store, tips: set<ID>, had: set<ID>)
    ensures Collecting(store, tips, had, had, tips)
  {
    EachItself(Parents, store, tips);
  }

  lemma CollectingSkips(store: Store, tips: set<ID>, had: set<ID>, done: set<ID>, left: set<ID>, id: ID)
    requires Collecting(store, tips, had, done, left + {id}) && id in done
    ensures Collecting(store, tips, had, done, left)
  {
    hide FromAny, Took;
    assert done + (left + {id}) == done + left;
  }

  lemma EveryParent(store: Store, roots: set<ID>, a: ID)
    requires FromAny(Parents, store, roots, a)
    ensures FromAny(Everything, store, roots, a)
  {
    var r :| r in roots && Reaches(Parents, store, r, a);
    ReachMono(Parents, Everything, store, store, r, a);
  }

  /** Where the peeling of a tag stands: the tags on the way are sent or had, and `tip` is next. */
  ghost predicate Peeling(store: Store, root: ID, had: set<ID>, done: set<ID>, tip: ID) {
    && had <= done && root in done + {tip}
    && Reaches(Everything, store, root, tip)
    && (forall x | x in done - had :: x in store && store[x].Tag? && Reaches(Everything, store, root, x))
    && Followed(Everything, store, done - had, done + {tip})
  }

  lemma PeelingStart(store: Store, root: ID, had: set<ID>)
    ensures Peeling(store, root, had, had, root)
  {
    ReachSelf(Everything, store, root);
  }

  lemma PeelingTag(store: Store, root: ID, had: set<ID>, done: set<ID>, tip: ID)
    requires Peeling(store, root, had, done, tip) && tip in store && store[tip].Tag?
    ensures Peeling(store, root, had, done + {tip}, store[tip].tagged)
  {
    ReachStep(Everything, store, root, tip, store[tip].tagged);
  }

  /** The objects of a fetch as they are collected. */
  class Walk {
    const objects: Store

    /** `order` lists `seen`; `skip` is disjoint from both. */
    var seen: set<ID>
    var order: seq<ID>
    var skip: set<ID>

    ghost predicate Valid()
      reads this
    {
      Distinct(order) && seen == Elems(order) && seen !! skip
    }

    /** What is sent or had already. */
    ghost function Done(): set<ID>
      reads this
    {
      seen + skip
    }

    constructor (store: Store)
      ensures Valid() && objects == store && seen == {} && skip == {} && order == []
    {
      objects := store;
      seen, order, skip := {}, [], {};
    }

    method Add(id: ID) returns (added: bool)
      requires Valid()
      modifies this`seen, this`order
      ensures Valid()
      ensures added <==> id !in old(seen) && id !in skip
      ensures seen == old(seen) + if added then {id} else {}
      ensures order == old(order) + if added then [id] else []
    {
      if id in seen || id in skip {
        return false;
      }
      seen := seen + {id};
      order := order + [id];
      return true;
    }

    /** Follows tags from the root, each of them added, to the first object that is none. */
    method PeelTags(root: ID) returns (r: Result<ID>)
      requires Valid()
      modifies this`seen, this`order
      ensures Valid() && old(seen) <= seen
      ensures r == Peel(objects, root, TAG_DEPTH)
      ensures forall x :: r == Ok(x) <==> x in objects && !objects[x].Tag? && TagsLead(objects, root, x, 63)
      ensures r.Ok? ==> Peeling(objects, root, old(Done()), Done(), r.value)
      ensures r.Ok? ==> Done() == old(Done()) + TagsOn(objects, root, TAG_DEPTH)
    {
      hide Peeling, TagsLead;
      forall x
        ensures Peel(objects, root, TAG_DEPTH) == Ok(x) <==> x in objects && !objects[x].Tag? && TagsLead(objects, root, x, 63)
      {
        PeelIs(objects, root, TAG_DEPTH, x);
      }
      var id := root;
      PeelingStart(objects, root, Done());
      for i := 0 to TAG_DEPTH
        invariant Valid() && old(seen) <= seen
        invariant Peel(objects, root, TAG_DEPTH) == Peel(objects, id, TAG_DEPTH - i)
        invariant Peeling(objects, root, old(Done()), Done(), id)
        invariant Done() + TagsOn(objects, id, TAG_DEPTH - i) == old(Done()) + TagsOn(objects, root, TAG_DEPTH)
      {
        if id !in objects {
          return Err(Missing(id));
        }
        if !objects[id].Tag? {
          return Ok(id);
        }
        ghost var had := Done();
        var _ := Add(id);
        assert Done() == had + {id};
        PeelingTag(objects, root, old(Done()), had, id);
        id := objects[id].tagged;
      }
      return Err(TooManyTags);
    }

    /** Marks what a tree lists as a file, and stacks what it lists as a directory. */
    method MarkEntries(entries: seq<Entry>, stack: seq<ID>) returns (stack': seq<ID>)
      modifies this`skip
      ensures skip == old(skip) + FileIDs(entries)
      ensures Elems(stack') == Elems(stack) + DirectoryIDs(entries)
    {
      stack' := stack;
      for i := 0 to |entries|
        invariant skip == old(skip) + FileIDs(entries[..i])
        invariant Elems(stack') == Elems(stack) + DirectoryIDs(entries[..i])
      {
        var e := entries[i];
        OneMore(entries, i);
        match e.mode
        case Directory =>
          ElemsConcat(stack', [e.id]);
          stack' := stack' + [e.id];
        case Submodule =>
        case _ => skip := skip + {e.id};
      }
      assert entries[..|entries|] == entries;
    }

    /** Extends `skip` by the walk that `Marking` describes. */
    method MarkTree(root: ID) returns (r: Outcome)
      modifies this`skip
      ensures r.Fine? ==> Marking(objects, root, old(skip), skip, {})
      ensures Navigable(objects) && IsTree(objects, root) ==> r.Fine?
      ensures r.Failed? ==> TreeStops(objects, root) && NoTree(objects, r.error)
    {
      hide Marking, TreeStops, Navigable;
      var stack := [root];
      assert Elems(stack) == {root};
      MarkingStart(objects, root, skip);
      while stack != []
        invariant Marking(objects, root, old(skip), skip, Elems(stack))
        invariant Navigable(objects) && IsTree(objects, root) ==> Trees(objects, Elems(stack)) == Elems(stack)
        decreases objects.Keys - skip, |stack|
      {
        var id := stack[|stack| - 1];
        Popped(stack, id, stack[..|stack| - 1]);
        stack := stack[..|stack| - 1];
        if id in skip {
          MarkingSkips(objects, root, old(skip), skip, Elems(stack), id);
          continue;
        }
        ghost var had := skip;
        skip := skip + {id};
        if !IsTree(objects, id) {
          MarkingStops(objects, root, old(skip), had, Elems(stack), id);
        }
        if id !in objects {
          return Failed(Missing(id));
        }
        if !objects[id].Tree? {
          return Failed(WrongType(id));
        }
        MarkingTree(objects, root, old(skip), had, Elems(stack), id);
        NavigableDirs(objects, id);
        stack := MarkEntries(objects[id].entries, stack);
      }
      assert Elems([]) == {};
      return Fine;
    }

    /** Marks every commit behind one as what the client has. */
    method MarkHistory(root: ID) returns (r: Outcome)
      modifies this`skip
      ensures r.Fine? ==> Tracing(objects, root, old(skip), skip, {})
      ensures Navigable(objects) && IsCommit(objects, root) ==> r.Fine?
      ensures r.Failed? ==> HistoryStops(objects, root) && NoCommit(objects, r.error)
    {
      hide Tracing, Navigable, HistoryStops;
      var queue := [root];
      assert Elems(queue) == {root};
      TracingStart(objects, root, skip);
      while queue != []
        invariant Tracing(objects, root, old(skip), skip, Elems(queue))
        invariant Navigable(objects) && IsCommit(objects, root) ==> Commits(objects, Elems(queue)) == Elems(queue)
        decreases objects.Keys - skip, |queue|
      {
        var id := queue[0];
        Popped(queue, id, queue[1..]);
        queue := queue[1..];
        if id in skip {
          TracingSkips(objects, root, old(skip), skip, Elems(queue), id);
          continue;
        }
        ghost var had := skip;
        skip := skip + {id};
        if !IsCommit(objects, id) {
          TracingStops(objects, root, old(skip), had, Elems(queue), id);
        }
        if id !in objects {
          return Failed(Missing(id));
        }
        if !objects[id].Commit? {
          return Failed(WrongType(id));
        }
        TracingCommit(objects, root, old(skip), had, Elems(queue), id);
        NavigableParents(objects, id);
        ElemsConcat(queue, objects[id].parents);
        queue := queue + objects[id].parents;
      }
      assert Elems(queue) == {};
      return Fine;
    }

    /** Adds what a tree lists as a file. */
    method AddFiles(entries: seq<Entry>)
      requires Valid()
      modifies this`seen, this`order
      ensures Valid() && old(seen) <= seen
      ensures Done() == old(Done()) + FileIDs(entries)
    {
      for i := 0 to |entries|
        invariant Valid() && old(seen) <= seen
        invariant Done() == old(Done()) + FileIDs(entries[..i])
      {
        var e := entries[i];
        OneMore(entries, i);
        if e.mode != Directory && e.mode != Submodule {
          var _ := Add(e.id);
        }
      }
      assert entries[..|entries|] == entries;
    }

    /** The same walk as MarkTree's, into `order` and `seen` instead, and around `skip` too. */
    method AddTree(root: ID) returns (r: Outcome)
      requires Valid()
      modifies this`seen, this`order
      ensures Valid() && old(seen) <= seen
      ensures r.Fine? ==> Marking(objects, root, old(Done()), Done(), {})
      ensures Navigable(objects) && IsTree(objects, root) ==> r.Fine?
      ensures r.Failed? ==> TreeStops(objects, root) && NoTree(objects, r.error)
    {
      hide Marking, TreeStops, Navigable;
      var stack := [root];
      assert Elems(stack) == {root};
      MarkingStart(objects, root, Done());
      while stack != []
        invariant Valid() && old(seen) <= seen
        invariant Marking(objects, root, old(Done()), Done(), Elems(stack))
        invariant Navigable(objects) && IsTree(objects, root) ==> Trees(objects, Elems(stack)) == Elems(stack)
        decreases objects.Keys - seen, |stack|
      {
        var id := stack[|stack| - 1];
        Popped(stack, id, stack[..|stack| - 1]);
        stack := stack[..|stack| - 1];
        ghost var had := Done();
        var added := Add(id);
        if !added {
          assert Done() == had;
          MarkingSkips(objects, root, old(Done()), Done(), Elems(stack), id);
          continue;
        }
        assert Done() == had + {id};
        if !IsTree(objects, id) {
          MarkingStops(objects, root, old(Done()), had, Elems(stack), id);
        }
        if id !in objects {
          return Failed(Missing(id));
        }
        if !objects[id].Tree? {
          return Failed(WrongType(id));
        }
        MarkingTree(objects, root, old(Done()), had, Elems(stack), id);
        NavigableDirs(objects, id);
        AddFiles(objects[id].entries);
        stack := StackDirectories(objects[id].entries, stack);
      }
      assert Elems([]) == {};
      return Fine;
    }

    /** Walks back from the tips around what is done, one AddTree to a commit. */
    method AddHistory(tips: seq<ID>) returns (r: Outcome)
      requires Valid()
      modifies this`seen, this`order
      ensures Valid() && old(seen) <= seen
      ensures r.Fine? ==> Collecting(objects, Elems(tips), old(Done()), Done(), {})
      ensures Navigable(objects) && Commits(objects, Elems(tips)) == Elems(tips) ==> r.Fine?
      ensures r.Failed? ==> CollectionStops(objects, Elems(tips)) && (NoTree(objects, r.error) || NoCommit(objects, r.error))
    {
      hide Collecting, Marking, TreeStops, CollectionStops;
      var queue := tips;
      CollectingStart(objects, Elems(tips), Done());
      while queue != []
        invariant Valid() && old(seen) <= seen
        invariant Collecting(objects, Elems(tips), old(Done()), Done(), Elems(queue))
        invariant Navigable(objects) && Commits(objects, Elems(tips)) == Elems(tips) ==> Commits(objects, Elems(queue)) == Elems(queue)
        decreases objects.Keys - seen, |queue|
      {
        var id := queue[0];
        Popped(queue, id, queue[1..]);
        queue := queue[1..];
        ghost var had := Done();
        var added := Add(id);
        if !added {
          assert Done() == had;
          CollectingSkips(objects, Elems(tips), old(Done()), Done(), Elems(queue), id);
          continue;
        }
        assert Done() == had + {id};
        if !IsCommit(objects, id) {
          CollectingStops(objects, Elems(tips), old(Done()), had, Elems(queue), id);
        }
        if id !in objects {
          return Failed(Missing(id));
        }
        if !objects[id].Commit? {
          return Failed(WrongType(id));
        }
        r := AddTree(objects[id].tree);
        if r.Failed? {
          CollectingStops(objects, Elems(tips), old(Done()), had, Elems(queue), id);
          return;
        }
        CollectingCommit(objects, Elems(tips), old(Done()), had, Elems(queue), id, Done());
        ElemsConcat(queue, objects[id].parents);
        queue := queue + objects[id].parents;
      }
      assert Elems([]) == {};
      return Fine;
    }
  }

  /** Stacks what a tree lists as a directory, in reverse, so that the first is walked next. */
  method StackDirectories(entries: seq<Entry>, stack: seq<ID>) returns (stack': seq<ID>)
    ensures Elems(stack') == Elems(stack) + DirectoryIDs(entries)
  {
    stack' := stack;
    var i := |entries|;
    assert entries[i..] == [];
    while i > 0
      invariant 0 <= i <= |entries|
      invariant Elems(stack') == Elems(stack) + DirectoryIDs(entries[i..])
    {
      i := i - 1;
      assert entries[i..] == [entries[i]] + entries[i + 1..];
      if entries[i].mode == Directory {
        ElemsConcat(stack', [entries[i].id]);
        stack' := stack' + [entries[i].id];
      }
    }
  }

  lemma Popped(queue: seq<ID>, id: ID, rest: seq<ID>)
    requires queue == [id] + rest || queue == rest + [id]
    ensures Elems(queue) == Elems(rest) + {id}
  {
    ElemsConcat([id], rest);
    ElemsConcat(rest, [id]);
  }

  lemma EachItself(e: Edge, store: Store, roots: set<ID>)
    ensures Found(e, store, roots, roots)
  {
    forall x | x in roots
      ensures FromAny(e, store, roots, x)
    {
      FromSelf(e, store, roots, x);
    }
  }
}
