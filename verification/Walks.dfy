/** The two walks that decide reachability: what a fetch may ask for, and whether a push is ahead. */
module Walks {
  import opened GitObjects
  import opened FetchWalk

  datatype Asked = Ours | NotOurs(id: ID) | Unread(error: Error)

  /** Where a walk back stands: `seen` was visited, `left` is still to visit. */
  ghost predicate Walking(e: Edge, store: Store, roots: set<ID>, seen: set<ID>, left: set<ID>) {
    && roots <= seen + left
    && Found(e, store, seen + left, roots)
    && Followed(e, store, seen, seen + left)
  }

  lemma WalkingStart(e: Edge, store: Store, roots: set<ID>)
    ensures Walking(e, store, roots, {}, roots)
  {
    EachItself(e, store, roots);
    assert {} + roots == roots;
  }

  lemma WalkingSkips(e: Edge, store: Store, roots: set<ID>, seen: set<ID>, left: set<ID>, id: ID)
    requires Walking(e, store, roots, seen, left + {id}) && id in seen
    ensures Walking(e, store, roots, seen, left)
  {
    assert seen + (left + {id}) == seen + left;
  }

  lemma WalkingOn(e: Edge, store: Store, roots: set<ID>, seen: set<ID>, left: set<ID>, id: ID)
    requires Walking(e, store, roots, seen, left + {id}) && id in store
    ensures Walking(e, store, roots, seen + {id}, left + Links(e, store[id]))
  {
    hide FromAny, Links;
    FromLinks(e, store, roots, id);
  }

  lemma InFollowed(e: Edge, store: Store, seen: set<ID>, r: ID, x: ID)
    requires r in seen && Followed(e, store, seen, seen) && Reaches(e, store, r, x)
    ensures x in seen
  {
    hide Links, Reaches;
    var all := iset y | y in seen;
    Confined(e, store, all, r, x);
  }

  /** A walk with nothing left has seen exactly what the roots reach. */
  lemma WalkedAll(e: Edge, store: Store, roots: set<ID>, seen: set<ID>, x: ID)
    requires Walking(e, store, roots, seen, {})
    ensures x in seen <==> FromAny(e, store, roots, x)
  {
    hide Links, Reaches;
    assert seen + {} == seen;
    if FromAny(e, store, roots, x) {
      var r :| r in roots && Reaches(e, store, r, x);
      InFollowed(e, store, seen, r, x);
    }
  }

  /** Whether every object wanted lies behind a ref, answering one that does not. The walk stops as
      soon as each is found, and an object of it that is not held ends it. */
  method Reached(objects: Store, tips: seq<ID>, wanted: set<ID>) returns (r: Asked)
    ensures r.Ours? ==> forall x | x in wanted :: FromAny(Behind, objects, Elems(tips), x)
    ensures r.NotOurs? ==> r.id in wanted && !FromAny(Behind, objects, Elems(tips), r.id)
    ensures r.Unread? ==> exists x :: FromAny(Behind, objects, Elems(tips), x) && x !in objects
    ensures Closed(objects) && Elems(tips) <= objects.Keys ==>
              (r.Ours? <==> forall x | x in wanted :: FromAny(Behind, objects, Elems(tips), x))
  {
    hide FromAny, Links, Closed;
    AllHeldBehind(objects, Elems(tips));
    var left := |wanted|;
    var seen: set<ID> := {};
    var queue := tips;
    WalkingStart(Behind, objects, Elems(tips));
    assert wanted - seen == wanted;
    while queue != [] && left > 0
      invariant Walking(Behind, objects, Elems(tips), seen, Elems(queue))
      invariant left == |wanted - seen|
      decreases objects.Keys - seen, |queue|
    {
      var id := queue[|queue| - 1];
      Popped(queue, id, queue[..|queue| - 1]);
      queue := queue[..|queue| - 1];
      if id in seen {
        WalkingSkips(Behind, objects, Elems(tips), seen, Elems(queue), id);
        continue;
      }
      ghost var had := seen;
      seen := seen + {id};
      assert wanted - seen == (wanted - had) - {id};
      if id in wanted {
        left := left - 1;
      }
      if id !in objects {
        return Unread(Missing(id));
      }
      WalkingOn(Behind, objects, Elems(tips), had, Elems(queue), id);
      queue := Behinds(objects[id], queue);
    }
    var missed := wanted - seen;
    if missed == {} {
      return Ours;
    }
    var id :| id in missed;
    assert Elems([]) == {};
    WalkedAll(Behind, objects, Elems(tips), seen, id);
    return NotOurs(id);
  }

  /** Queues what lies behind an object. */
  method Behinds(o: Object, queue: seq<ID>) returns (queue': seq<ID>)
    ensures Elems(queue') == Elems(queue) + Links(Behind, o)
  {
    match o
    case Commit(_, parents, _) =>
      ElemsConcat(queue, parents);
      return queue + parents;
    case Tag(tagged, _) =>
      ElemsConcat(queue, [tagged]);
      return queue + [tagged];
    case _ =>
      return queue;
  }

  lemma AllHeldBehind(objects: Store, tips: set<ID>)
    ensures Closed(objects) && tips <= objects.Keys ==> forall x | FromAny(Behind, objects, tips, x) :: x in objects
  {
    forall x | Closed(objects) && tips <= objects.Keys && FromAny(Behind, objects, tips, x)
      ensures x in objects
    {
      var r :| r in tips && Reaches(Behind, objects, r, x);
      ReachMono(Behind, Everything, objects, objects, r, x);
      ClosedHolds(objects, r, x);
    }
  }

  /** The commits a walk that decides a fast-forward visits, a million at most. */
  const DESCENDS_MAX: nat := 0x10_0000

  /** More commits lie behind one than the walk visits, or something there is no commit. */
  ghost predicate PastDeciding(objects: Store, commit: ID, most: nat) {
    || (exists s: set<ID> :: |s| >= most && Found(Parents, objects, s, {commit}))
    || (exists x :: x in objects && !objects[x].Commit? && FromAny(Parents, objects, {commit}, x))
  }

  /** Searches the parents of `commit` for `old'`, visiting at most `most` commits. True is always right; false is
      right, or PastDeciding holds. */
  method Descends(objects: Store, commit: ID, old': ID, most: nat) returns (r: Result<bool>)
    ensures r == Ok(true) ==> Reaches(Parents, objects, commit, old')
    ensures r == Ok(false) ==> !Reaches(Parents, objects, commit, old') || PastDeciding(objects, commit, most)
    ensures r.Err? ==> exists x :: Reaches(Parents, objects, commit, x) && x !in objects
    ensures most >= 2 && JustAhead(objects, commit, old') ==> r == Ok(true)
  {
    hide Reaches, Links;
    ghost var near := most >= 2 && JustAhead(objects, commit, old');
    var seen: set<ID> := {};
    var queue := [commit];
    assert Elems(queue) == {commit};
    WalkingStart(Parents, objects, {commit});
    while queue != [] && |seen| < most
      invariant Walking(Parents, objects, {commit}, seen, Elems(queue))
      invariant old' !in seen
      invariant near ==> (seen == {} && queue == [commit]) || (|seen| == 1 && queue == [old'])
      decreases objects.Keys - seen, |queue|
    {
      var id := queue[0];
      Popped(queue, id, queue[1..]);
      queue := queue[1..];
      assert FromAny(Parents, objects, {commit}, id);
      if id == old' {
        return Ok(true);
      }
      if id in seen {
        WalkingSkips(Parents, objects, {commit}, seen, Elems(queue), id);
        continue;
      }
      ghost var had := seen;
      seen := seen + {id};
      if id !in objects {
        return Err(Missing(id));
      }
      if !objects[id].Commit? {
        return Ok(false);
      }
      WalkingOn(Parents, objects, {commit}, had, Elems(queue), id);
      ElemsConcat(queue, objects[id].parents);
      ParentsOf(objects[id]);
      queue := queue + objects[id].parents;
    }
    if |seen| < most {
      assert Elems([]) == {};
      WalkedAll(Parents, objects, {commit}, seen, old');
    } else {
      assert Found(Parents, objects, seen, {commit});
    }
    return Ok(false);
  }

  /** One commit follows the other alone, which the walk meets next, however much lies behind. */
  predicate JustAhead(objects: Store, commit: ID, parent: ID) {
    IsCommit(objects, commit) && objects[commit].parents == [parent]
  }

  lemma ParentsOf(o: Object)
    requires o.Commit?
    ensures Links(Parents, o) == Elems(o.parents)
  {}

  /** What a pushed object peels to: the commit it names through tags, or ZERO where it names none. */
  method PeelCommit(objects: Store, root: ID) returns (r: Result<ID>)
    ensures r == PeelToCommit(objects, root, TAG_DEPTH)
    ensures forall c | c != ZERO :: r == Ok(c) <==> IsCommit(objects, c) && TagsLead(objects, root, c, 63)
  {
    forall c | c != ZERO
      ensures PeelToCommit(objects, root, TAG_DEPTH) == Ok(c) <==> IsCommit(objects, c) && TagsLead(objects, root, c, 63)
    {
      PeelToCommitIs(objects, root, TAG_DEPTH, c);
    }
    hide TagsLead;
    var id := root;
    for i := 0 to TAG_DEPTH
      invariant PeelToCommit(objects, root, TAG_DEPTH) == PeelToCommit(objects, id, TAG_DEPTH - i)
    {
      if id !in objects {
        return Err(Missing(id));
      }
      match objects[id]
      case Commit(_, _, _) => return Ok(id);
      case Tag(tagged, _) => id := tagged;
      case _ => return Ok(ZERO);
    }
    return Ok(ZERO);
  }

  /** It is a commit exactly where fewer than `fuel` tags lead to that commit, and fails exactly where they lead to
      something that is not held. */
  lemma {:induction false} PeelToCommitIs(objects: Store, id: ID, fuel: nat, x: ID)
    requires fuel > 0 && x != ZERO
    ensures PeelToCommit(objects, id, fuel) == Ok(x) <==> IsCommit(objects, x) && TagsLead(objects, id, x, fuel - 1)
    ensures PeelToCommit(objects, id, fuel) == Err(Missing(x)) <==> x !in objects && TagsLead(objects, id, x, fuel - 1)
    decreases fuel
  {
    hide TagsLead;
    TagsLeadOn(objects, id, x, fuel - 1);
    if id in objects && objects[id].Tag? && fuel > 1 {
      PeelToCommitIs(objects, objects[id].tagged, fuel - 1, x);
    }
  }

  function PeelToCommit(objects: Store, id: ID, fuel: nat): Result<ID>
    decreases fuel
  {
    if fuel == 0 then Ok(ZERO)
    else if id !in objects then Err(Missing(id))
    else match objects[id]
      case Commit(_, _, _) => Ok(id)
      case Tag(tagged, _) => PeelToCommit(objects, tagged, fuel - 1)
      case _ => Ok(ZERO)
  }
}
