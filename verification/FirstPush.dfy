/** A branch made by one push into an empty repository, of any objects that are connected. */
module FirstPush {
  import opened GitObjects
  import opened FetchWalk
  import opened Walks
  import opened Push
  import opened PushRuns

  const BEFORE := Repository(map[], map[], "main")

  function Making(tip: ID): Command {
    Command(Branch("main"), ZERO, tip, tip, false, true)
  }

  function After(objects: Store, tip: ID): Repository {
    Repository(objects, map[Branch("main") := Ref(tip, ZERO, false)], "main")
  }

  function PushOf(objects: Store, tip: ID): Event {
    Pushed(0, objects, [Making(tip)], false)
  }

  lemma IsLet(objects: Store, tip: ID)
    requires IsCommit(objects, tip) && tip != ZERO
    ensures Allowed(map[], "main", objects, false, Making(tip)) && UpdateRefs(map[], "main", [Making(tip)]) == Updated(After(objects, tip).refs)
  {
    var c, refs := Making(tip), After(objects, tip).refs;
    assert PeelToCommit(objects, tip, TAG_DEPTH) == Ok(tip);
    assert Swap(map[], c) == Updated(refs);
    assert [c][1..] == [] && SwapAll(refs, []) == Updated(refs);
    assert SwapAll(map[], [c]) == Updated(refs);
  }

  /** Connection is all it takes: the push is a run of its own, without grant:manage. */
  lemma IsRun(objects: Store, tip: ID)
    requires IsCommit(objects, tip) && tip != ZERO && Connected(objects, map[], {tip})
    ensures PushStep(BEFORE, BEFORE, PushOf(objects, tip), After(objects, tip))
    ensures Run([BEFORE, After(objects, tip)], [PushOf(objects, tip)]) && NobodyManages([PushOf(objects, tip)])
    ensures Whole(BEFORE) && LeavesAreBlobs(BEFORE.store) && Navigable(BEFORE.store)
  {
    hide Allowed, UpdateRefs, Connected;
    IsLet(objects, tip);
    var c := Making(tip);
    assert Tips([c]) == {tip} by { assert c in [c]; }
    assert BEFORE.store + objects == objects;
    assert PushStep(BEFORE, BEFORE, PushOf(objects, tip), After(objects, tip));
  }

  /** Behind a tip over one commit that has no parents there are those two alone. */
  lemma TwoBehind(objects: Store, tip: ID, first: ID, n: ID)
    requires JustAhead(objects, tip, first) && IsCommit(objects, first) && objects[first].parents == []
    requires FromAny(Parents, objects, {tip}, n)
    ensures n == tip || n == first
  {
    hide Reaches;
    var s := iset{tip, first};
    Confined(Parents, objects, s, tip, n);
  }
}
