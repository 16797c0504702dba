/** One push, let by every rule, of a commit whose tree is a blob, behind a tip whose tree is one; no clone of what
    it leaves is served. */
module Mistyped {
  import opened GitObjects
  import opened FetchWalk
  import opened Walks
  import opened Push
  import opened PushRuns
  import opened FirstPush
  import Fetch

  /** Commit 4 names the blob 1 as its tree; commit 6, which follows it, a tree that lists the blob 7. */
  const OBJECTS: Store := map[
    1 := Blob(""),
    4 := Commit(1, [], ""),
    5 := Tree([Entry("w", File, 7)]),
    6 := Commit(5, [4], ""),
    7 := Blob("w")]

  const AFTER: Repository := After(OBJECTS, 6)
  const PUSH: Event := PushOf(OBJECTS, 6)

  lemma EntriesAre()
    ensures FileIDs(OBJECTS[5].entries) == {7} && DirectoryIDs(OBJECTS[5].entries) == {}
  {
    var e := Entry("w", File, 7);
    assert OBJECTS[5].entries == [e] && e in [e] && forall x | x in [e] :: x == e;
  }

  lemma LinksAre()
    ensures Links(Everything, OBJECTS[1]) == Links(Everything, OBJECTS[7]) == {} && Links(Everything, OBJECTS[4]) == {1}
    ensures Links(Everything, OBJECTS[5]) == {7} && Links(Everything, OBJECTS[6]) == {4, 5}
    ensures Links(Parents, OBJECTS[4]) == {} && Links(Parents, OBJECTS[6]) == {4} && Links(Directories, OBJECTS[5]) == {}
  {
    hide FileIDs, DirectoryIDs;
    EntriesAre();
    assert Elems([]) == {} && Elems([4]) == {4};
  }

  lemma IsConnected()
    ensures Connected(OBJECTS, map[], {6})
  {
    hide Links;
    LinksAre();
  }

  lemma FilesHere()
    ensures LeavesAreBlobs(OBJECTS)
  {
    hide FileIDs;
    EntriesAre();
    forall id | IsTree(OBJECTS, id)
      ensures id == 5
    {}
  }

  /** The push is a run of its own, from an empty repository and without grant:manage. Every file it lists is a
      blob, and what it leaves cannot be walked. */
  lemma OnePush()
    ensures Run([BEFORE, AFTER], [PUSH]) && NobodyManages([PUSH]) && Whole(BEFORE)
    ensures LeavesAreBlobs(BEFORE.store) && Navigable(BEFORE.store) && PacksList([BEFORE, AFTER], [PUSH], 1)
    ensures LeavesAreBlobs(AFTER.store) && !Navigable(AFTER.store)
  {
    hide Allowed, UpdateRefs, Connected, Links, FileIDs, DirectoryIDs, FilesAreBlobs, LeavesAreBlobs;
    IsConnected();
    IsRun(OBJECTS, 6);
    FilesHere();
    assert BEFORE.store + OBJECTS == OBJECTS;
    PushLeaves(BEFORE, BEFORE, PUSH, AFTER);
    assert IsCommit(AFTER.store, 4) && !IsTree(AFTER.store, AFTER.store[4].tree);
  }

  lemma NotListed(n: ID)
    requires FromAny(Parents, OBJECTS, {6}, n) && IsCommit(OBJECTS, n)
    ensures !Listed(OBJECTS, OBJECTS[n].tree, 1)
  {
    hide Reaches, Links, FileIDs, FromAny;
    TwoBehind(OBJECTS, 6, 4, n);
    LinksAre();
    EntriesAre();
    var root := OBJECTS[n].tree;
    forall t | Reaches(Directories, OBJECTS, root, t)
      ensures t == root
    {
      var s := iset{root};
      assert Links(Directories, OBJECTS[1]) == {} by { BlobLinks(); }
      Confined(Directories, OBJECTS, s, root, t);
    }
  }

  lemma BlobLinks()
    ensures Links(Directories, OBJECTS[1]) == {}
  {}

  lemma ReachOne()
    ensures Reaches(Everything, OBJECTS, 6, 1)
  {
    hide Reaches, Links;
    LinksAre();
    ReachSelf(Everything, OBJECTS, 6);
    ReachStep(Everything, OBJECTS, 6, 6, 4);
    ReachStep(Everything, OBJECTS, 6, 4, 1);
  }

  /** No set of objects answers a clone of it: blob 1 would have to be sent, and nothing lists it. */
  lemma NothingAnswers(sent: set<ID>)
    ensures !Fetch.Answers(OBJECTS, {6}, [], [], sent)
  {
    hide Reaches, Links, Listed, FromAny, Fetch.RefsPeel;
    hide Fetch.TagsSent, Fetch.ExactTags, Fetch.OnlyWanted, Fetch.WantsSent, Fetch.ExactCommits, Fetch.SelfContained, Fetch.ExactContent, Fetch.Harmless, Fetch.TreesLeftOut, Sound, LeavesAreBlobs;
    FilesHere();
    PeeledHere();
    ReachOne();
    assert Elems([]) == {};
    OneUnsent(sent);
  }

  lemma OneUnsent(sent: set<ID>)
    ensures Fetch.OnlyListed(OBJECTS, {6}, sent) ==> !Fetch.Complete(OBJECTS, {6}, {}, sent)
  {
    hide Reaches, Links, Listed;
    PeeledHere();
    ReachOne();
    assert FromAny(Everything, OBJECTS, {6}, 1);
    forall n | FromAny(Parents, OBJECTS, {6}, n) && IsCommit(OBJECTS, n)
      ensures !Listed(OBJECTS, OBJECTS[n].tree, 1)
    {
      NotListed(n);
    }
    if FromAny(Parents, OBJECTS, {6}, 1) {
      TwoBehind(OBJECTS, 6, 4, 1);
    }
  }

  lemma PeeledHere()
    ensures Fetch.Peeled(OBJECTS, {6}) == {6}
  {
    assert Peel(OBJECTS, 6, TAG_DEPTH) == Ok(6);
  }

  /** That clone, asked for. */
  method Clone() returns (r: Result<seq<ID>>)
    ensures r.Err?
  {
    hide Fetch.Answers, Distinct, Navigable, Fetch.RefsPeel, Fetch.PeelToCommits;
    r := Fetch.Packing(OBJECTS, [], [6], false, []);
    assert Elems([6]) == {6};
    if r.Ok? {
      NothingAnswers(Elems(r.value));
    }
  }
}
