/** One push, let by every rule, of a tree that lists another as a file, behind a tip that does not; and the clone
    of it, which is not whole. */
module Mislisted {
  import opened GitObjects
  import opened FetchWalk
  import opened Walks
  import opened Push
  import opened PushRuns
  import opened FirstPush
  import Fetch

  /** Commit 4's tree lists the tree 2 as a file; commit 6, which follows it, lists the blob 7. */
  const OBJECTS: Store := map[
    1 := Blob(""),
    2 := Tree([Entry("f", File, 1)]),
    3 := Tree([Entry("g", File, 2)]),
    4 := Commit(3, [], ""),
    5 := Tree([Entry("w", File, 7)]),
    6 := Commit(5, [4], ""),
    7 := Blob("w")]

  const AFTER: Repository := After(OBJECTS, 6)
  const PUSH: Event := PushOf(OBJECTS, 6)

  lemma EntryIDs(e: Entry)
    requires e.mode == File
    ensures FileIDs([e]) == {e.id} && DirectoryIDs([e]) == {}
  {
    assert e in [e] && forall x | x in [e] :: x == e;
  }

  lemma EntriesAre()
    ensures FileIDs(OBJECTS[2].entries) == {1} && FileIDs(OBJECTS[3].entries) == {2} && FileIDs(OBJECTS[5].entries) == {7}
    ensures DirectoryIDs(OBJECTS[2].entries) == DirectoryIDs(OBJECTS[3].entries) == DirectoryIDs(OBJECTS[5].entries) == {}
  {
    EntryIDs(Entry("f", File, 1));
    EntryIDs(Entry("g", File, 2));
    EntryIDs(Entry("w", File, 7));
  }

  lemma LinksAre()
    ensures Links(Everything, OBJECTS[1]) == Links(Everything, OBJECTS[7]) == {} && Links(Everything, OBJECTS[2]) == {1}
    ensures Links(Everything, OBJECTS[3]) == {2} && Links(Everything, OBJECTS[4]) == {3}
    ensures Links(Everything, OBJECTS[5]) == {7} && Links(Everything, OBJECTS[6]) == {4, 5}
    ensures Links(Parents, OBJECTS[4]) == {} && Links(Parents, OBJECTS[6]) == {4}
    ensures Links(Directories, OBJECTS[3]) == Links(Directories, OBJECTS[5]) == {}
  {
    hide FileIDs, DirectoryIDs;
    EntriesAre();
    assert Elems([]) == {} && Elems([4]) == {4};
  }

  lemma IsClosed()
    ensures Closed(OBJECTS)
  {
    hide Links;
    LinksAre();
  }

  lemma IsConnected()
    ensures Connected(OBJECTS, map[], {6})
  {
    hide Links;
    LinksAre();
  }

  /** The push is a run of its own, from an empty repository and without grant:manage, and leaves a tree that
      lists a tree as a file. */
  lemma OnePush()
    ensures Run([BEFORE, AFTER], [PUSH]) && NobodyManages([PUSH]) && Whole(BEFORE) && LeavesAreBlobs(BEFORE.store)
    ensures !LeavesAreBlobs(AFTER.store)
  {
    hide Allowed, UpdateRefs, Connected, Links, FileIDs, DirectoryIDs;
    IsConnected();
    IsRun(OBJECTS, 6);
    EntriesAre();
    assert AFTER.store[3].Tree? && 2 in FileIDs(AFTER.store[3].entries) && !AFTER.store[2].Blob?;
  }

  lemma NotListed(root: ID)
    requires root == 3 || root == 5
    ensures !Listed(OBJECTS, root, 1)
  {
    hide Reaches, Links, FileIDs;
    LinksAre();
    EntriesAre();
    forall t | Reaches(Directories, OBJECTS, root, t)
      ensures t == root
    {
      var s := iset{root};
      Confined(Directories, OBJECTS, s, root, t);
    }
  }

  /** A clone of it holds the tip and lacks the blob 1, which a tree it holds lists: it is not whole. */
  lemma CloneLacks(sent: set<ID>)
    requires Fetch.Answers(OBJECTS, {6}, [], [], sent)
    ensures 6 in sent && 1 !in sent && !Followed(Everything, OBJECTS, sent, sent)
  {
    hide Reaches, Links, Listed;
    hide Fetch.TagsSent, Fetch.ExactTags, Fetch.OnlyWanted, Fetch.Complete, Fetch.ExactCommits, Fetch.SelfContained, Fetch.ExactContent, Fetch.Harmless, Fetch.TreesLeftOut;
    hide LeavesAreBlobs, Sound, Fetch.RefsPeel;
    PeeledHere();
    Behind(1);
    assert Elems([]) == {};
    if Followed(Everything, OBJECTS, sent, sent) {
      ReachOne();
      Fetch.WholeNeedsListed(OBJECTS, {6}, [], sent);
    }
  }

  lemma PeeledHere()
    ensures Fetch.Peeled(OBJECTS, {6}) == {6}
  {
    assert Peel(OBJECTS, 6, TAG_DEPTH) == Ok(6);
  }

  lemma Behind(x: ID)
    ensures x == 1 ==> !FromAny(Parents, OBJECTS, {6}, x) && !ListedByOne(OBJECTS, {6}, x)
  {
    hide Reaches, Links, Listed;
    if FromAny(Parents, OBJECTS, {6}, x) {
      TwoBehind(OBJECTS, 6, 4, x);
    }
    forall n | FromAny(Parents, OBJECTS, {6}, n)
      ensures n == 6 || n == 4
    {
      TwoBehind(OBJECTS, 6, 4, n);
    }
    NotListed(3);
    NotListed(5);
  }

  lemma ReachOne()
    ensures Reaches(Everything, OBJECTS, 6, 1)
  {
    hide Reaches, Links;
    LinksAre();
    ReachSelf(Everything, OBJECTS, 6);
    ReachStep(Everything, OBJECTS, 6, 6, 4);
    ReachStep(Everything, OBJECTS, 6, 4, 3);
    ReachStep(Everything, OBJECTS, 6, 3, 2);
    ReachStep(Everything, OBJECTS, 6, 2, 1);
  }

  lemma IsNavigable()
    ensures Navigable(OBJECTS)
  {
    hide Closed, FileIDs, DirectoryIDs;
    IsClosed();
    EntriesAre();
    forall id | IsTree(OBJECTS, id)
      ensures DirectoryIDs(OBJECTS[id].entries) == {}
    {
      assert id == 2 || id == 3 || id == 5;
    }
    forall id | IsCommit(OBJECTS, id)
      ensures IsTree(OBJECTS, OBJECTS[id].tree) && forall x | x in OBJECTS[id].parents :: x == 4
    {
      assert id == 4 || id == 6;
    }
  }

  /** That clone, made. */
  method Clone() returns (sent: seq<ID>)
    ensures 6 in sent && 1 !in sent && !Followed(Everything, OBJECTS, Elems(sent), Elems(sent))
  {
    hide Fetch.Answers, Navigable, Peel, Fetch.RefsPeel, Fetch.PeelToCommits, Distinct, Followed;
    IsNavigable();
    PeelsHere();
    assert Elems([6]) == {6};
    var r := Fetch.Packing(OBJECTS, [], [6], false, []);
    CloneLacks(Elems(r.value));
    return r.value;
  }

  lemma PeelsHere()
    ensures Fetch.RefsPeel(OBJECTS, []) && Fetch.PeelToCommits(OBJECTS, [6]) && Elems([]) <= OBJECTS.Keys
  {
    assert Peel(OBJECTS, 6, TAG_DEPTH) == Ok(6);
  }
}
