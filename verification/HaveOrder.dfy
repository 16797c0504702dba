/** One repository, fetched twice by a client with the same two haves: the order they come in decides whether a
    blob it has is sent to it again. */
module HaveOrder {
  import opened GitObjects
  import opened FetchWalk
  import opened Haves
  import opened Fetch

  /** Commit 4 holds `d/f`, and commit 6, which follows it, the same blob as `g`. */
  const OBJECTS: Store := map[
    1 := Blob(""),
    2 := Tree([Entry("f", File, 1)]),
    3 := Tree([Entry("d", Directory, 2)]),
    4 := Commit(3, [], ""),
    5 := Tree([Entry("g", File, 1)]),
    6 := Commit(5, [4], "")]

  lemma EntryIDs(e: Entry)
    ensures FileIDs([e]) == if e.mode in {Directory, Submodule} then {} else {e.id}
    ensures DirectoryIDs([e]) == if e.mode == Directory then {e.id} else {}
  {
    assert forall x :: x in [e] <==> x == e;
    if e.mode !in {Directory, Submodule} {
      assert e in [e];
    }
    if e.mode == Directory {
      assert e in [e];
    }
  }

  lemma LinksAre()
    ensures Links(Everything, OBJECTS[1]) == {} && Links(Everything, OBJECTS[2]) == {1} && Links(Everything, OBJECTS[3]) == {2}
    ensures Links(Everything, OBJECTS[4]) == {3} && Links(Everything, OBJECTS[5]) == {1} && Links(Everything, OBJECTS[6]) == {4, 5}
    ensures Links(Parents, OBJECTS[2]) == {} && Links(Parents, OBJECTS[4]) == {} && Links(Parents, OBJECTS[6]) == {4}
  {
    hide FileIDs, DirectoryIDs;
    EntriesAre();
    assert Elems([]) == {} && Elems([4]) == {4};
  }

  lemma EntriesAre()
    ensures FileIDs(OBJECTS[2].entries) == FileIDs(OBJECTS[5].entries) == {1} && FileIDs(OBJECTS[3].entries) == {}
    ensures DirectoryIDs(OBJECTS[2].entries) == DirectoryIDs(OBJECTS[5].entries) == {} && DirectoryIDs(OBJECTS[3].entries) == {2}
  {
    EntryIDs(Entry("f", File, 1));
    EntryIDs(Entry("d", Directory, 2));
    EntryIDs(Entry("g", File, 1));
  }

  lemma IsClosed()
    ensures Closed(OBJECTS)
  {
    hide Links;
    LinksAre();
  }

  lemma TreesAre(id: ID)
    requires IsTree(OBJECTS, id)
    ensures (forall x | x in FileIDs(OBJECTS[id].entries) :: x == 1) && (forall x | x in DirectoryIDs(OBJECTS[id].entries) :: x == 2)
  {
    hide FileIDs, DirectoryIDs;
    EntriesAre();
    assert id == 2 || id == 3 || id == 5;
  }

  lemma CommitsAre(id: ID)
    requires IsCommit(OBJECTS, id)
    ensures IsTree(OBJECTS, OBJECTS[id].tree) && forall x | x in OBJECTS[id].parents :: x == 4
  {
    assert id == 4 || id == 6;
  }

  lemma IsSound()
    ensures Sound(OBJECTS)
  {
    hide Closed, FileIDs, DirectoryIDs;
    IsClosed();
    forall id | IsTree(OBJECTS, id)
      ensures (forall x | x in FileIDs(OBJECTS[id].entries) :: x == 1) && (forall x | x in DirectoryIDs(OBJECTS[id].entries) :: x == 2)
    {
      TreesAre(id);
    }
    forall id | IsCommit(OBJECTS, id)
      ensures IsTree(OBJECTS, OBJECTS[id].tree) && forall x | x in OBJECTS[id].parents :: x == 4
    {
      CommitsAre(id);
    }
  }

  lemma NotBehindHaves(x: ID)
    requires x == 1 || x == 5 || x == 6
    ensures !FromAny(Parents, OBJECTS, {2, 4}, x)
  {
    hide Reaches, Links;
    LinksAre();
    var s := iset{2, 4};
    forall a | a in {2, 4} && Reaches(Parents, OBJECTS, a, x)
      ensures false
    {
      Confined(Parents, OBJECTS, s, a, x);
    }
  }

  lemma NotAround(x: ID)
    requires x == 1 || x == 5
    ensures !Reaches(Everything, OBJECTS - {2}, 3, x)
  {
    hide Reaches, Links;
    LinksAre();
    var s := iset{2, 3};
    if Reaches(Everything, OBJECTS - {2}, 3, x) {
      Confined(Everything, OBJECTS - {2}, s, 3, x);
    }
  }

  lemma NotMarked(x: ID)
    requires x == 1 || x == 5
    ensures x !in Marks(OBJECTS, [2, 4])
  {
    hide Reaches;
    NotBehindHaves(x);
    NotAround(x);
    assert Elems([2, 4]) == {2, 4};
    forall i: nat | i < 2
      ensures !AroundAt(OBJECTS, [2, 4], i, x)
    {
      assert [2, 4][..1] == [2] && Elems([2]) == {2};
    }
  }

  lemma TipIs(haves: seq<ID>)
    requires Elems(haves) == {2, 4}
    ensures New(OBJECTS, {6}, Elems(haves), 6)
  {
    hide Reaches;
    NotBehindHaves(6);
    assert Peel(OBJECTS, 6, TAG_DEPTH) == Ok(6);
    assert 6 in Peeled(OBJECTS, {6});
    FromSelf(Parents, OBJECTS, Peeled(OBJECTS, {6}), 6);
  }

  /** The tree first: commit 4's tree is not followed through it, and what it lists is sent again. */
  lemma TreeFirst(sent: set<ID>)
    requires Answers(OBJECTS, {6}, [2, 4], [], sent)
    ensures 1 in sent && !TreesLeftOut(OBJECTS, {2, 4}, sent) && !Harmless(OBJECTS, {6}, [2, 4])
  {
    hide Reaches, Marks, Links, Sound, New;
    hide TagsSent, ExactTags, OnlyWanted, OnlyListed, WantsSent, Complete, ExactCommits, SelfContained, LeavesAreBlobs, Harmless, RefsPeel;
    IsSound();
    NotMarked(1);
    NotMarked(5);
    assert Elems([2, 4]) == {2, 4};
    TipIs([2, 4]);
    LinksAre();
    var around := OBJECTS - Marks(OBJECTS, [2, 4]);
    ReachSelf(Everything, around, 5);
    ReachStep(Everything, around, 5, 5, 1);
    assert Fresh(OBJECTS, {6}, [2, 4], 1);
    assert IsContent(OBJECTS, 1);
    UnderFour();
    assert IsCommit(OBJECTS, 4) && 4 in {2, 4};
  }

  lemma UnderFour()
    ensures Reaches(Everything, OBJECTS, 3, 1)
  {
    hide Reaches, Links;
    LinksAre();
    ReachSelf(Everything, OBJECTS, 3);
    ReachStep(Everything, OBJECTS, 3, 3, 2);
    ReachStep(Everything, OBJECTS, 3, 2, 1);
  }

  /** The commit first: a tree is among the haves all the same, and nothing under commit 4's tree is sent. */
  lemma CommitFirst(sent: set<ID>)
    requires Answers(OBJECTS, {6}, [4, 2], [], sent)
    ensures 1 !in sent && TreesLeftOut(OBJECTS, {2, 4}, sent) && Trees(OBJECTS, {2, 4}) != {}
  {
    hide Reaches, Marks, Links, Sound, Fresh;
    hide TagsSent, ExactTags, OnlyWanted, OnlyListed, WantsSent, Complete, ExactCommits, SelfContained, LeavesAreBlobs, ExactContent, RefsPeel, Harmless;
    IsSound();
    assert Elems([4, 2]) == {2, 4};
    TreesLastHarmless(OBJECTS, {6}, [4, 2]);
    UnderFour();
    assert IsCommit(OBJECTS, 4) && 4 in {2, 4};
    assert 2 in Trees(OBJECTS, {2, 4});
  }

  /** The two fetches. */
  method FetchTwice() returns (first: seq<ID>, second: seq<ID>)
    ensures 1 in first && 1 !in second
  {
    hide Answers, Navigable, Peel, RefsPeel, PeelToCommits, Distinct;
    IsNavigable();
    PeelsHere();
    assert Elems([6]) == {6} && Elems([2, 4]) == {2, 4} && Elems([4, 2]) == {2, 4};
    var r := Packing(OBJECTS, [], [6], false, [2, 4]);
    TreeFirst(Elems(r.value));
    first := r.value;
    r := Packing(OBJECTS, [], [6], false, [4, 2]);
    CommitFirst(Elems(r.value));
    second := r.value;
  }

  lemma IsNavigable()
    ensures Navigable(OBJECTS)
  {
    hide Navigable;
    IsSound();
  }

  lemma PeelsHere()
    ensures RefsPeel(OBJECTS, []) && PeelToCommits(OBJECTS, [6]) && Elems([2, 4]) <= OBJECTS.Keys && Elems([4, 2]) <= OBJECTS.Keys
  {
    assert Peel(OBJECTS, 6, TAG_DEPTH) == Ok(6);
  }
}
