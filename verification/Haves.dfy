/** What a fetch takes a client to have, as its haves say one after the other: a commit stands for the history
    behind it and for its tree, and anything else for itself alone. */
module Haves {
  import opened GitObjects
  import opened FetchWalk

  /** x lies under the tree of the i-th have, a commit, around every have before that one. */
  ghost predicate AroundAt(store: Store, common: seq<ID>, i: nat, x: ID)
    requires i < |common|
  {
    IsCommit(store, common[i]) && Reaches(Everything, store - Elems(common[..i]), store[common[i]].tree, x)
  }

  ghost predicate Around(store: Store, common: seq<ID>, x: ID) {
    exists i: nat :: i < |common| && AroundAt(store, common, i, x)
  }

  /** What a sound store's client is taken to have, told from the haves alone. */
  ghost function Marks(store: Store, common: seq<ID>): set<ID> {
    set x | x in store && (FromAny(Parents, store, Elems(common), x) || Around(store, common, x))
  }

  predicate IsContent(store: Store, x: ID) {
    x in store && (store[x].Tree? || store[x].Blob?)
  }

  lemma ContentStep(store: Store, y: ID, z: ID)
    requires Sound(store) && IsContent(store, y) && Step(Everything, store, y, z)
    ensures IsContent(store, z) && IsTree(store, y)
  {
    assert IsTree(store, y) && z in store;
    if z in DirectoryIDs(store[y].entries) {
      assert IsTree(store, z);
    } else {
      assert z in FileIDs(store[y].entries) && store[z].Blob?;
    }
  }

  /** Whatever a tree of a sound store reaches is a tree or a blob of it. */
  lemma ContentUnder(store: Store, root: ID, x: ID)
    requires Sound(store) && IsContent(store, root) && Reaches(Everything, store, root, x)
    ensures IsContent(store, x)
  {
    hide Sound, Reaches;
    var s := iset y | IsContent(store, y);
    forall y, z | y in s && Step(Everything, store, y, z)
      ensures z in s
    {
      ContentStep(store, y, z);
    }
    Confined(Everything, store, s, root, x);
  }

  lemma TreeIsContent(store: Store, c: ID)
    requires Sound(store) && IsCommit(store, c)
    ensures IsContent(store, store[c].tree)
  {}

  lemma AroundMore(store: Store, common: seq<ID>, id: ID, i: nat, x: ID)
    requires i < |common|
    ensures AroundAt(store, common + [id], i, x) <==> AroundAt(store, common, i, x)
  {
    assert (common + [id])[..i] == common[..i];
  }

  lemma AroundLast(store: Store, common: seq<ID>, id: ID, x: ID)
    ensures AroundAt(store, common + [id], |common|, x) <==> IsCommit(store, id) && Reaches(Everything, store - Elems(common), store[id].tree, x)
  {
    assert (common + [id])[..|common|] == common;
  }

  /** One more have adds what it is and what lies behind it, and, a commit, what lies under its tree around the
      haves before it. */
  lemma MarksMore(store: Store, common: seq<ID>, id: ID, x: ID)
    ensures x in Marks(store, common + [id]) <==>
            x in Marks(store, common) || (x in store && (Reaches(Parents, store, id, x) || AroundAt(store, common + [id], |common|, x)))
  {
    hide Reaches, AroundAt;
    ElemsConcat(common, [id]);
    assert Elems([id]) == {id};
    forall i: nat | i < |common|
      ensures AroundAt(store, common + [id], i, x) <==> AroundAt(store, common, i, x)
    {
      AroundMore(store, common, id, i, x);
    }
    assert FromAny(Parents, store, Elems(common + [id]), x) <==> FromAny(Parents, store, Elems(common), x) || Reaches(Parents, store, id, x);
    if Around(store, common, x) {
      var i: nat :| i < |common| && AroundAt(store, common, i, x);
      assert AroundAt(store, common + [id], i, x);
    }
    if Around(store, common + [id], x) {
      var i: nat :| i < |common + [id]| && AroundAt(store, common + [id], i, x);
      assert i == |common| || AroundAt(store, common, i, x);
    }
  }

  lemma NoMarks(store: Store)
    ensures Marks(store, []) == {}
  {}

  /** What is marked and was not named is followed: only a have stops the marking short. */
  lemma MarksFollow(store: Store, common: seq<ID>, y: ID, z: ID)
    requires Sound(store) && y in Marks(store, common) && y !in common && IsTree(store, y) && Step(Everything, store, y, z)
    ensures z in Marks(store, common)
  {
    hide Reaches, Sound;
    ContentStep(store, y, z);
    if FromAny(Parents, store, Elems(common), y) {
      NotBehind(store, common, y);
    }
    var i: nat :| i < |common| && AroundAt(store, common, i, y);
    ReachStep(Everything, store - Elems(common[..i]), store[common[i]].tree, y, z);
    assert AroundAt(store, common, i, z);
  }

  /** Only commits lie behind an object, but for itself. */
  lemma BehindIs(store: Store, id: ID, x: ID)
    requires Sound(store) && id in store && Reaches(Parents, store, id, x)
    ensures x == id || (IsCommit(store, id) && IsCommit(store, x))
  {
    hide Reaches;
    var s := iset y | y == id || (IsCommit(store, id) && IsCommit(store, y));
    Confined(Parents, store, s, id, x);
  }

  lemma NotBehind(store: Store, common: seq<ID>, y: ID)
    requires Sound(store) && IsTree(store, y) && y !in common
    ensures !FromAny(Parents, store, Elems(common), y)
  {
    hide Reaches, Sound;
    forall c | c in Elems(common) && Reaches(Parents, store, c, y)
      ensures false
    {
      var s := iset x | x in common || IsCommit(store, x);
      ParentsAreCommits(store, s);
      Confined(Parents, store, s, c, y);
    }
  }

  lemma ParentsAreCommits(store: Store, s: iset<ID>)
    requires Sound(store) && forall x | IsCommit(store, x) :: x in s
    ensures forall x, y | x in s && Step(Parents, store, x, y) :: y in s
  {}

  /** Marking a have that is no commit. */
  lemma MarksOther(store: Store, common: seq<ID>, id: ID)
    requires Sound(store) && id in store && !IsCommit(store, id)
    ensures Marks(store, common + [id]) == Marks(store, common) + {id}
  {
    hide Sound, Marks, Reaches;
    ReachSelf(Parents, store, id);
    forall x
      ensures x in Marks(store, common + [id]) <==> x in Marks(store, common) + {id}
    {
      MarksMore(store, common, id, x);
      AroundLast(store, common, id, x);
      if Reaches(Parents, store, id, x) {
        BehindIs(store, id, x);
      }
    }
  }

  /** What marking the tree of a commit adds is what lies under it around the haves before it. */
  lemma MarkedTree(store: Store, common: seq<ID>, root: ID, skip: set<ID>, skip1: set<ID>, x: ID)
    requires Sound(store) && skip == Marks(store, common) && Elems(common) <= skip && IsContent(store, root)
    requires Marking(store, root, skip, skip1, {})
    ensures x in skip1 - skip ==> Reaches(Everything, store - Elems(common), root, x)
    ensures Reaches(Everything, store - Elems(common), root, x) ==> x in skip1
  {
    hide Sound, Marks, Reaches, Listed;
    if x in skip1 - skip {
      AroundOne(store, skip, Elems(common), root, x);
    }
    if Reaches(Everything, store - Elems(common), root, x) {
      var s := iset y | y in skip1 && IsContent(store, y);
      forall y, z | y in s && Step(Everything, store - Elems(common), y, z)
        ensures z in s
      {
        assert Step(Everything, store, y, z);
        ContentStep(store, y, z);
        if y in skip {
          MarksFollow(store, common, y, z);
        } else {
          MarkedFollow(store, root, skip, skip1, y, z);
        }
      }
      Confined(Everything, store - Elems(common), s, root, x);
    }
  }

  lemma MarkedFollow(store: Store, root: ID, had: set<ID>, skip: set<ID>, y: ID, z: ID)
    requires Sound(store) && Marking(store, root, had, skip, {}) && y in skip - had && Step(Everything, store, y, z)
    ensures z in skip
  {
    hide FromAny, Listed;
  }

  /** Marking a commit: its tree, and the history behind it. */
  lemma MarksCommit(store: Store, common: seq<ID>, c: ID, skip: set<ID>, skip1: set<ID>, skip2: set<ID>)
    requires Sound(store) && skip == Marks(store, common) && Elems(common) <= skip && IsCommit(store, c)
    requires Marking(store, store[c].tree, skip, skip1, {})
    requires Tracing(store, c, skip1, skip2, {}) && Followed(Parents, store, skip2, skip2)
    ensures skip2 == Marks(store, common + [c])
  {
    hide Sound, Marks, Reaches, Marking, AroundAt;
    TreeIsContent(store, c);
    forall x
      ensures x in skip2 <==> x in Marks(store, common + [c])
    {
      MarksMore(store, common, c, x);
      AroundLast(store, common, c, x);
      MarkedTree(store, common, store[c].tree, skip, skip1, x);
      MarkedBehind(store, c, skip1, skip2, x);
      if Reaches(Everything, store - Elems(common), store[c].tree, x) {
        HeldUnder(store, Elems(common), c, x);
      }
      MarkingGrows(store, store[c].tree, skip, skip1);
    }
  }

  lemma MarkingGrows(store: Store, root: ID, skip: set<ID>, skip1: set<ID>)
    requires Marking(store, root, skip, skip1, {})
    ensures skip <= skip1
  {}

  lemma HeldUnder(store: Store, avoid: set<ID>, c: ID, x: ID)
    requires Sound(store) && IsCommit(store, c) && Reaches(Everything, store - avoid, store[c].tree, x)
    ensures IsContent(store, x)
  {
    hide Sound, Reaches;
    Unpruned(store, avoid, {}, store[c].tree, x);
    TreeIsContent(store, c);
    ContentUnder(store, store[c].tree, x);
  }

  lemma MarkedBehind(store: Store, c: ID, skip1: set<ID>, skip2: set<ID>, x: ID)
    requires Sound(store) && IsCommit(store, c)
    requires Tracing(store, c, skip1, skip2, {}) && Followed(Parents, store, skip2, skip2)
    ensures skip1 <= skip2 && (x in skip2 - skip1 ==> x in store && Reaches(Parents, store, c, x))
    ensures Reaches(Parents, store, c, x) ==> x in skip2
  {
    hide Sound, Reaches;
    if x in skip2 - skip1 {
      assert FromAny(Parents, store, {c}, x);
    }
    if Reaches(Parents, store, c, x) {
      var s := iset y | y in skip2;
      Confined(Parents, store, s, c, x);
    }
  }

  // ---- Haves that name trees ----

  /** What lies under the tree of a have is marked, or lies under a have before it that the tree reaches. */
  lemma Detours(store: Store, common: seq<ID>, i: nat, x: ID)
    requires i < |common| && IsCommit(store, common[i]) && Reaches(Everything, store, store[common[i]].tree, x)
    ensures AroundAt(store, common, i, x) || exists j: nat :: j < i && Through(store, common, i, j, x)
  {
    hide Reaches;
    var root, avoid := store[common[i]].tree, Elems(common[..i]);
    var s := iset y | Reaches(Everything, store - avoid, root, y) || exists j: nat :: j < i && Through(store, common, i, j, y);
    forall y, z | y in s && Step(Everything, store, y, z)
      ensures z in s
    {
      if j: nat :| j < i && Through(store, common, i, j, y) {
        ReachStep(Everything, store, common[j], y, z);
        assert Through(store, common, i, j, z);
      } else if y in avoid {
        Unpruned(store, avoid, {}, root, y);
        var j: nat :| j < i && common[..i][j] == y;
        ReachSelf(Everything, store, y);
        ReachStep(Everything, store, y, y, z);
        assert Through(store, common, i, j, z);
      } else {
        ReachStep(Everything, store - avoid, root, y, z);
      }
    }
    ReachSelf(Everything, store - avoid, root);
    Confined(Everything, store, s, root, x);
  }

  /** x lies under the j-th have, which the tree of the i-th, a commit, reaches. */
  ghost predicate Through(store: Store, common: seq<ID>, i: nat, j: nat, x: ID)
    requires i < |common| && j < |common|
  {
    && IsCommit(store, common[i]) && Reaches(Everything, store, store[common[i]].tree, common[j])
    && Reaches(Everything, store, common[j], x)
  }
}
