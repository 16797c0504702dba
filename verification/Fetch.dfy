/** A fetch: which objects `packing` sends for what a client wants, given the commits it has. */
module Fetch {
  import opened GitObjects
  import opened FetchWalk
  import opened Haves

  function Peeled(store: Store, ids: set<ID>): set<ID> {
    set id | id in ids && Peel(store, id, TAG_DEPTH).Ok? :: Peel(store, id, TAG_DEPTH).value
  }

  function TagsOf(refs: seq<Ref>): set<ID> {
    set ref | ref in refs && ref.tag != ZERO :: ref.tag
  }

  /** Every annotated tag a ref names peels to the commit the ref points at. */
  ghost predicate RefsPeel(store: Store, refs: seq<Ref>) {
    forall ref | ref in refs && ref.tag != ZERO :: Peel(store, ref.tag, TAG_DEPTH) == Ok(ref.commit)
  }

  /** What is marked once the common objects `common` have been: only what they reach; every commit
      behind them, where files are blobs; and, of a sound store, exactly what the haves stand for. */
  ghost predicate Had(store: Store, common: seq<ID>, skip: set<ID>) {
    && Elems(common) <= skip && Found(Everything, store, skip, Elems(common))
    && (LeavesAreBlobs(store) ==> HadHistory(store, Elems(common), skip))
    && (Sound(store) ==> skip == Marks(store, common))
  }

  ghost predicate HadHistory(store: Store, common: set<ID>, skip: set<ID>) {
    Found(Parents, store, Commits(store, skip), common) && Followed(Parents, store, skip, skip)
  }

  lemma FoundMore(e: Edge, store: Store, xs: set<ID>, roots: set<ID>, more: set<ID>)
    requires Found(e, store, xs, roots)
    ensures Found(e, store, xs, roots + more)
  {}

  lemma HadNothing(store: Store)
    ensures Had(store, [], {})
  {
    NoMarks(store);
  }

  lemma HadOther(store: Store, common: seq<ID>, skip: set<ID>, id: ID)
    requires Had(store, common, skip) && id in store && !store[id].Commit?
    ensures Had(store, common + [id], skip + {id})
  {
    hide FromAny, LeavesAreBlobs, Sound, Marks;
    ElemsConcat(common, [id]);
    assert Elems([id]) == {id};
    FoundMore(Everything, store, skip, Elems(common), {id});
    FromSelf(Everything, store, Elems(common) + {id}, id);
    if LeavesAreBlobs(store) {
      FoundMore(Parents, store, Commits(store, skip), Elems(common), {id});
      assert Commits(store, skip + {id}) == Commits(store, skip);
    }
    if Sound(store) {
      MarksOther(store, common, id);
    }
  }

  lemma HadCommit(store: Store, common: seq<ID>, skip: set<ID>, c: ID, skip1: set<ID>, skip2: set<ID>)
    requires Had(store, common, skip) && IsCommit(store, c)
    requires Marking(store, store[c].tree, skip, skip1, {})
    requires Tracing(store, c, skip1, skip2, {})
    ensures Had(store, common + [c], skip2)
  {
    hide FromAny, LeavesAreBlobs, Sound, Marks, AllListed;
    ElemsConcat(common, [c]);
    assert Elems([c]) == {c};
    CommitFound(store, Elems(common), skip, c, skip1, skip2);
    if LeavesAreBlobs(store) {
      CommitHistory(store, Elems(common), skip, c, skip1, skip2);
    }
    if Sound(store) {
      SoundLeaves(store);
      MarksCommit(store, common, c, skip, skip1, skip2);
    }
  }

  lemma SoundLeaves(store: Store)
    requires Sound(store)
    ensures LeavesAreBlobs(store)
  {}

  lemma FoundThrough(store: Store, xs: set<ID>, a: ID, roots: set<ID>)
    requires Found(Everything, store, xs, {a}) && FromAny(Everything, store, roots, a)
    ensures Found(Everything, store, xs, roots)
  {
    forall x | x in xs
      ensures FromAny(Everything, store, roots, x)
    {
      assert FromAny(Everything, store, {a}, x);
      FromReach(Everything, store, roots, a, x);
    }
  }

  lemma FoundParents(store: Store, xs: set<ID>, roots: set<ID>)
    requires Found(Parents, store, xs, roots)
    ensures Found(Everything, store, xs, roots)
  {
    forall x | x in xs
      ensures FromAny(Everything, store, roots, x)
    {
      EveryParent(store, roots, x);
    }
  }

  lemma CommitFound(store: Store, common: set<ID>, skip: set<ID>, c: ID, skip1: set<ID>, skip2: set<ID>)
    requires Found(Everything, store, skip, common) && IsCommit(store, c)
    requires Marking(store, store[c].tree, skip, skip1, {})
    requires Tracing(store, c, skip1, skip2, {})
    ensures Found(Everything, store, skip2, common + {c})
  {
    hide FromAny, LeavesAreBlobs, AllListed;
    FoundAround(store, skip, skip1 - skip, store[c].tree);
    FoundMore(Everything, store, skip, common, {c});
    FromSelf(Everything, store, common + {c}, c);
    FromStep(Everything, store, common + {c}, c, store[c].tree);
    FoundThrough(store, skip1 - skip, store[c].tree, common + {c});
    FoundParents(store, skip2 - skip1, {c});
    FoundThrough(store, skip2 - skip1, c, common + {c});
  }

  lemma CommitHistory(store: Store, common: set<ID>, skip: set<ID>, c: ID, skip1: set<ID>, skip2: set<ID>)
    requires HadHistory(store, common, skip) && LeavesAreBlobs(store)
    requires IsCommit(store, c) && Marking(store, store[c].tree, skip, skip1, {})
    requires Tracing(store, c, skip1, skip2, {})
    ensures HadHistory(store, common + {c}, skip2)
  {
    hide LeavesAreBlobs;
    FoundMore(Parents, store, Commits(store, skip), common, {c});
    forall x | x in Commits(store, skip2)
      ensures FromAny(Parents, store, common + {c}, x)
    {
      if x !in skip {
        assert x !in Commits(store, skip1 - skip);
        assert FromAny(Parents, store, {c}, x);
      }
    }
    forall x | x in skip2 && x in store
      ensures Links(Parents, store[x]) <= skip2
    {
      if x in skip1 - skip {
        assert x !in Commits(store, skip1 - skip);
      }
    }
  }

  /** A common object is not held, or is a commit whose tree or history stops. */
  ghost predicate CommonStops(store: Store, common: seq<ID>) {
    exists c :: c in common && (c !in store || (IsCommit(store, c) && (TreeStops(store, store[c].tree) || HistoryStops(store, c))))
  }

  method MarkCommon(w: Walk, common: seq<ID>) returns (r: Outcome)
    requires w.skip == {}
    modifies w`skip
    ensures r.Fine? ==> Had(w.objects, common, w.skip)
    ensures Navigable(w.objects) && Elems(common) <= w.objects.Keys ==> r.Fine?
    ensures r.Failed? ==> CommonStops(w.objects, common) && (NoTree(w.objects, r.error) || NoCommit(w.objects, r.error))
  {
    hide Had, Marking, Tracing, TreeStops, HistoryStops;
    HadNothing(w.objects);
    for i := 0 to |common|
      invariant Had(w.objects, common[..i], w.skip)
    {
      var id := common[i];
      assert common[..i + 1] == common[..i] + [id];
      assert id in Elems(common);
      if id !in w.objects {
        return Failed(Missing(id));
      }
      ghost var skip0 := w.skip;
      if !w.objects[id].Commit? {
        HadOther(w.objects, common[..i], w.skip, id);
        w.skip := w.skip + {id};
        continue;
      }
      r := w.MarkTree(w.objects[id].tree);
      if r.Failed? {
        return;
      }
      ghost var skip1 := w.skip;
      r := w.MarkHistory(id);
      if r.Failed? {
        return;
      }
      HadCommit(w.objects, common[..i], skip0, id, skip1, w.skip);
    }
    assert common[..|common|] == common;
    return Fine;
  }

  /** x is a tag on the way from one of the objects to what it peels to. */
  ghost predicate OnTags(store: Store, ids: set<ID>, x: ID) {
    exists id :: id in ids && x in TagsOn(store, id, TAG_DEPTH)
  }

  /** What is collected once the wants have been peeled: only tags, everything they name among what is
      sent, had or still a tip. */
  ghost predicate Wanted(store: Store, wants: set<ID>, had: set<ID>, done: set<ID>, tips: set<ID>) {
    && had <= done && wants <= done + tips
    && Found(Everything, store, done - had + tips, wants)
    && (forall x | x in done - had :: x in store && store[x].Tag?)
    && Followed(Everything, store, done - had, done + tips)
    && (forall x :: x in done <==> x in had || OnTags(store, wants, x))
  }

  lemma WantedMore(store: Store, wants: set<ID>, had: set<ID>, done: set<ID>, tips: set<ID>, id: ID, done': set<ID>, tip: ID)
    requires Wanted(store, wants, had, done, tips)
    requires Peeling(store, id, done, done', tip) && done' == done + TagsOn(store, id, TAG_DEPTH)
    ensures Wanted(store, wants + {id}, had, done', tips + {tip})
  {
    hide TagsOn;
    forall x
      ensures OnTags(store, wants + {id}, x) <==> OnTags(store, wants, x) || x in TagsOn(store, id, TAG_DEPTH)
    {
      assert x in TagsOn(store, id, TAG_DEPTH) ==> id in wants + {id};
    }
    FoundMore(Everything, store, done - had + tips, wants, {id});
    forall x | x in done' - done + {tip}
      ensures FromAny(Everything, store, wants + {id}, x)
    {
      assert Reaches(Everything, store, id, x);
    }
    hide FromAny;
  }

  method AddWants(w: Walk, wants: seq<ID>) returns (r: Result<seq<ID>>)
    requires w.Valid()
    modifies w`seen, w`order
    ensures w.Valid()
    ensures r.Ok? ==> Wanted(w.objects, Elems(wants), old(w.Done()), w.Done(), Elems(r.value))
    ensures r.Ok? ==> Elems(r.value) == Peeled(w.objects, Elems(wants))
    ensures (forall id | id in wants :: Peel(w.objects, id, TAG_DEPTH).Ok?) <==> r.Ok?
  {
    hide Wanted, Peeling, Peel, TagsOn;
    var tips := [];
    WantedNothing(w.objects, w.Done());
    assert Elems(wants[..0]) == {} && Elems(tips) == {};
    for i := 0 to |wants|
      invariant w.Valid()
      invariant Wanted(w.objects, Elems(wants[..i]), old(w.Done()), w.Done(), Elems(tips))
      invariant Elems(tips) == Peeled(w.objects, Elems(wants[..i]))
      invariant forall j | 0 <= j < i :: Peel(w.objects, wants[j], TAG_DEPTH).Ok?
    {
      ghost var done := w.Done();
      assert wants[..i + 1] == wants[..i] + [wants[i]];
      ElemsConcat(wants[..i], [wants[i]]);
      var tip := w.PeelTags(wants[i]);
      if tip.Err? {
        return Err(tip.error);
      }
      WantedMore(w.objects, Elems(wants[..i]), old(w.Done()), done, Elems(tips), wants[i], w.Done(), tip.value);
      ElemsConcat(tips, [tip.value]);
      assert Elems([wants[i]]) == {wants[i]} && Elems([tip.value]) == {tip.value};
      tips := tips + [tip.value];
    }
    assert wants[..|wants|] == wants;
    return Ok(tips);
  }

  lemma WantedNothing(store: Store, had: set<ID>)
    ensures Wanted(store, {}, had, had, {})
  {}

  /** What is collected once the tags on what is sent have been. */
  ghost predicate Tagged(store: Store, refs: seq<Ref>, had: set<ID>, done: set<ID>) {
    && had <= done
    && (forall x | x in done - had :: x in store && store[x].Tag?)
    && Found(Everything, store, done - had, TagsOf(refs))
    && (RefsPeel(store, refs) ==> Followed(Everything, store, done - had, done))
  }

  lemma TaggedMore(store: Store, refs: seq<Ref>, had: set<ID>, done: set<ID>, ref: Ref, done': set<ID>, tip: ID)
    requires Tagged(store, refs, had, done) && ref in refs && ref.tag != ZERO && ref.commit in done
    requires Peel(store, ref.tag, TAG_DEPTH) == Ok(tip) && Peeling(store, ref.tag, done, done', tip)
    ensures Tagged(store, refs, had, done')
  {
    hide Peel, Reaches;
    assert ref.tag in TagsOf(refs);
    forall x | x in done' - done
      ensures FromAny(Everything, store, TagsOf(refs), x)
    {
      assert Reaches(Everything, store, ref.tag, x);
    }
  }

  /** A ref an annotated tag of which may have to be sent. */
  predicate Points(ref: Ref) {
    ref.tag != ZERO && ref.commit != ZERO
  }

  /** Of the refs whose commits were sent or had, every tag down to the commit is; and no tag is but of a ref
      whose commit is too. */
  ghost predicate RefTags(store: Store, refs: seq<Ref>, had: set<ID>, done: set<ID>) {
    && had <= done
    && (forall ref | ref in refs && Points(ref) && ref.commit in had :: TagsOn(store, ref.tag, TAG_DEPTH) <= done)
    && (forall x | x in done - had :: TagOf(store, refs, done, x))
  }

  ghost predicate TagOf(store: Store, refs: seq<Ref>, done: set<ID>, x: ID) {
    exists ref :: ref in refs && Points(ref) && ref.commit in done && x in TagsOn(store, ref.tag, TAG_DEPTH)
  }

  lemma TagOfMore(store: Store, refs: seq<Ref>, more: seq<Ref>, done: set<ID>, done': set<ID>, x: ID)
    requires TagOf(store, refs, done, x) && done <= done' && forall ref | ref in refs :: ref in more
    ensures TagOf(store, more, done', x)
  {
    hide TagsOn;
    var ref :| ref in refs && Points(ref) && ref.commit in done && x in TagsOn(store, ref.tag, TAG_DEPTH);
    assert ref in more;
  }

  lemma RefTagsMore(store: Store, refs: seq<Ref>, i: nat, had: set<ID>, done: set<ID>, done': set<ID>)
    requires i < |refs| && RefTags(store, refs[..i], had, done)
    requires if Points(refs[i]) && refs[i].commit in done then done' == done + TagsOn(store, refs[i].tag, TAG_DEPTH) else done' == done
    ensures RefTags(store, refs[..i + 1], had, done')
  {
    hide TagsOn, TagOf;
    assert refs[..i + 1] == refs[..i] + [refs[i]];
    forall x | x in done' - had
      ensures TagOf(store, refs[..i + 1], done', x)
    {
      if x in done {
        TagOfMore(store, refs[..i], refs[..i + 1], done, done', x);
      } else {
        TagOfLast(store, refs[..i + 1], refs[i], done', x);
      }
    }
  }

  lemma TagOfLast(store: Store, refs: seq<Ref>, ref: Ref, done: set<ID>, x: ID)
    requires ref in refs && Points(ref) && ref.commit in done && x in TagsOn(store, ref.tag, TAG_DEPTH)
    ensures TagOf(store, refs, done, x)
  {}

  lemma NoRefTags(store: Store, had: set<ID>)
    ensures RefTags(store, [], had, had)
  {}

  /** Sends the annotated tags pointing at what is sent or had. */
  method AddTags(w: Walk, refs: seq<Ref>) returns (r: Outcome)
    requires w.Valid()
    modifies w`seen, w`order
    ensures w.Valid()
    ensures r.Fine? ==> Tagged(w.objects, refs, old(w.Done()), w.Done())
    ensures r.Fine? ==> RefTags(w.objects, refs, old(w.Done()), w.Done())
    ensures RefsPeel(w.objects, refs) ==> r.Fine?
    ensures r.Failed? ==> exists ref :: ref in refs && ref.tag != ZERO && Peel(w.objects, ref.tag, TAG_DEPTH).Err?
  {
    hide Tagged, Peeling, Peel, TagsOn, RefTags;
    TaggedNothing(w.objects, refs, w.Done());
    NoRefTags(w.objects, w.Done());
    for i := 0 to |refs|
      invariant w.Valid()
      invariant Tagged(w.objects, refs, old(w.Done()), w.Done())
      invariant RefTags(w.objects, refs[..i], old(w.Done()), w.Done())
    {
      var ref := refs[i];
      ghost var before := w.Done();
      if ref.tag == ZERO || ref.commit == ZERO {
        RefTagsMore(w.objects, refs, i, old(w.Done()), before, before);
        continue;
      }
      if ref.commit in w.seen || ref.commit in w.skip {
        ghost var done := w.Done();
        var tip := w.PeelTags(ref.tag);
        if tip.Err? {
          return Failed(tip.error);
        }
        TaggedMore(w.objects, refs, old(w.Done()), done, ref, w.Done(), tip.value);
      }
      RefTagsMore(w.objects, refs, i, old(w.Done()), before, w.Done());
    }
    assert refs[..|refs|] == refs;
    return Fine;
  }

  lemma TaggedNothing(store: Store, refs: seq<Ref>, had: set<ID>)
    ensures Tagged(store, refs, had, had)
  {}

  /** Everything the wants reach is sent, or reached from what the client has. */
  ghost predicate Complete(store: Store, wants: set<ID>, common: set<ID>, sent: set<ID>) {
    forall x | FromAny(Everything, store, wants, x) :: x in sent || FromAny(Everything, store, common, x)
  }

  /** The commits sent are those behind the peeled wants and not behind a common commit. */
  ghost predicate ExactCommits(store: Store, wants: set<ID>, common: set<ID>, sent: set<ID>) {
    forall x | IsCommit(store, x) ::
      x in sent <==> FromAny(Parents, store, Peeled(store, wants), x) && !FromAny(Parents, store, common, x)
  }

  /** Nothing is sent but what the wants, or the tags of the refs, reach. */
  ghost predicate OnlyWanted(store: Store, wants: set<ID>, tags: set<ID>, sent: set<ID>) {
    forall x | x in sent :: FromAny(Everything, store, wants + tags, x)
  }

  /** Whatever an object sent names is sent too, or reached from what the client has. */
  ghost predicate SelfContained(store: Store, common: set<ID>, sent: set<ID>) {
    forall x, y | x in sent && Step(Everything, store, x, y) :: y in sent || FromAny(Everything, store, common, y)
  }

  /** The trees of the common commits, and everything under them, are left out. */
  ghost predicate TreesLeftOut(store: Store, common: set<ID>, sent: set<ID>) {
    forall c, x | c in common && IsCommit(store, c) && Reaches(Everything, store, store[c].tree, x) :: x !in sent
  }

  /** A commit the client lacks: behind a peeled want, and behind no common commit. */
  ghost predicate New(store: Store, wants: set<ID>, common: set<ID>, n: ID) {
    IsCommit(store, n) && FromAny(Parents, store, Peeled(store, wants), n) && !FromAny(Parents, store, common, n)
  }

  /** Content the client is not taken to have, under the tree of a commit it lacks, around what it is. */
  ghost predicate Fresh(store: Store, wants: set<ID>, common: seq<ID>, x: ID) {
    && x !in Marks(store, common)
    && exists n :: New(store, wants, Elems(common), n) && Reaches(Everything, store - Marks(store, common), store[n].tree, x)
  }

  /** The trees and blobs sent are exactly the fresh ones. */
  ghost predicate ExactContent(store: Store, wants: set<ID>, common: seq<ID>, sent: set<ID>) {
    forall x | IsContent(store, x) :: x in sent <==> Fresh(store, wants, common, x)
  }

  /** No tree named as a have comes before a commit whose tree reaches it and hides anything fresh. */
  ghost predicate Harmless(store: Store, wants: set<ID>, common: seq<ID>) {
    forall i: nat, j: nat, x | j < i < |common| && IsTree(store, common[j]) && Through(store, common, i, j, x) ::
      !Fresh(store, wants, common, x)
  }

  /** What is sent is a tag, a commit behind a peeled want, or listed under the tree of one: what a tree lists as a
      file is sent and not followed, whatever it is. */
  ghost predicate OnlyListed(store: Store, wants: set<ID>, sent: set<ID>) {
    forall x | x in sent ::
      (x in store && store[x].Tag?) || FromAny(Parents, store, Peeled(store, wants), x) || ListedByOne(store, Peeled(store, wants), x)
  }

  ghost predicate WantsSent(store: Store, wants: set<ID>, common: set<ID>, sent: set<ID>) {
    forall x | x in wants :: x in sent || FromAny(Everything, store, common, x)
  }

  /** Every tag on the way from a want is sent, and from a ref whose commit is, but those reached from what the
      client has. */
  ghost predicate TagsSent(store: Store, wants: set<ID>, common: set<ID>, refs: seq<Ref>, sent: set<ID>) {
    && (forall x | OnTags(store, wants, x) :: x in sent || FromAny(Everything, store, common, x))
    && (forall ref, x | ref in refs && Points(ref) && ref.commit in sent && NoTag(store, ref.commit) && x in TagsOn(store, ref.tag, TAG_DEPTH) ::
          x in sent || FromAny(Everything, store, common, x))
  }

  predicate NoTag(store: Store, id: ID) {
    !(id in store && store[id].Tag?)
  }

  /** The tags sent are exactly those, of wants and of refs whose commits are sent or had, that are no haves. */
  ghost predicate ExactTags(store: Store, wants: set<ID>, common: seq<ID>, refs: seq<Ref>, sent: set<ID>) {
    forall x | x in store && store[x].Tag? ::
      x in sent <==> x !in common && (OnTags(store, wants, x) || TagOf(store, refs, sent + Marks(store, common), x))
  }

  /** What a fetch promises of the objects sent for `wants` to a client that has `common`. */
  ghost predicate Answers(store: Store, wants: set<ID>, common: seq<ID>, refs: seq<Ref>, sent: set<ID>) {
    && sent !! Elems(common)
    && OnlyWanted(store, wants, TagsOf(refs), sent)
    && OnlyListed(store, wants, sent) && WantsSent(store, wants, Elems(common), sent)
    && (LeavesAreBlobs(store) ==> Complete(store, wants, Elems(common), sent))
    && (LeavesAreBlobs(store) ==> ExactCommits(store, wants, Elems(common), sent))
    && (LeavesAreBlobs(store) && RefsPeel(store, refs) ==> SelfContained(store, Elems(common), sent))
    && TagsSent(store, wants, Elems(common), refs, sent)
    && (Sound(store) && RefsPeel(store, refs) ==> ExactTags(store, wants, common, refs, sent))
    && (Sound(store) ==> ExactContent(store, wants, common, sent))
    && (Sound(store) ==> (TreesLeftOut(store, Elems(common), sent) <==> Harmless(store, wants, common)))
  }

  /** What the walk of the wants leaves: everything it sent is followed into what is sent or had. */
  lemma Walked(store: Store, wants: set<ID>, skip: set<ID>, peeled: set<ID>, walked: set<ID>)
    requires Wanted(store, wants, skip, peeled, Peeled(store, wants))
    requires Collecting(store, Peeled(store, wants), peeled, walked, {})
    ensures skip <= walked && wants <= walked && Peeled(store, wants) <= walked
    ensures LeavesAreBlobs(store) ==> Followed(Everything, store, walked - skip, walked)
    ensures LeavesAreBlobs(store) ==> Found(Parents, store, Commits(store, walked - skip), Peeled(store, wants))
  {
    hide FromAny, LeavesAreBlobs, Peel;
    if LeavesAreBlobs(store) {
      assert Commits(store, walked - skip) == Commits(store, walked - peeled);
    }
  }

  lemma WalkedOnly(store: Store, wants: set<ID>, skip: set<ID>, peeled: set<ID>, walked: set<ID>)
    requires Wanted(store, wants, skip, peeled, Peeled(store, wants))
    requires Collecting(store, Peeled(store, wants), peeled, walked, {})
    ensures Found(Everything, store, walked - skip, wants)
  {
    hide LeavesAreBlobs, Peel;
    forall x | x in walked - peeled
      ensures FromAny(Everything, store, wants, x)
    {
      var t :| t in Peeled(store, wants) && Reaches(Everything, store, t, x);
      FromReach(Everything, store, wants, t, x);
    }
  }

  lemma CompleteHolds(store: Store, wants: set<ID>, common: set<ID>, skip: set<ID>, walked: set<ID>, sent: set<ID>)
    requires wants <= walked && Followed(Everything, store, walked - skip, walked)
    requires Found(Everything, store, skip, common) && walked <= sent + skip
    ensures Complete(store, wants, common, sent)
  {
    var s := iset y | y in walked - skip || FromAny(Everything, store, common, y);
    forall x, y | x in s && Step(Everything, store, x, y)
      ensures y in s
    {
      if x in walked - skip {
        assert y in walked;
      } else {
        FromStep(Everything, store, common, x, y);
      }
    }
    forall x | FromAny(Everything, store, wants, x)
      ensures x in s
    {
      var w :| w in wants && Reaches(Everything, store, w, x);
      Confined(Everything, store, s, w, x);
    }
  }

  lemma ExactHolds(store: Store, wants: set<ID>, common: set<ID>, skip: set<ID>, walked: set<ID>)
    requires common <= skip <= walked && Peeled(store, wants) <= walked
    requires HadHistory(store, common, skip) && Followed(Everything, store, walked - skip, walked)
    requires Found(Parents, store, Commits(store, walked - skip), Peeled(store, wants))
    ensures ExactCommits(store, wants, common, walked - skip)
  {
    forall x | IsCommit(store, x)
      ensures x in walked - skip <==> FromAny(Parents, store, Peeled(store, wants), x) && !FromAny(Parents, store, common, x)
    {
      if FromAny(Parents, store, common, x) {
        var c :| c in common && Reaches(Parents, store, c, x);
        var had := iset y | y in skip;
        Confined(Parents, store, had, c, x);
      }
      if x in walked - skip {
        assert x in Commits(store, walked - skip);
      } else if FromAny(Parents, store, Peeled(store, wants), x) {
        var t :| t in Peeled(store, wants) && Reaches(Parents, store, t, x);
        var all := iset y | y in walked;
        assert forall y, z :: y in all && Step(Parents, store, y, z) ==> z in Links(Everything, store[y]);
        Confined(Parents, store, all, t, x);
      }
    }
  }

  /** Once the commits sent are exact, so is the content. */
  lemma ContentHolds(store: Store, wants: set<ID>, common: seq<ID>, skip: set<ID>, peeled: set<ID>, walked: set<ID>)
    requires Sound(store) && skip == Marks(store, common) && skip <= peeled <= walked
    requires forall x | x in peeled - skip :: x in store && store[x].Tag?
    requires Took(store, Peeled(store, wants), peeled, walked)
    requires ExactCommits(store, wants, Elems(common), walked - skip)
    requires Followed(Everything, store, walked - skip, walked)
    ensures ExactContent(store, wants, common, walked - skip)
  {
    hide FromAny, Sound, Marks, Reaches, ListedByOne, Peel;
    forall x | IsContent(store, x)
      ensures x in walked - skip <==> Fresh(store, wants, common, x)
    {
      if x in walked - skip {
        assert x in walked - peeled;
        ContentTaken(store, wants, common, peeled, walked, x);
      } else if Fresh(store, wants, common, x) {
        var n :| New(store, wants, Elems(common), n) && Reaches(Everything, store - skip, store[n].tree, x);
        assert n in walked - skip;
        TakenUnder(store, skip, walked, n, x);
      }
    }
  }

  lemma ContentTaken(store: Store, wants: set<ID>, common: seq<ID>, peeled: set<ID>, walked: set<ID>, x: ID)
    requires Marks(store, common) <= peeled <= walked && x in walked - peeled && IsContent(store, x)
    requires Took(store, Peeled(store, wants), peeled, walked)
    requires ExactCommits(store, wants, Elems(common), walked - Marks(store, common))
    ensures Fresh(store, wants, common, x)
  {
    hide FromAny, Marks, Reaches, ListedByOne, Peel;
    assert UnderOne(store, peeled, walked - peeled, x);
    var n :| n in walked - peeled && IsCommit(store, n) && Reaches(Everything, store - peeled, store[n].tree, x);
    Unpruned(store, peeled, Marks(store, common), store[n].tree, x);
    assert New(store, wants, Elems(common), n);
  }

  /** A walk that follows what it takes takes whatever lies around what was had. */
  lemma TakenUnder(store: Store, skip: set<ID>, walked: set<ID>, n: ID, x: ID)
    requires Followed(Everything, store, walked - skip, walked) && n in walked - skip && IsCommit(store, n)
    requires Reaches(Everything, store - skip, store[n].tree, x)
    ensures x in walked
  {
    hide Reaches;
    var s := iset y | y in walked;
    assert store[n].tree in Links(Everything, store[n]);
    Confined(Everything, store - skip, s, store[n].tree, x);
  }

  lemma ContentMore(store: Store, wants: set<ID>, common: seq<ID>, walked: set<ID>, sent: set<ID>)
    requires ExactContent(store, wants, common, walked) && walked <= sent
    requires forall x | x in sent - walked :: x in store && store[x].Tag?
    ensures ExactContent(store, wants, common, sent)
  {
    hide Fresh;
  }

  /** What the common commits' trees hold is left out exactly where no tree among the haves stands in the way. */
  lemma LeftOutExactly(store: Store, wants: set<ID>, common: seq<ID>, sent: set<ID>)
    requires Sound(store) && ExactContent(store, wants, common, sent)
    ensures TreesLeftOut(store, Elems(common), sent) <==> Harmless(store, wants, common)
  {
    hide Reaches, Fresh, Sound, ExactContent;
    if Harmless(store, wants, common) {
      forall c, x | c in Elems(common) && IsCommit(store, c) && Reaches(Everything, store, store[c].tree, x)
        ensures x !in sent
      {
        var i: nat :| i < |common| && common[i] == c;
        LeftOut(store, wants, common, sent, i, x);
      }
    }
    if TreesLeftOut(store, Elems(common), sent) {
      forall i: nat, j: nat, x | j < i < |common| && IsTree(store, common[j]) && Through(store, common, i, j, x)
        ensures !Fresh(store, wants, common, x)
      {
        ReachTrans(Everything, store, store[common[i]].tree, common[j], x);
        TreeIsContent(store, common[i]);
        ContentUnder(store, store[common[i]].tree, x);
        assert common[i] in Elems(common);
        assert x in sent <==> Fresh(store, wants, common, x) by { ContentIs(store, wants, common, sent, x); }
      }
    }
  }

  lemma ContentIs(store: Store, wants: set<ID>, common: seq<ID>, sent: set<ID>, x: ID)
    requires ExactContent(store, wants, common, sent) && IsContent(store, x)
    ensures x in sent <==> Fresh(store, wants, common, x)
  {
    hide Fresh;
  }

  lemma LeftOut(store: Store, wants: set<ID>, common: seq<ID>, sent: set<ID>, i: nat, x: ID)
    requires Sound(store) && ExactContent(store, wants, common, sent) && Harmless(store, wants, common)
    requires i < |common| && IsCommit(store, common[i]) && Reaches(Everything, store, store[common[i]].tree, x)
    ensures x !in sent
  {
    hide Reaches, Sound, ExactContent;
    TreeIsContent(store, common[i]);
    ContentUnder(store, store[common[i]].tree, x);
    ContentIs(store, wants, common, sent, x);
    Detours(store, common, i, x);
    if !AroundAt(store, common, i, x) {
      var j: nat :| j < i && Through(store, common, i, j, x);
      ContentUnder(store, store[common[i]].tree, common[j]);
      if !IsTree(store, common[j]) {
        BlobEnds(store, common[j], x);
        FromSelf(Parents, store, Elems(common), x);
      }
    }
  }

  lemma BlobEnds(store: Store, b: ID, x: ID)
    requires b in store && store[b].Blob? && Reaches(Everything, store, b, x)
    ensures x == b
  {
    var s := iset{b};
    Confined(Everything, store, s, b, x);
  }

  /** Where every tree among the haves comes after every commit, none stands in the way. */
  lemma TreesLastHarmless(store: Store, wants: set<ID>, common: seq<ID>)
    requires forall i, j | 0 <= j < i < |common| :: !(IsTree(store, common[j]) && IsCommit(store, common[i]))
    ensures Harmless(store, wants, common)
  {
    hide Fresh;
  }

  lemma PhasesAnswer(store: Store, wants: set<ID>, common: seq<ID>, refs: seq<Ref>, skip: set<ID>, sent: set<ID>, peeled: set<ID>, walked: set<ID>)
    requires Had(store, common, skip) && sent !! skip
    requires Wanted(store, wants, skip, peeled, Peeled(store, wants))
    requires Collecting(store, Peeled(store, wants), peeled, walked, {})
    requires Tagged(store, refs, walked, sent + skip) && RefTags(store, refs, walked, sent + skip)
    ensures Answers(store, wants, common, refs, sent)
  {
    hide FromAny, Peel, LeavesAreBlobs, Sound, Wanted, Collecting, HadHistory, Complete, ExactCommits, TreesLeftOut, SelfContained;
    hide Marks, ExactContent, Harmless, OnlyListed, TagsSent, ExactTags, RefTags, OnlyWanted, WantsSent, Tagged, RefsPeel;
    TagsAreSent(store, wants, common, refs, skip, sent, peeled, walked);
    WalkedListed(store, wants, refs, skip, peeled, walked, sent);
    OnlyWantedHolds(store, wants, common, refs, skip, sent, peeled, walked);
    if LeavesAreBlobs(store) {
      PhasesTyped(store, wants, common, refs, skip, sent, peeled, walked);
    }
    if Sound(store) {
      PhasesSound(store, wants, common, refs, skip, sent, peeled, walked);
      if RefsPeel(store, refs) {
        TagsAreExact(store, wants, common, refs, skip, sent, peeled, walked);
      }
    }
  }

  lemma OnlyWantedHolds(store: Store, wants: set<ID>, common: seq<ID>, refs: seq<Ref>, skip: set<ID>, sent: set<ID>, peeled: set<ID>, walked: set<ID>)
    requires Had(store, common, skip) && sent !! skip
    requires Wanted(store, wants, skip, peeled, Peeled(store, wants))
    requires Collecting(store, Peeled(store, wants), peeled, walked, {})
    requires Tagged(store, refs, walked, sent + skip)
    ensures sent !! Elems(common)
    ensures OnlyWanted(store, wants, TagsOf(refs), sent) && WantsSent(store, wants, Elems(common), sent)
  {
    hide FromAny, Peel, LeavesAreBlobs, Sound, Wanted, Collecting, HadHistory, Marks, RefsPeel;
    Walked(store, wants, skip, peeled, walked);
    WalkedOnly(store, wants, skip, peeled, walked);
    FoundMore(Everything, store, walked - skip, wants, TagsOf(refs));
    FoundMore(Everything, store, sent + skip - walked, TagsOf(refs), wants);
    assert TagsOf(refs) + wants == wants + TagsOf(refs);
    assert sent <= (walked - skip) + (sent + skip - walked);
  }

  lemma PhasesTyped(store: Store, wants: set<ID>, common: seq<ID>, refs: seq<Ref>, skip: set<ID>, sent: set<ID>, peeled: set<ID>, walked: set<ID>)
    requires Had(store, common, skip) && sent !! skip && LeavesAreBlobs(store)
    requires Wanted(store, wants, skip, peeled, Peeled(store, wants))
    requires Collecting(store, Peeled(store, wants), peeled, walked, {})
    requires Tagged(store, refs, walked, sent + skip)
    ensures Complete(store, wants, Elems(common), sent) && ExactCommits(store, wants, Elems(common), walked - skip)
    ensures ExactCommits(store, wants, Elems(common), sent) && (RefsPeel(store, refs) ==> SelfContained(store, Elems(common), sent))
  {
    hide FromAny, Peel, LeavesAreBlobs, Sound, Wanted, Collecting, HadHistory, Marks, Complete, ExactCommits, SelfContained, RefsPeel;
    Walked(store, wants, skip, peeled, walked);
    CompleteHolds(store, wants, Elems(common), skip, walked, sent);
    ExactHolds(store, wants, Elems(common), skip, walked);
    ExactMore(store, wants, Elems(common), walked - skip, sent);
    if RefsPeel(store, refs) {
      ContainedHolds(store, Elems(common), skip, sent);
    }
  }

  lemma PhasesSound(store: Store, wants: set<ID>, common: seq<ID>, refs: seq<Ref>, skip: set<ID>, sent: set<ID>, peeled: set<ID>, walked: set<ID>)
    requires Had(store, common, skip) && sent !! skip && Sound(store)
    requires Wanted(store, wants, skip, peeled, Peeled(store, wants))
    requires Collecting(store, Peeled(store, wants), peeled, walked, {})
    requires Tagged(store, refs, walked, sent + skip)
    ensures ExactContent(store, wants, common, sent)
    ensures TreesLeftOut(store, Elems(common), sent) <==> Harmless(store, wants, common)
  {
    hide FromAny, Peel, LeavesAreBlobs, Sound, Wanted, Collecting, HadHistory, Marks, Complete, ExactCommits, SelfContained, ExactContent, Harmless, TreesLeftOut, RefsPeel;
    SoundLeaves(store);
    Walked(store, wants, skip, peeled, walked);
    PhasesTyped(store, wants, common, refs, skip, sent, peeled, walked);
    WalkedTook(store, wants, skip, peeled, walked);
    ContentHolds(store, wants, common, skip, peeled, walked);
    ContentMore(store, wants, common, walked - skip, sent);
    LeftOutExactly(store, wants, common, sent);
  }

  lemma TagsAreSent(store: Store, wants: set<ID>, common: seq<ID>, refs: seq<Ref>, skip: set<ID>, sent: set<ID>, peeled: set<ID>, walked: set<ID>)
    requires Had(store, common, skip) && sent !! skip
    requires Wanted(store, wants, skip, peeled, Peeled(store, wants))
    requires Collecting(store, Peeled(store, wants), peeled, walked, {})
    requires Tagged(store, refs, walked, sent + skip) && RefTags(store, refs, walked, sent + skip)
    ensures TagsSent(store, wants, Elems(common), refs, sent)
  {
    hide FromAny, Peel, LeavesAreBlobs, Sound, HadHistory, Marks, Took, RefsPeel, TagsOn, OnTags, TagOf;
    assert peeled <= walked <= sent + skip;
  }

  lemma TagsAreExact(store: Store, wants: set<ID>, common: seq<ID>, refs: seq<Ref>, skip: set<ID>, sent: set<ID>, peeled: set<ID>, walked: set<ID>)
    requires Had(store, common, skip) && sent !! skip && Sound(store) && RefsPeel(store, refs)
    requires Wanted(store, wants, skip, peeled, Peeled(store, wants))
    requires Collecting(store, Peeled(store, wants), peeled, walked, {})
    requires Tagged(store, refs, walked, sent + skip) && RefTags(store, refs, walked, sent + skip)
    ensures ExactTags(store, wants, common, refs, sent)
  {
    hide FromAny, Peel, LeavesAreBlobs, Sound, HadHistory, Marks, Took, TagsOn, OnTags, TagOf;
    forall x | x in store && store[x].Tag?
      ensures x in sent <==> x !in common && (OnTags(store, wants, x) || TagOf(store, refs, sent + Marks(store, common), x))
    {
      TagMarked(store, common, x);
      if x in walked - peeled {
        NoTagTook(store, Peeled(store, wants), peeled, walked, x);
      }
      if TagOf(store, refs, sent + skip, x) {
        TagOfDone(store, refs, walked, sent + skip, x);
      }
    }
  }

  /** A tag of a sound store is marked only as a have itself. */
  lemma TagMarked(store: Store, common: seq<ID>, x: ID)
    requires Sound(store) && x in store && store[x].Tag?
    ensures x in Marks(store, common) <==> x in common
  {
    hide Reaches, Sound;
    if FromAny(Parents, store, Elems(common), x) && x !in common {
      TagNotBehind(store, common, x);
    }
    forall i: nat | i < |common|
      ensures !AroundAt(store, common, i, x)
    {
      if AroundAt(store, common, i, x) {
        HeldUnder(store, Elems(common[..i]), common[i], x);
      }
    }
    if x in common {
      FromSelf(Parents, store, Elems(common), x);
    }
  }

  lemma TagNotBehind(store: Store, common: seq<ID>, x: ID)
    requires Sound(store) && x in store && store[x].Tag? && FromAny(Parents, store, Elems(common), x)
    ensures x in common
  {
    hide Reaches, Sound;
    var c :| c in Elems(common) && Reaches(Parents, store, c, x);
    var s := iset y | y in common || IsCommit(store, y);
    ParentsAreCommits(store, s);
    Confined(Parents, store, s, c, x);
  }

  /** The walk of a sound store takes no tag. */
  lemma NoTagTook(store: Store, tips: set<ID>, had: set<ID>, done: set<ID>, x: ID)
    requires Sound(store) && Took(store, tips, had, done) && x in done - had && x in store
    ensures !store[x].Tag?
  {
    hide Reaches, Sound, FromAny, ListedByOne;
    if !IsCommit(store, x) {
      var n :| n in done - had && IsCommit(store, n) && Reaches(Everything, store - had, store[n].tree, x);
      HeldUnder(store, had, n, x);
    }
  }

  lemma TagOfDone(store: Store, refs: seq<Ref>, walked: set<ID>, done: set<ID>, x: ID)
    requires TagOf(store, refs, done, x) && RefsPeel(store, refs) && RefTags(store, refs, walked, done)
    requires forall y | y in done - walked :: y in store && store[y].Tag?
    ensures x in done
  {
    hide TagsOn;
    var ref :| ref in refs && Points(ref) && ref.commit in done && x in TagsOn(store, ref.tag, TAG_DEPTH);
    PeelIs(store, ref.tag, TAG_DEPTH, ref.commit);
  }

  lemma WalkedTook(store: Store, wants: set<ID>, skip: set<ID>, peeled: set<ID>, walked: set<ID>)
    requires Wanted(store, wants, skip, peeled, Peeled(store, wants))
    requires Collecting(store, Peeled(store, wants), peeled, walked, {})
    ensures skip <= peeled <= walked && (forall x | x in peeled - skip :: x in store && store[x].Tag?)
    ensures Took(store, Peeled(store, wants), peeled, walked)
  {
    hide FromAny, Peel, LeavesAreBlobs, Took;
  }

  lemma WalkedListed(store: Store, wants: set<ID>, refs: seq<Ref>, skip: set<ID>, peeled: set<ID>, walked: set<ID>, sent: set<ID>)
    requires Wanted(store, wants, skip, peeled, Peeled(store, wants)) && sent !! skip
    requires Collecting(store, Peeled(store, wants), peeled, walked, {})
    requires Tagged(store, refs, walked, sent + skip)
    ensures OnlyListed(store, wants, sent)
  {
    hide FromAny, Peel, LeavesAreBlobs, ListedByOne, UnderOne;
  }

  lemma ExactMore(store: Store, wants: set<ID>, common: set<ID>, walked: set<ID>, sent: set<ID>)
    requires ExactCommits(store, wants, common, walked) && walked <= sent
    requires forall x | x in sent - walked :: x in store && store[x].Tag?
    ensures ExactCommits(store, wants, common, sent)
  {}

  lemma ContainedHolds(store: Store, common: set<ID>, skip: set<ID>, sent: set<ID>)
    requires Followed(Everything, store, sent, sent + skip) && Found(Everything, store, skip, common)
    ensures SelfContained(store, common, sent)
  {}

  /** Why a fetch cannot be served: a common object stops, a want or a ref's tag does not peel, or something behind
      the wants is not what it is named as. */
  ghost predicate Unservable(store: Store, wants: seq<ID>, common: seq<ID>, refs: seq<Ref>) {
    || CommonStops(store, common)
    || (exists id :: id in wants && Peel(store, id, TAG_DEPTH).Err?)
    || CollectionStops(store, Peeled(store, Elems(wants)))
    || (exists ref :: ref in refs && ref.tag != ZERO && Peel(store, ref.tag, TAG_DEPTH).Err?)
  }

  /** The four phases in turn. The result has no repeats and is what `Answers` says; on a navigable store, for
      wants that peel to commits, there always is one. */
  method Packing(objects: Store, refs: seq<Ref>, wants: seq<ID>, includeTag: bool, common: seq<ID>)
    returns (r: Result<seq<ID>>)
    ensures r.Ok? ==> Distinct(r.value)
    ensures r.Ok? ==> Answers(objects, Elems(wants), common, if includeTag then refs else [], Elems(r.value))
    ensures Navigable(objects) && Elems(common) <= objects.Keys && RefsPeel(objects, refs) && PeelToCommits(objects, wants) ==> r.Ok?
    ensures r.Err? ==> Unservable(objects, wants, common, if includeTag then refs else [])
  {
    hide Had, Wanted, Collecting, Tagged, RefTags, Peel, Answers, RefsPeel, Navigable, CommonStops, CollectionStops;
    var w := new Walk(objects);
    var done := MarkCommon(w, common);
    if done.Failed? {
      return Err(done.error);
    }
    ghost var skip := w.skip;
    assert w.Done() == skip;
    var tips := AddWants(w, wants);
    if tips.Err? {
      return Err(tips.error);
    }
    ghost var peeled := w.Done();
    TipsAreCommits(objects, wants, tips.value);
    done := w.AddHistory(tips.value);
    if done.Failed? {
      return Err(done.error);
    }
    ghost var walked := w.Done();
    if includeTag {
      done := AddTags(w, refs);
      if done.Failed? {
        return Err(done.error);
      }
    } else {
      TaggedNothing(objects, [], walked);
      NoRefTags(objects, walked);
    }
    PhasesAnswer(objects, Elems(wants), common, if includeTag then refs else [], skip, w.seen, peeled, walked);
    return Ok(w.order);
  }

  ghost predicate PeelToCommits(store: Store, ids: seq<ID>) {
    forall id | id in ids :: Peel(store, id, TAG_DEPTH).Ok? && IsCommit(store, Peel(store, id, TAG_DEPTH).value)
  }

  lemma TipsAreCommits(store: Store, wants: seq<ID>, tips: seq<ID>)
    requires Elems(tips) == Peeled(store, Elems(wants))
    ensures PeelToCommits(store, wants) ==> Commits(store, Elems(tips)) == Elems(tips)
  {
    hide Peel;
  }

  /** A client holding what it says it has, and all that names, ends up holding all it wants. */
  lemma ClientEndsWhole(store: Store, wants: set<ID>, common: seq<ID>, refs: seq<Ref>, sent: set<ID>, client: set<ID>)
    requires LeavesAreBlobs(store) && Answers(store, wants, common, refs, sent)
    requires Elems(common) <= client && Followed(Everything, store, client, client)
    ensures forall x | FromAny(Everything, store, wants, x) :: x in client + sent
    ensures RefsPeel(store, refs) ==> Followed(Everything, store, client + sent, client + sent)
  {
    hide OnlyListed, ExactContent, Harmless, Marks, TagsSent, ExactTags;
    forall x | FromAny(Everything, store, Elems(common), x)
      ensures x in client
    {
      var c :| c in Elems(common) && Reaches(Everything, store, c, x);
      var held := iset y | y in client;
      Confined(Everything, store, held, c, x);
    }
    forall x | x in client + sent && x in store && RefsPeel(store, refs)
      ensures Links(Everything, store[x]) <= client + sent
    {
      forall y | y in Links(Everything, store[x])
        ensures y in client + sent
      {
        assert Step(Everything, store, x, y);
      }
    }
  }

  /** A clone, a fetch by a client that has nothing, is whole: it holds what it asked for and all
      that names, every object of it held by the repository. */
  lemma CloneIsWhole(store: Store, wants: set<ID>, refs: seq<Ref>, sent: set<ID>)
    requires Closed(store) && LeavesAreBlobs(store) && RefsPeel(store, refs)
    requires wants + TagsOf(refs) <= store.Keys
    requires Answers(store, wants, [], refs, sent)
    ensures wants <= sent && Followed(Everything, store, sent, sent)
    ensures sent <= store.Keys
  {
    ClientEndsWhole(store, wants, [], refs, sent, {});
    assert {} + sent == sent;
    EachItself(Everything, store, wants);
    forall x | x in sent
      ensures x in store
    {
      var w :| w in wants + TagsOf(refs) && Reaches(Everything, store, w, x);
      ClosedHolds(store, w, x);
    }
  }

  /** Whatever the types, a clone that is whole is of wants under which every object is listed: behind a want
      that is peeled, a tag, or in a tree that directories lead to, so none only under a tree listed as a file. */
  lemma WholeNeedsListed(store: Store, wants: set<ID>, refs: seq<Ref>, sent: set<ID>)
    requires Answers(store, wants, [], refs, sent) && Followed(Everything, store, sent, sent)
    ensures forall x | FromAny(Everything, store, wants, x) ::
              (x in store && store[x].Tag?) || FromAny(Parents, store, Peeled(store, wants), x) || ListedByOne(store, Peeled(store, wants), x)
  {
    hide Reaches, ListedByOne, Peel;
    hide OnlyWanted, Complete, ExactCommits, SelfContained, ExactContent, Harmless, TreesLeftOut, LeavesAreBlobs, Sound, RefsPeel, TagsSent, ExactTags;
    forall x | FromAny(Everything, store, wants, x)
      ensures x in sent
    {
      var w :| w in wants && Reaches(Everything, store, w, x);
      var s := iset y | y in sent;
      Confined(Everything, store, s, w, x);
    }
  }
}
