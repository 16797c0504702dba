/** What a run of pushes keeps, however they interleave: each is checked against the repository as it
    stood at some earlier moment, and moves its refs as they stand when it is accepted. */
module PushRuns {
  import opened GitObjects
  import opened FetchWalk
  import opened Walks
  import opened Push
  import Fetch

  /** A push accepted, judged against the repository as it stood at `snapshot`, or a change of the
      default branch or of what is protected. */
  datatype Event = Pushed(snapshot: nat, pack: Store, commands: seq<Command>, manages: bool) | Settings

  function Tips(commands: seq<Command>): set<ID> {
    set c | c in commands && c.after != ZERO :: c.after
  }

  /** A push checked against `snap` and accepted by the repository `now`. Its pack agrees with what is
      held, a name being a hash of what it names. */
  ghost predicate PushStep(snap: Repository, now: Repository, e: Event, next: Repository)
    requires e.Pushed?
  {
    && Agree(e.pack, now.store)
    && Connected(e.pack, snap.store, Tips(e.commands))
    && (forall c | c in e.commands :: Allowed(snap.refs, snap.head, snap.store + e.pack, e.manages, c))
    && UpdateRefs(now.refs, now.head, e.commands) == Updated(next.refs)
    && next.store == now.store + e.pack && next.head == now.head
  }

  predicate Born(refs: Refs, name: RefName) {
    name in refs && refs[name].commit != ZERO
  }

  /** Unborn refs come and go, and protection changes; nothing that names a commit moves. */
  ghost predicate SettingsStep(now: Repository, next: Repository) {
    && next.store == now.store
    && (forall name :: Born(now.refs, name) <==> Born(next.refs, name))
    && (forall name | Born(now.refs, name) :: next.refs[name].commit == now.refs[name].commit && next.refs[name].tag == now.refs[name].tag)
    && (forall name | name in next.refs && !Born(next.refs, name) :: next.refs[name].tag == ZERO)
  }

  ghost predicate StepAt(states: seq<Repository>, events: seq<Event>, i: nat)
    requires i < |events| && |states| == |events| + 1
  {
    match events[i]
    case Pushed(at, _, _, _) => at <= i && PushStep(states[at], states[i], events[i], states[i + 1])
    case Settings => SettingsStep(states[i], states[i + 1])
  }

  ghost predicate Run(states: seq<Repository>, events: seq<Event>) {
    |states| == |events| + 1 && forall i | 0 <= i < |events| :: StepAt(states, events, i)
  }

  // ---- Every object held names only objects held ----

  /** A ref names what is held: a branch a commit, and a tag a commit or a tag peeling to one. */
  ghost predicate WholeRef(store: Store, name: RefName, ref: Ref) {
    && (ref.commit == ZERO ==> ref.tag == ZERO)
    && (ref.commit != ZERO ==> IsCommit(store, ref.commit))
    && (ref.tag != ZERO ==> name.TagRef? && ref.tag in store && PeelToCommit(store, ref.tag, TAG_DEPTH) == Ok(ref.commit))
  }

  ghost predicate WholeRefs(store: Store, refs: Refs) {
    forall name | name in refs :: WholeRef(store, name, refs[name])
  }

  ghost predicate Whole(r: Repository) {
    Closed(r.store) && WholeRefs(r.store, r.refs)
  }

  lemma StoresGrow(states: seq<Repository>, events: seq<Event>, i: nat, j: nat)
    requires Run(states, events) && i <= j < |states|
    ensures Extends(states[i].store, states[j].store)
  {
    hide Connected, Allowed, UpdateRefs, Born;
    if i < j {
      StoresGrow(states, events, i, j - 1);
      assert StepAt(states, events, j - 1);
    }
  }

  lemma {:induction false} PeelMono(s: Store, t: Store, id: ID, fuel: nat)
    requires Extends(s, t) && PeelToCommit(s, id, fuel).Ok? && PeelToCommit(s, id, fuel).value != ZERO
    ensures PeelToCommit(t, id, fuel) == PeelToCommit(s, id, fuel) && id in t
    ensures IsCommit(t, PeelToCommit(t, id, fuel).value)
    ensures Peel(t, id, fuel) == PeelToCommit(t, id, fuel)
    decreases fuel
  {
    if s[id].Tag? {
      PeelMono(s, t, s[id].tagged, fuel - 1);
    }
  }

  lemma PushKeepsClosed(snap: Repository, now: Repository, e: Event, next: Repository)
    requires e.Pushed? && PushStep(snap, now, e, next)
    requires Extends(snap.store, now.store) && Closed(now.store)
    ensures Closed(next.store) && Extends(now.store, next.store) && Extends(snap.store + e.pack, next.store)
  {
    hide Links, Allowed, UpdateRefs;
    forall id | id in next.store
      ensures Links(Everything, next.store[id]) <= next.store.Keys
    {
      if id in e.pack {
        assert Links(Everything, e.pack[id]) <= e.pack.Keys + snap.store.Keys;
      }
    }
  }

  lemma SwapWhole(view: Store, store: Store, refs: Refs, c: Command, was: Repository, manages: bool)
    requires Extends(view, store) && WholeRefs(store, refs) && Swap(refs, c).Updated?
    requires Allowed(was.refs, was.head, view, manages, c)
    ensures WholeRefs(store, Swap(refs, c).refs)
  {
    hide Reaches, PastDeciding, PeelToCommit;
    if c.after != ZERO {
      PeelMono(view, store, c.after, TAG_DEPTH);
    }
  }

  lemma {:induction false} SwapAllWhole(view: Store, store: Store, refs: Refs, cs: seq<Command>, was: Repository, manages: bool)
    requires Extends(view, store) && WholeRefs(store, refs) && SwapAll(refs, cs).Updated?
    requires forall c | c in cs :: Allowed(was.refs, was.head, view, manages, c)
    ensures WholeRefs(store, SwapAll(refs, cs).refs)
    decreases |cs|
  {
    hide Allowed, WholeRefs, Swap;
    if cs != [] {
      SwapWhole(view, store, refs, cs[0], was, manages);
      SwapAllWhole(view, store, Swap(refs, cs[0]).refs, cs[1..], was, manages);
    }
  }

  lemma WholeRefsMono(s: Store, t: Store, refs: Refs)
    requires Extends(s, t) && WholeRefs(s, refs)
    ensures WholeRefs(t, refs)
  {
    forall name | name in refs
      ensures WholeRef(t, name, refs[name])
    {
      if refs[name].tag != ZERO {
        PeelMono(s, t, refs[name].tag, TAG_DEPTH);
      }
    }
  }

  lemma PushKeepsWhole(snap: Repository, now: Repository, e: Event, next: Repository)
    requires e.Pushed? && PushStep(snap, now, e, next)
    requires Extends(snap.store, now.store) && Whole(now)
    ensures Whole(next)
  {
    hide Allowed, WholeRefs, SwapAll, Closed;
    PushKeepsClosed(snap, now, e, next);
    WholeRefsMono(now.store, next.store, now.refs);
    SwapAllWhole(snap.store + e.pack, next.store, now.refs, e.commands, snap, e.manages);
  }

  lemma SettingsKeepWhole(now: Repository, next: Repository)
    requires SettingsStep(now, next) && Whole(now)
    ensures Whole(next)
  {
    hide Closed, PeelToCommit;
    forall name | name in next.refs
      ensures WholeRef(next.store, name, next.refs[name])
    {
      assert Born(now.refs, name) <==> Born(next.refs, name);
      if Born(now.refs, name) {
        assert WholeRef(now.store, name, now.refs[name]);
      }
    }
  }

  /** Starting from a whole repository, every run of pushes leaves it whole: every object held names
      only objects held, and every ref names a commit held. */
  lemma {:induction false} RunKeepsWhole(states: seq<Repository>, events: seq<Event>, i: nat)
    requires Run(states, events) && i < |states| && Whole(states[0])
    ensures Whole(states[i])
  {
    hide Whole, PushStep, SettingsStep;
    if i > 0 {
      RunKeepsWhole(states, events, i - 1);
      assert StepAt(states, events, i - 1);
      if events[i - 1].Pushed? {
        StoresGrow(states, events, events[i - 1].snapshot, i - 1);
        PushKeepsWhole(states[events[i - 1].snapshot], states[i - 1], events[i - 1], states[i]);
      } else {
        SettingsKeepWhole(states[i - 1], states[i]);
      }
    }
  }

  /** So whatever any ref reaches, its whole history and every tree of it, is held. */
  lemma RunHoldsHistories(states: seq<Repository>, events: seq<Event>, i: nat, name: RefName, x: ID)
    requires Run(states, events) && i < |states| && Whole(states[0])
    requires Born(states[i].refs, name)
    requires Reaches(Everything, states[i].store, Target(states[i].refs[name]), x)
    ensures x in states[i].store
  {
    RunKeepsWhole(states, events, i);
    assert WholeRef(states[i].store, name, states[i].refs[name]);
    ClosedHolds(states[i].store, Target(states[i].refs[name]), x);
  }

  // ---- What a clone of it is ----

  /** Every file a pushed tree lists is a blob, pushed or held. */
  ghost predicate FilesAreBlobs(pack: Store, objects: Store) {
    forall id, x | id in pack && pack[id].Tree? && x in FileIDs(pack[id].entries) :: x in objects && objects[x].Blob?
  }

  /** A push keeps every file a blob exactly where those it lists are: nothing it is held to looks. */
  lemma PushLeaves(snap: Repository, now: Repository, e: Event, next: Repository)
    requires e.Pushed? && PushStep(snap, now, e, next) && Extends(snap.store, now.store) && Closed(now.store)
    ensures LeavesAreBlobs(next.store) <==> LeavesAreBlobs(now.store) && FilesAreBlobs(e.pack, now.store + e.pack)
  {
    hide Allowed, UpdateRefs, Connected;
    PushKeepsClosed(snap, now, e, next);
    LeavesOf(now.store, e.pack);
  }

  lemma LeavesOf(store: Store, pack: Store)
    requires Agree(pack, store) && Closed(store) && Closed(store + pack)
    ensures LeavesAreBlobs(store + pack) <==> LeavesAreBlobs(store) && FilesAreBlobs(pack, store + pack)
  {
    var all := store + pack;
    if LeavesAreBlobs(all) {
      forall id, x | id in store && store[id].Tree? && x in FileIDs(store[id].entries) && x in store
        ensures store[x].Blob?
      {
        assert all[id] == store[id] && all[x] == store[x];
      }
      forall id, x | id in pack && pack[id].Tree? && x in FileIDs(pack[id].entries)
        ensures x in all && all[x].Blob?
      {
        assert all[id] == pack[id] && x in Links(Everything, all[id]);
      }
    }
    if LeavesAreBlobs(store) && FilesAreBlobs(pack, all) {
      forall id, x | id in all && all[id].Tree? && x in FileIDs(all[id].entries) && x in all
        ensures all[x].Blob?
      {
        if id !in pack {
          assert x in Links(Everything, store[id]);
          assert all[x] == store[x];
        }
      }
    }
  }

  /** Whatever a pushed object names as a tree, a parent or a directory is one, pushed or held. */
  ghost predicate NamesTyped(pack: Store, objects: Store) {
    && (forall id, x | IsTree(pack, id) && x in DirectoryIDs(pack[id].entries) :: IsTree(objects, x))
    && (forall id | IsCommit(pack, id) :: IsTree(objects, pack[id].tree))
    && (forall id, x | IsCommit(pack, id) && x in pack[id].parents :: IsCommit(objects, x))
  }

  /** A push keeps the store navigable exactly where what it names is of the type it names it as. */
  lemma PushNavigates(snap: Repository, now: Repository, e: Event, next: Repository)
    requires e.Pushed? && PushStep(snap, now, e, next) && Extends(snap.store, now.store) && Closed(now.store)
    ensures Navigable(next.store) <==> Navigable(now.store) && NamesTyped(e.pack, now.store + e.pack)
  {
    hide Allowed, UpdateRefs, Connected, Navigable, NamesTyped;
    PushKeepsClosed(snap, now, e, next);
    NavigableOf(now.store, e.pack);
  }

  lemma NavigableOf(store: Store, pack: Store)
    requires Agree(pack, store) && Closed(store) && Closed(store + pack)
    ensures Navigable(store + pack) <==> Navigable(store) && NamesTyped(pack, store + pack)
  {
    hide Closed, NamesTyped;
    var all := store + pack;
    if Navigable(all) {
      OldTyped(store, pack);
      NewTyped(store, pack);
    }
    if Navigable(store) && NamesTyped(pack, all) {
      AllTyped(store, pack);
    }
  }

  lemma NewTyped(store: Store, pack: Store)
    requires Navigable(store + pack)
    ensures NamesTyped(pack, store + pack)
  {
    hide Closed, DirectoryIDs;
    var all := store + pack;
    assert forall id | id in pack :: all[id] == pack[id];
    assert forall id | IsTree(pack, id) :: IsTree(all, id);
    assert forall id | IsCommit(pack, id) :: IsCommit(all, id);
  }

  lemma OldTyped(store: Store, pack: Store)
    requires Agree(pack, store) && Closed(store) && Navigable(store + pack)
    ensures Navigable(store)
  {
    hide Closed, DirectoryIDs, Agree;
    var all := store + pack;
    forall id, x | IsTree(store, id) && x in DirectoryIDs(store[id].entries)
      ensures IsTree(store, x)
    {
      LinksHeld(store, pack, id, x);
      assert IsTree(all, id) && IsTree(all, x);
    }
    forall id | IsCommit(store, id)
      ensures IsTree(store, store[id].tree)
    {
      LinksHeld(store, pack, id, store[id].tree);
      assert IsCommit(all, id) && IsTree(all, store[id].tree);
    }
    forall id, x | IsCommit(store, id) && x in store[id].parents
      ensures IsCommit(store, x)
    {
      LinksHeld(store, pack, id, x);
      assert IsCommit(all, id) && IsCommit(all, x);
    }
  }

  /** What a held object names is held, and the same whatever is pushed. */
  lemma LinksHeld(store: Store, pack: Store, id: ID, x: ID)
    requires Agree(pack, store) && Closed(store) && id in store
    requires match store[id]
             case Tree(entries) => x in DirectoryIDs(entries)
             case Commit(tree, parents, _) => x == tree || x in parents
             case _ => false
    ensures x in store && (store + pack)[x] == store[x] && (store + pack)[id] == store[id]
  {
    assert x in Links(Everything, store[id]);
  }

  lemma AllTyped(store: Store, pack: Store)
    requires Agree(pack, store) && Closed(store + pack) && Navigable(store) && NamesTyped(pack, store + pack)
    ensures Navigable(store + pack)
  {
    hide Closed, DirectoryIDs;
    var all := store + pack;
    assert forall id | id in pack :: all[id] == pack[id];
    assert forall id | id in store :: all[id] == store[id];
    forall id | IsTree(all, id)
      ensures IsTree(pack, id) || IsTree(store, id)
    {}
    forall id | IsCommit(all, id)
      ensures IsCommit(pack, id) || IsCommit(store, id)
    {}
    assert forall x | IsTree(store, x) :: IsTree(all, x);
    assert forall x | IsCommit(store, x) :: IsCommit(all, x);
  }

  /** Every file listed by a tree pushed before the i-th state is a blob then. */
  ghost predicate PacksList(states: seq<Repository>, events: seq<Event>, i: nat)
    requires i <= |events| < |states|
  {
    forall k | 0 <= k < i && events[k].Pushed? :: FilesAreBlobs(events[k].pack, states[k].store + events[k].pack)
  }

  /** And whatever an object pushed before it names is then of the type it names it as. */
  ghost predicate PacksName(states: seq<Repository>, events: seq<Event>, i: nat)
    requires i <= |events| < |states|
  {
    forall k | 0 <= k < i && events[k].Pushed? :: NamesTyped(events[k].pack, states[k].store + events[k].pack)
  }

  /** So over a run files are blobs, and the store navigable, exactly where each was so at first and in every push. */
  lemma {:induction false} RunLeaves(states: seq<Repository>, events: seq<Event>, i: nat)
    requires Run(states, events) && i < |states| && Whole(states[0])
    ensures LeavesAreBlobs(states[i].store) <==> LeavesAreBlobs(states[0].store) && PacksList(states, events, i)
    ensures Navigable(states[i].store) <==> Navigable(states[0].store) && PacksName(states, events, i)
  {
    hide LeavesAreBlobs, FilesAreBlobs, PushStep, WholeRefs, Navigable, NamesTyped;
    if i > 0 {
      RunLeaves(states, events, i - 1);
      RunKeepsWhole(states, events, i - 1);
      assert StepAt(states, events, i - 1);
      var e := events[i - 1];
      if e.Pushed? {
        StoresGrow(states, events, e.snapshot, i - 1);
        PushLeaves(states[e.snapshot], states[i - 1], e, states[i]);
        PushNavigates(states[e.snapshot], states[i - 1], e, states[i]);
      }
    }
  }

  /** Every want is what some ref names. */
  ghost predicate RefsWanted(r: Repository, wants: seq<ID>) {
    forall id | id in wants :: exists name :: Born(r.refs, name) && id == Target(r.refs[name])
  }

  lemma RefsServe(r: Repository, refs: seq<Ref>, wants: seq<ID>)
    requires Whole(r) && RefsWanted(r, wants) && forall ref | ref in refs :: ref in r.refs.Values
    ensures Fetch.RefsPeel(r.store, refs) && Fetch.PeelToCommits(r.store, wants)
    ensures Elems(wants) + Fetch.TagsOf(refs) <= r.store.Keys
  {
    hide Peel, PeelToCommit, Closed;
    forall ref | ref in refs && ref.tag != ZERO
      ensures ref.tag in r.store && Peel(r.store, ref.tag, TAG_DEPTH) == Ok(ref.commit)
    {
      var name :| name in r.refs && r.refs[name] == ref;
      PeelMono(r.store, r.store, ref.tag, TAG_DEPTH);
    }
    forall id | id in wants
      ensures id in r.store && Peel(r.store, id, TAG_DEPTH).Ok? && IsCommit(r.store, Peel(r.store, id, TAG_DEPTH).value)
    {
      var name :| Born(r.refs, name) && id == Target(r.refs[name]);
      assert WholeRef(r.store, name, r.refs[name]);
      if r.refs[name].tag != ZERO {
        PeelMono(r.store, r.store, id, TAG_DEPTH);
      } else {
        PeelsToItself(r.store, id);
      }
    }
  }

  lemma PeelsToItself(store: Store, id: ID)
    requires IsCommit(store, id)
    ensures Peel(store, id, TAG_DEPTH) == Ok(id)
  {}

  /** And where they were, a clone of any of the refs, at any moment of the run, is served, and whole. */
  method RunClonesWhole(ghost states: seq<Repository>, ghost events: seq<Event>, ghost i: nat, r: Repository, refs: seq<Ref>, wants: seq<ID>, includeTag: bool)
    returns (sent: seq<ID>)
    requires Run(states, events) && i < |states| && Whole(states[0]) && r == states[i]
    requires LeavesAreBlobs(states[0].store) && PacksList(states, events, i)
    requires Navigable(states[0].store) && PacksName(states, events, i)
    requires RefsWanted(r, wants) && forall ref | ref in refs :: ref in r.refs.Values
    ensures Distinct(sent) && Elems(wants) <= Elems(sent) <= r.store.Keys
    ensures Followed(Everything, r.store, Elems(sent), Elems(sent))
  {
    hide LeavesAreBlobs, Fetch.Answers, PacksList, PacksName, Navigable, Closed, WholeRefs, Fetch.RefsPeel, Fetch.PeelToCommits, Run, RefsWanted;
    RunKeepsWhole(states, events, i);
    RunLeaves(states, events, i);
    var tags := if includeTag then refs else [];
    RefsServe(r, refs, wants);
    RefsServe(r, tags, wants);
    var answer := Fetch.Packing(r.store, refs, wants, includeTag, []);
    Fetch.CloneIsWhole(r.store, Elems(wants), tags, Elems(answer.value));
    return answer.value;
  }

  // ---- What a pusher without grant:manage cannot do ----

  ghost predicate NobodyManages(events: seq<Event>) {
    forall i | 0 <= i < |events| && events[i].Pushed? :: !events[i].manages
  }

  /** A tag names what it named, and a branch is where it was or ahead of it. */
  ghost predicate KeptRef(store: Store, name: RefName, ref: Ref, ref': Ref) {
    && ref'.commit != ZERO
    && (!name.Branch? ==> ref'.commit == ref.commit && ref'.tag == ref.tag)
    && (name.Branch? ==> Reaches(Parents, store, ref'.commit, ref.commit))
  }

  ghost predicate Kept(store: Store, refs: Refs, refs': Refs) {
    forall name | Born(refs, name) :: name in refs' && KeptRef(store, name, refs[name], refs'[name])
  }

  /** A protected ref is where it was, and no ref's protection changed. */
  ghost predicate ProtectedKept(refs: Refs, refs': Refs) {
    forall name | name in refs :: name in refs' && refs'[name].protected == refs[name].protected && (refs[name].protected ==> refs'[name] == refs[name])
  }

  lemma KeptSelf(store: Store, refs: Refs)
    ensures Kept(store, refs, refs)
  {
    forall name | Born(refs, name)
      ensures KeptRef(store, name, refs[name], refs[name])
    {
      ReachSelf(Parents, store, refs[name].commit);
    }
  }

  lemma KeptTrans(s: Store, t: Store, a: Refs, b: Refs, c: Refs)
    requires Extends(s, t) && Kept(s, a, b) && Kept(t, b, c)
    ensures Kept(t, a, c)
  {
    hide Reaches;
    forall name | Born(a, name)
      ensures name in c && KeptRef(t, name, a[name], c[name])
    {
      assert Born(b, name);
      if name.Branch? {
        ReachMono(Parents, Parents, s, t, b[name].commit, a[name].commit);
        ReachTrans(Parents, t, c[name].commit, b[name].commit, a[name].commit);
      }
    }
  }

  lemma SwapKept(view: Store, store: Store, refs: Refs, c: Command, was: Repository)
    requires Extends(view, store) && WholeRefs(store, refs) && Swap(refs, c).Updated?
    requires Allowed(was.refs, was.head, view, false, c) && !Protected(refs, c.ref)
    ensures Kept(store, refs, Swap(refs, c).refs) && ProtectedKept(refs, Swap(refs, c).refs)
  {
    hide Reaches, PeelToCommit, PastDeciding;
    KeptSelf(store, refs);
    if Born(refs, c.ref) {
      assert WholeRef(store, c.ref, refs[c.ref]);
      ReachMono(Parents, Parents, view, store, c.after, c.before);
    }
  }

  lemma {:induction false} SwapAllKept(view: Store, store: Store, refs: Refs, cs: seq<Command>, was: Repository)
    requires Extends(view, store) && WholeRefs(store, refs) && SwapAll(refs, cs).Updated?
    requires forall c | c in cs :: Allowed(was.refs, was.head, view, false, c) && !Protected(refs, c.ref)
    ensures Kept(store, refs, SwapAll(refs, cs).refs) && ProtectedKept(refs, SwapAll(refs, cs).refs)
    decreases |cs|
  {
    hide Allowed, WholeRefs, Swap, Kept;
    if cs == [] {
      KeptSelf(store, refs);
    } else {
      var next := Swap(refs, cs[0]).refs;
      SwapKept(view, store, refs, cs[0], was);
      SwapWhole(view, store, refs, cs[0], was, false);
      forall c | c in cs[1..]
        ensures !Protected(next, c.ref)
      {
        NoneProtected(refs, next, cs[0], c.ref);
      }
      SwapAllKept(view, store, next, cs[1..], was);
      KeptTrans(store, store, refs, next, SwapAll(next, cs[1..]).refs);
    }
  }

  lemma NoneProtected(refs: Refs, next: Refs, c: Command, name: RefName)
    requires Swap(refs, c) == Updated(next) && !Protected(refs, name)
    ensures !Protected(next, name)
  {}

  lemma PushKeepsRefs(snap: Repository, now: Repository, e: Event, next: Repository)
    requires e.Pushed? && !e.manages && PushStep(snap, now, e, next)
    requires Extends(snap.store, now.store) && Whole(now)
    ensures Kept(next.store, now.refs, next.refs) && ProtectedKept(now.refs, next.refs)
  {
    hide WholeRefs, SwapAll, Closed, Kept, ProtectedKept, Reaches, PeelToCommit, PastDeciding;
    PushKeepsClosed(snap, now, e, next);
    WholeRefsMono(now.store, next.store, now.refs);
    SwapAllKept(snap.store + e.pack, next.store, now.refs, e.commands, snap);
  }

  lemma StepKeepsRefs(states: seq<Repository>, events: seq<Event>, i: nat)
    requires Run(states, events) && NobodyManages(events) && i < |events| && Whole(states[0])
    ensures Kept(states[i + 1].store, states[i].refs, states[i + 1].refs)
    ensures events[i].Pushed? ==> ProtectedKept(states[i].refs, states[i + 1].refs)
  {
    hide Whole, PushStep;
    assert StepAt(states, events, i);
    if events[i].Pushed? {
      RunKeepsWhole(states, events, i);
      StoresGrow(states, events, events[i].snapshot, i);
      PushKeepsRefs(states[events[i].snapshot], states[i], events[i], states[i + 1]);
    } else {
      KeptSelf(states[i + 1].store, states[i].refs);
    }
  }

  /** Over any run of pushes by pushers without grant:manage, no ref disappears, no tag moves, and a
      branch's earlier tip is its later one or behind it. */
  lemma {:induction false} RunKeepsRefs(states: seq<Repository>, events: seq<Event>, i: nat, j: nat)
    requires Run(states, events) && NobodyManages(events) && Whole(states[0]) && i <= j < |states|
    ensures Kept(states[j].store, states[i].refs, states[j].refs)
    decreases j - i
  {
    hide Kept, Whole, StepAt;
    if i == j {
      KeptSelf(states[i].store, states[i].refs);
    } else {
      RunKeepsRefs(states, events, i, j - 1);
      StepKeepsRefs(states, events, j - 1);
      StoresGrow(states, events, j - 1, j);
      KeptTrans(states[j - 1].store, states[j].store, states[i].refs, states[j - 1].refs, states[j].refs);
    }
  }

  /** And a ref protected throughout names throughout what it named. */
  lemma {:induction false} RunKeepsProtected(states: seq<Repository>, events: seq<Event>, i: nat, j: nat, name: RefName)
    requires Run(states, events) && NobodyManages(events) && Whole(states[0]) && i <= j < |states|
    requires Born(states[i].refs, name) && forall k | i <= k <= j :: Protected(states[k].refs, name)
    ensures name in states[j].refs && states[j].refs[name] == states[i].refs[name]
    decreases j - i
  {
    hide Kept, Whole, PushStep, NobodyManages;
    if i < j {
      RunKeepsProtected(states, events, i, j - 1, name);
      StepKeepsRefs(states, events, j - 1);
      assert StepAt(states, events, j - 1);
    }
  }

  // ---- The steps as they are taken ----

  /** Some command may not be let by, for a reason that holds of it; none that is Forward is such. */
  ghost predicate Faulty(snap: Repository, objects: Store, manages: bool, commands: seq<Command>) {
    exists i, why :: 0 <= i < |commands| && Justified(snap.refs, snap.head, objects, manages, commands[i], why) && !Forward(snap.refs, objects, manages, commands[i])
  }

  /** Has each commit the commands leave a ref at validated, once. */
  method PassAll(passes: ID -> bool, commands: seq<Command>) returns (ok: bool)
    ensures ok <==> forall c | c in commands && c.after != ZERO :: passes(c.commit)
  {
    var seen: set<ID> := {};
    for i := 0 to |commands|
      invariant forall x | x in seen :: passes(x)
      invariant forall j | 0 <= j < i && commands[j].after != ZERO :: commands[j].commit in seen
    {
      var c := commands[i];
      assert c in commands;
      if c.after == ZERO || c.commit in seen {
        continue;
      }
      seen := seen + {c.commit};
      if !passes(c.commit) {
        return false;
      }
    }
    return true;
  }

  predicate SameAskedAll(cs: seq<Command>, ds: seq<Command>) {
    |cs| == |ds| && forall i | 0 <= i < |cs| :: SameAsked(cs[i], ds[i])
  }

  /** A repository as pushes change it. */
  class Hosting {
    var repository: Repository

    constructor (r: Repository)
      ensures repository == r
    {
      repository := r;
    }

    /** Takes a push judged against the repository as it stood, `snap`: what it sends
        is connected, its commands judged and the commits they leave validated; refs and objects then change
        together, or not at all. */
    method Receive(snap: Repository, at: nat, pack: Store, listed: seq<ID>, commands: array<Command>, manages: bool, passes: ID -> bool)
      returns (taken: bool)
      requires Elems(listed) == pack.Keys && Agree(pack, repository.store)
      requires forall i | 0 <= i < commands.Length :: commands[i].before != ZERO || commands[i].after != ZERO
      modifies this, commands
      ensures taken ==> PushStep(snap, old(repository), Pushed(at, pack, commands[..], manages), repository)
      ensures taken ==> forall c | c in commands[..] && c.after != ZERO :: passes(c.commit)
      ensures taken ==> Landed(old(repository.refs), repository.refs, commands[..]) && repository.store == old(repository.store) + pack
      ensures !taken ==> repository == old(repository) && SameAskedAll(commands[..], old(commands[..]))
      ensures !taken ==>
                || !Connected(pack, snap.store, Tips(old(commands[..])))
                || Faulty(snap, snap.store + pack, manages, old(commands[..]))
                || (exists c :: c in commands[..] && c.after != ZERO && !passes(c.commit))
                || !UpdateRefs(repository.refs, repository.head, commands[..]).Updated?
    {
      hide Connected, Allowed, UpdateRefs, Justified, Forward, Landed, AtBefore;
      var tips := TipsOf(commands[..]);
      ghost var asked := commands[..];
      var connected := CheckConnected(pack, listed, snap.store, tips);
      if connected.Failed? {
        return false;
      }
      var verdict := Judge(snap.refs, snap.head, snap.store + pack, manages, commands);
      if verdict.Refused? {
        assert Justified(snap.refs, snap.head, snap.store + pack, manages, asked[verdict.at], verdict.why);
        return false;
      }
      SameTips(asked, commands[..]);
      var valid := PassAll(passes, commands[..]);
      if !valid {
        return false;
      }
      var updated := UpdateRefs(repository.refs, repository.head, commands[..]);
      if !updated.Updated? {
        return false;
      }
      UpdatedLands(repository.refs, repository.head, commands[..]);
      repository := repository.(store := repository.store + pack, refs := updated.refs);
      return true;
    }
  }

  /** The objects a push leaves refs naming. */
  method TipsOf(commands: seq<Command>) returns (tips: seq<ID>)
    ensures Elems(tips) == Tips(commands)
  {
    tips := [];
    for i := 0 to |commands|
      invariant Elems(tips) == Tips(commands[..i])
    {
      assert commands[..i + 1] == commands[..i] + [commands[i]];
      ElemsConcat(tips, [commands[i].after]);
      if commands[i].after != ZERO {
        tips := tips + [commands[i].after];
      }
    }
    assert commands[..|commands|] == commands;
  }

  lemma SameTips(cs: seq<Command>, ds: seq<Command>)
    requires |cs| == |ds| && forall i | 0 <= i < |cs| :: SameAsked(ds[i], cs[i])
    ensures Tips(cs) == Tips(ds)
  {
    forall i | 0 <= i < |cs|
      ensures cs[i].after == ds[i].after && cs[i] in cs && ds[i] in ds
    {}
  }
}
