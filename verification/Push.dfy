/** A push: what it must send, which refs it may move, and what a run of pushes keeps. */
module Push {
  import opened GitObjects
  import opened FetchWalk
  import opened Walks

  datatype RefName = Branch(name: string) | TagRef(name: string) | OtherRef(name: string)

  type Refs = map<RefName, Ref>

  /** A repository: the objects of its live packs, its refs, and the branch HEAD names. */
  datatype Repository = Repository(store: Store, refs: Refs, head: string)

  /** One ref a push moves, from what it found it naming to what it leaves it naming, ZERO for none.
      Judge fills in the last three: the commit at the end of `after`'s tags, whether the move needs
      grant:manage by itself, and whether it was let by on the ref not being protected. */
  datatype Command = Command(ref: RefName, before: ID, after: ID, commit: ID, forced: bool, unprotected: bool)

  function Target(ref: Ref): ID {
    if ref.tag != ZERO then ref.tag else ref.commit
  }

  function Now(refs: Refs, name: RefName): ID {
    if name in refs then Target(refs[name]) else ZERO
  }

  // ---- The objects sent ----

  function Named(o: Object): seq<ID> {
    match o
    case Commit(tree, parents, _) => [tree] + parents
    case Tree(entries) => NamedEntries(entries)
    case Blob(_) => []
    case Tag(tagged, _) => [tagged]
  }

  function NamedEntries(entries: seq<Entry>): seq<ID> {
    if entries == [] then []
    else (if entries[0].mode == Submodule then [] else [entries[0].id]) + NamedEntries(entries[1..])
  }

  lemma NamedIsLinks(o: Object)
    ensures Elems(Named(o)) == Links(Everything, o)
  {
    if o.Tree? {
      NamedEntriesAre(o.entries);
    }
  }

  lemma {:induction false} NamedEntriesAre(entries: seq<Entry>)
    ensures Elems(NamedEntries(entries)) == FileIDs(entries) + DirectoryIDs(entries)
  {
    if entries != [] {
      NamedEntriesAre(entries[1..]);
      assert entries == [entries[0]] + entries[1..];
      ElemsConcat(if entries[0].mode == Submodule then [] else [entries[0].id], NamedEntries(entries[1..]));
    }
  }

  /** Whatever the tips are and the pushed objects name is among those pushed or in the repository. */
  ghost predicate Connected(pack: Store, repository: Store, tips: set<ID>) {
    && tips <= pack.Keys + repository.Keys
    && Followed(Everything, pack, pack.Keys, pack.Keys + repository.Keys)
  }

  /** Refuses one of `named` that neither the push nor the repository holds; `held` are those found in
      the repository, which is not asked for them again. */
  method HasAll(pack: Store, repository: Store, named: seq<ID>, held: set<ID>) returns (r: Outcome, held': set<ID>)
    requires held <= repository.Keys
    ensures held' <= repository.Keys
    ensures r.Fine? <==> Elems(named) <= pack.Keys + repository.Keys
    ensures r.Failed? ==> r.error.Missing? && r.error.id in named && r.error.id !in pack.Keys + repository.Keys
  {
    held' := held;
    for i := 0 to |named|
      invariant held' <= repository.Keys
      invariant forall j | 0 <= j < i :: named[j] in pack.Keys + repository.Keys
    {
      if named[i] in held' || named[i] in pack {
        continue;
      }
      if named[i] !in repository {
        assert named[i] in Elems(named);
        return Failed(Missing(named[i])), held';
      }
      held' := held' + {named[i]};
    }
    return Fine, held';
  }

  /** Decides `Connected` by one look at each pushed object. */
  method CheckConnected(pack: Store, listed: seq<ID>, repository: Store, tips: seq<ID>) returns (r: Outcome)
    requires Elems(listed) == pack.Keys
    ensures r.Fine? <==> Connected(pack, repository, Elems(tips))
    ensures r.Failed? ==> r.error.Missing? && r.error.id !in pack.Keys + repository.Keys
  {
    hide Links;
    var held: set<ID>;
    r, held := HasAll(pack, repository, tips, {});
    if r.Failed? {
      return;
    }
    for i := 0 to |listed|
      invariant held <= repository.Keys
      invariant forall j | 0 <= j < i :: listed[j] in pack ==> Links(Everything, pack[listed[j]]) <= pack.Keys + repository.Keys
    {
      assert listed[i] in Elems(listed);
      NamedIsLinks(pack[listed[i]]);
      r, held := HasAll(pack, repository, Named(pack[listed[i]]), held);
      if r.Failed? {
        return;
      }
    }
    assert forall id | id in pack :: id in Elems(listed);
    return Fine;
  }

  // ---- The commands ----

  datatype Why = NotARef | Moved | DeletesHead | Unheld(error: Error) | BranchToTag | NoCommit | NeedsManage

  datatype Verdict = Accepted | Refused(at: nat, why: Why)

  predicate Protected(refs: Refs, name: RefName) {
    name in refs && refs[name].protected
  }

  /** What takes grant:manage. The last line is wider than it need be where Descends can give up. */
  ghost predicate Restricted(refs: Refs, objects: Store, c: Command) {
    || Protected(refs, c.ref)
    || c.after == ZERO
    || (c.before != ZERO && c.ref.TagRef?)
    || (c.before != ZERO && (!Reaches(Parents, objects, c.after, c.before) || PastDeciding(objects, c.after, 0x10_0000)))
  }

  /** What is known of a command judged and let by. */
  ghost predicate Allowed(refs: Refs, head: string, objects: Store, manages: bool, c: Command) {
    && !c.ref.OtherRef? && Now(refs, c.ref) == c.before && (c.before != ZERO || c.after != ZERO)
    && (c.after == ZERO ==> c.ref != Branch(head) && c.forced)
    && (c.after != ZERO ==>
          && PeelToCommit(objects, c.after, TAG_DEPTH) == Ok(c.commit) && c.commit != ZERO
          && (c.ref.Branch? ==> c.commit == c.after))
    && (!c.forced && c.before != ZERO ==> c.ref.Branch? && Reaches(Parents, objects, c.after, c.before))
    && c.unprotected == (!c.forced && !Protected(refs, c.ref))
    && (!c.unprotected ==> manages && Restricted(refs, objects, c))
  }

  /** Why a command refused is. */
  ghost predicate Justified(refs: Refs, head: string, objects: Store, manages: bool, c: Command, why: Why) {
    match why
    case NotARef => c.ref.OtherRef?
    case Moved => Now(refs, c.ref) != c.before
    case DeletesHead => c.after == ZERO && c.ref == Branch(head)
    case Unheld(_) => exists x :: Reaches(Behind, objects, c.after, x) && x !in objects
    case BranchToTag => c.ref.Branch? && PeelToCommit(objects, c.after, TAG_DEPTH) != Ok(c.after)
    case NoCommit => PeelToCommit(objects, c.after, TAG_DEPTH) == Ok(ZERO)
    case NeedsManage => !manages && Restricted(refs, objects, c)
  }

  /** What a push asked, whatever judging it filled in. */
  predicate SameAsked(c: Command, d: Command) {
    c.ref == d.ref && c.before == d.before && c.after == d.after
  }

  lemma PeelErrs(objects: Store, id: ID, fuel: nat)
    requires PeelToCommit(objects, id, fuel).Err?
    ensures exists x :: Reaches(Behind, objects, id, x) && x !in objects
    decreases fuel
  {
    ReachSelf(Behind, objects, id);
    if id in objects {
      var next := objects[id].tagged;
      PeelErrs(objects, next, fuel - 1);
      var x :| Reaches(Behind, objects, next, x) && x !in objects;
      ReachStep(Behind, objects, id, id, next);
      ReachTrans(Behind, objects, id, next, x);
    }
  }

  datatype Judged = Let(command: Command) | Not(why: Why)

  /** A branch is made, or moved to a commit that follows the one it is at alone. */
  predicate Advances(objects: Store, c: Command) {
    c.ref.Branch? && IsCommit(objects, c.after) && (c.before == ZERO || JustAhead(objects, c.after, c.before))
  }

  /** And it is where the push found it, and the pusher's to move: this is let by, however long its history. */
  predicate Forward(refs: Refs, objects: Store, manages: bool, c: Command) {
    Advances(objects, c) && c.after != ZERO && Now(refs, c.ref) == c.before && (manages || !Protected(refs, c.ref))
  }

  /** Judges where a command that deletes nothing leads: the commit it peels to, and whether the move
      is a fast-forward. */
  method JudgeMove(objects: Store, c: Command) returns (r: Judged)
    requires c.after != ZERO
    ensures r.Let? ==> SameAsked(c, r.command)
    ensures r.Let? ==> PeelToCommit(objects, c.after, TAG_DEPTH) == Ok(r.command.commit) && r.command.commit != ZERO
    ensures r.Let? && c.ref.Branch? ==> r.command.commit == c.after
    ensures r.Let? && !r.command.forced && c.before != ZERO ==>
              c.ref.Branch? && Reaches(Parents, objects, c.after, c.before)
    ensures r.Let? && r.command.forced ==>
              c.before != ZERO && (!c.ref.Branch? || !Reaches(Parents, objects, c.after, c.before) || PastDeciding(objects, c.after, 0x10_0000))
    ensures Advances(objects, c) ==> r == Let(c.(commit := c.after, forced := false))
    ensures r.Not? ==> r.why.Unheld? || r.why.BranchToTag? || r.why.NoCommit?
    ensures r.Not? ==> Justified(map[], "", objects, false, c, r.why)
  {
    hide Reaches, PastDeciding;
    var peeled := PeelCommit(objects, c.after);
    if peeled.Err? {
      PeelErrs(objects, c.after, TAG_DEPTH);
      return Not(Unheld(peeled.error));
    }
    var commit := peeled.value;
    if c.ref.Branch? && commit != c.after {
      return Not(BranchToTag);
    }
    if commit == ZERO {
      return Not(NoCommit);
    }
    var forced := false;
    if c.before == ZERO {
    } else if !c.ref.Branch? {
      forced := true;
    } else {
      var ahead := Descends(objects, c.after, c.before, DESCENDS_MAX);
      if ahead.Err? {
        MissingBehind(objects, c.after);
        return Not(Unheld(ahead.error));
      }
      forced := !ahead.value;
    }
    return Let(c.(commit := commit, forced := forced));
  }

  lemma MissingBehind(objects: Store, a: ID)
    requires exists x :: Reaches(Parents, objects, a, x) && x !in objects
    ensures exists x :: Reaches(Behind, objects, a, x) && x !in objects
  {
    var x :| Reaches(Parents, objects, a, x) && x !in objects;
    ReachMono(Parents, Behind, objects, objects, a, x);
  }

  /** Either the command with its last three fields filled in, which is Allowed, or a reason that is Justified. */
  method JudgeCommand(refs: Refs, head: string, objects: Store, manages: bool, c: Command) returns (r: Judged)
    requires c.before != ZERO || c.after != ZERO
    ensures r.Let? ==> SameAsked(c, r.command) && Allowed(refs, head, objects, manages, r.command)
    ensures r.Not? ==> Justified(refs, head, objects, manages, c, r.why)
    ensures Forward(refs, objects, manages, c) ==> r == Let(c.(commit := c.after, forced := false, unprotected := !Protected(refs, c.ref)))
    ensures Forward(refs, objects, true, c) && !Forward(refs, objects, manages, c) ==> r == Not(NeedsManage)
  {
    hide Reaches, PastDeciding, JustAhead;
    if c.ref.OtherRef? {
      return Not(NotARef);
    }
    if Now(refs, c.ref) != c.before {
      return Not(Moved);
    }
    var d := c;
    if c.after == ZERO {
      if c.ref == Branch(head) {
        return Not(DeletesHead);
      }
      d := d.(forced := true);
    } else {
      r := JudgeMove(objects, c);
      if r.Not? {
        return;
      }
      d := r.command;
    }
    d := d.(unprotected := !d.forced && !Protected(refs, c.ref));
    if !d.unprotected && !manages {
      return Not(NeedsManage);
    }
    return Let(d);
  }

  /** Judges the commands of a push in place, each to what it was judged to be, and refuses the whole
      of it for the first that may not be. */
  method Judge(refs: Refs, head: string, objects: Store, manages: bool, commands: array<Command>) returns (v: Verdict)
    requires forall i | 0 <= i < commands.Length :: commands[i].before != ZERO || commands[i].after != ZERO
    modifies commands
    ensures forall i | 0 <= i < commands.Length :: SameAsked(commands[i], old(commands[i]))
    ensures v.Accepted? ==> forall i | 0 <= i < commands.Length :: Allowed(refs, head, objects, manages, commands[i])
    ensures v.Refused? ==> v.at < commands.Length && Justified(refs, head, objects, manages, old(commands[v.at]), v.why)
    ensures v.Refused? ==> !Forward(refs, objects, manages, old(commands[v.at]))
  {
    hide Allowed, Justified, Forward;
    for i := 0 to commands.Length
      invariant forall j | 0 <= j < i :: SameAsked(commands[j], old(commands[j]))
      invariant forall j | i <= j < commands.Length :: commands[j] == old(commands[j])
      invariant forall j | 0 <= j < i :: Allowed(refs, head, objects, manages, commands[j])
    {
      var judged := JudgeCommand(refs, head, objects, manages, commands[i]);
      if judged.Not? {
        return Refused(i, judged.why);
      }
      commands[i] := judged.command;
    }
    return Accepted;
  }

  // ---- The refs ----

  /** What a ref names once moved: the commit, and the tag object where that is not the commit. */
  function Moves(c: Command, protected: bool): Ref {
    if c.commit == c.after then Ref(c.after, ZERO, protected) else Ref(c.commit, c.after, protected)
  }

  datatype Update = Updated(refs: Refs) | Stale | NowProtected | DefaultBranch | NoCommand | Twice | Idle | NotATag

  /** Moves one ref, or is Stale where the ref is not at `before`; ZERO matches a missing ref and an unborn one. */
  function Swap(refs: Refs, c: Command): Update {
    if c.before == ZERO then
      if c.ref !in refs then Updated(refs[c.ref := Moves(c, false)])
      else if refs[c.ref].commit == ZERO then Updated(refs[c.ref := Moves(c, refs[c.ref].protected)])
      else Stale
    else if Now(refs, c.ref) != c.before then Stale
    else if c.after == ZERO then Updated(refs - {c.ref})
    else Updated(refs[c.ref := Moves(c, refs[c.ref].protected)])
  }

  function SwapAll(refs: Refs, commands: seq<Command>): Update
    decreases |commands|
  {
    if commands == [] then Updated(refs)
    else
      var first := Swap(refs, commands[0]);
      if first.Updated? then SwapAll(first.refs, commands[1..]) else first
  }

  /** The refs of one push moved, all of them or none, under the repository's lock. */
  function UpdateRefs(refs: Refs, head: string, commands: seq<Command>): Update {
    if commands == [] then NoCommand
    else if exists i, j :: 0 <= i < j < |commands| && commands[i].ref == commands[j].ref then Twice
    else if exists c | c in commands :: c.before == ZERO && c.after == ZERO then Idle
    else if exists c | c in commands :: c.after != ZERO && c.commit != c.after && !c.ref.TagRef? then NotATag
    else if exists c | c in commands :: c.after == ZERO && c.ref == Branch(head) then DefaultBranch
    else if exists c | c in commands :: c.unprotected && Protected(refs, c.ref) then NowProtected
    else SwapAll(refs, commands)
  }

  // ---- What moving refs comes to ----

  /** A ref is where a command found it: at the tag object or else the commit `before`, and, for ZERO, missing or
      with no commit yet. */
  predicate AtBefore(refs: Refs, c: Command) {
    if c.before == ZERO then c.ref in refs ==> refs[c.ref].commit == ZERO
    else c.ref in refs && c.before == (if refs[c.ref].tag != ZERO then refs[c.ref].tag else refs[c.ref].commit)
  }

  /** A command had its effect: its ref names what it asked for, annotated or not, and is as protected as it was;
      or it is gone. */
  predicate LandedAt(refs: Refs, next: Refs, c: Command) {
    if c.after == ZERO then c.ref !in next
    else
      && c.ref in next && next[c.ref].commit == c.commit
      && next[c.ref].tag == (if c.commit == c.after then ZERO else c.after)
      && next[c.ref].protected == (c.ref in refs && refs[c.ref].protected)
  }

  /** All of them had, and no other ref changed. */
  ghost predicate Landed(refs: Refs, next: Refs, commands: seq<Command>) {
    && (forall c | c in commands :: LandedAt(refs, next, c))
    && (forall name | forall c | c in commands :: c.ref != name ::
          (name in refs <==> name in next) && (name in refs ==> next[name] == refs[name]))
  }

  ghost predicate DistinctRefs(commands: seq<Command>) {
    forall i, j | 0 <= i < j < |commands| :: commands[i].ref != commands[j].ref
  }

  predicate Asks(c: Command) {
    c.before != ZERO || c.after != ZERO
  }

  lemma SwapLands(refs: Refs, c: Command)
    requires Asks(c)
    ensures Swap(refs, c).Updated? <==> AtBefore(refs, c)
    ensures Swap(refs, c).Updated? ==> Landed(refs, Swap(refs, c).refs, [c])
    ensures Swap(refs, c).Updated? || Swap(refs, c) == Stale
  {
    if Swap(refs, c).Updated? {
      var next := Swap(refs, c).refs;
      assert LandedAt(refs, next, c);
      forall name | forall x | x in [c] :: x.ref != name
        ensures (name in refs <==> name in next) && (name in refs ==> next[name] == refs[name])
      {
        assert c in [c];
      }
    }
  }

  lemma Untouched(refs: Refs, next: Refs, c: Command, d: Command)
    requires Landed(refs, next, [c]) && d.ref != c.ref
    ensures (d.ref in refs <==> d.ref in next) && (d.ref in refs ==> next[d.ref] == refs[d.ref])
  {
    assert forall x | x in [c] :: x.ref != d.ref;
  }

  lemma {:induction false} SwapAllLands(refs: Refs, cs: seq<Command>)
    requires DistinctRefs(cs) && forall c | c in cs :: Asks(c)
    ensures SwapAll(refs, cs).Updated? <==> forall c | c in cs :: AtBefore(refs, c)
    ensures SwapAll(refs, cs).Updated? ==> Landed(refs, SwapAll(refs, cs).refs, cs)
    ensures SwapAll(refs, cs).Updated? || SwapAll(refs, cs) == Stale
    decreases |cs|
  {
    hide Swap, Landed, LandedAt, Asks;
    if cs == [] {
      NoneLanded(refs);
    } else {
      var c, rest := cs[0], cs[1..];
      assert cs == [c] + rest && c in cs;
      SwapLands(refs, c);
      if Swap(refs, c).Updated? {
        var next := Swap(refs, c).refs;
        forall d | d in rest
          ensures d.ref != c.ref && (AtBefore(next, d) <==> AtBefore(refs, d))
        {
          var j :| 0 <= j < |rest| && rest[j] == d;
          assert cs[j + 1] == d;
          Untouched(refs, next, c, d);
        }
        SwapAllLands(next, rest);
        if SwapAll(next, rest).Updated? {
          LandedThen(refs, next, SwapAll(next, rest).refs, c, rest);
        }
      }
    }
  }

  lemma NoneLanded(refs: Refs)
    ensures Landed(refs, refs, [])
  {}

  lemma LandedThen(refs: Refs, mid: Refs, next: Refs, c: Command, rest: seq<Command>)
    requires Landed(refs, mid, [c]) && Landed(mid, next, rest) && forall d | d in rest :: d.ref != c.ref
    ensures Landed(refs, next, [c] + rest)
  {
    assert c in [c];
    forall d | d in [c] + rest
      ensures LandedAt(refs, next, d)
    {
      if d == c {
        assert forall x | x in rest :: x.ref != c.ref;
      } else {
        Untouched(refs, mid, c, d);
      }
    }
    forall name | forall x | x in [c] + rest :: x.ref != name
      ensures (name in refs <==> name in next) && (name in refs ==> next[name] == refs[name])
    {
      assert forall x | x in [c] :: x in [c] + rest;
      assert forall x | x in rest :: x in [c] + rest;
    }
  }

  /** What a refusal says of the push is so. */
  ghost predicate Explains(refs: Refs, head: string, cs: seq<Command>, u: Update) {
    match u
    case Updated(_) => true
    case Stale => exists c | c in cs :: !AtBefore(refs, c)
    case NowProtected => exists c | c in cs :: c.unprotected && c.ref in refs && refs[c.ref].protected
    case DefaultBranch => exists c | c in cs :: c.after == ZERO && c.ref == Branch(head)
    case NoCommand => cs == []
    case Twice => !DistinctRefs(cs)
    case Idle => exists c | c in cs :: !Asks(c)
    case NotATag => exists c | c in cs :: c.after != ZERO && c.commit != c.after && !c.ref.TagRef?
  }

  /** A push moves its refs if and only if each of its commands asks something, of a ref of its own, that is where
      the command found it; none deletes the default branch, moves a ref protected since, or annotates what is no tag.
      Then every command has its effect, and nothing else changes. */
  lemma UpdatedLands(refs: Refs, head: string, cs: seq<Command>)
    ensures UpdateRefs(refs, head, cs).Updated? <==>
            && cs != [] && DistinctRefs(cs)
            && (forall c | c in cs :: Asks(c) && AtBefore(refs, c))
            && (forall c | c in cs :: c.after == ZERO ==> c.ref != Branch(head))
            && (forall c | c in cs :: c.unprotected ==> !(c.ref in refs && refs[c.ref].protected))
            && (forall c | c in cs :: c.after != ZERO && c.commit != c.after ==> c.ref.TagRef?)
    ensures UpdateRefs(refs, head, cs).Updated? ==> Landed(refs, UpdateRefs(refs, head, cs).refs, cs)
    ensures Explains(refs, head, cs, UpdateRefs(refs, head, cs))
  {
    hide SwapAll, Landed, AtBefore;
    if DistinctRefs(cs) && forall c | c in cs :: Asks(c) {
      SwapAllLands(refs, cs);
    }
  }
}
