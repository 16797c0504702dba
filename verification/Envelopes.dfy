/** The batch that travels along a port: cut into shards for a fan-out, and joined again. */
module Envelopes {
  import opened Options
  import opened Names

  /** An instant, and the zone it is told in: 0 is UTC. */
  datatype Time = Time(instant: int, zone: int)

  /** The instant of the time that is not set. */
  const UNSET: int := 0

  datatype Meta = Meta(run: string, step: string, port: string, attempt: int, count: int, producedAt: Time)

  datatype Item = Item(id: string, data: string, files: seq<string>)

  datatype Envelope = Envelope(meta: Meta, items: seq<Item>)

  /** What an envelope is held to: how many items, where that is limited; whether a file entry is one;
      whether the values an item carries inline are light enough; and whether it is small enough written. */
  datatype Limits = Limits(maxItems: int, fileOk: string -> bool, lightEnough: Item -> bool, smallEnough: Envelope -> bool)

  predicate MetaOk(m: Meta) {
    && IsSegment(m.run) && IsIdentifier(m.step) && IsIdentifier(m.port)
    && m.attempt >= 1 && m.count >= 0 && m.producedAt.instant != UNSET
  }

  predicate ItemOk(l: Limits, i: Item) {
    i.id != "" && forall f | f in i.files :: l.fileOk(f)
  }

  predicate Valid(l: Limits, e: Envelope) {
    && MetaOk(e.meta)
    && e.meta.count == |e.items|
    && (forall i | i in e.items :: ItemOk(l, i))
    && (l.maxItems > 0 ==> |e.items| <= l.maxItems)
    && (forall i | i in e.items :: l.lightEnough(i))
    && l.smallEnough(e)
  }

  /** Applies the rules of an envelope one after the other. */
  method Validate(l: Limits, e: Envelope) returns (ok: bool)
    ensures ok <==> Valid(l, e)
  {
    hide IsSegment, IsIdentifier;
    var m := e.meta;
    var named := Segment(m.run);
    if !named {
      return false;
    }
    named := Identifier(m.step);
    if !named {
      return false;
    }
    named := Identifier(m.port);
    if !named || m.attempt < 1 || m.count < 0 || m.producedAt.instant == UNSET {
      return false;
    }
    if m.count != |e.items| {
      return false;
    }
    for i := 0 to |e.items|
      invariant forall j | 0 <= j < i :: ItemOk(l, e.items[j])
    {
      assert e.items[i] in e.items;
      if e.items[i].id == "" || exists f | f in e.items[i].files :: !l.fileOk(f) {
        return false;
      }
    }
    if l.maxItems > 0 && |e.items| > l.maxItems {
      return false;
    }
    for i := 0 to |e.items|
      invariant forall j | 0 <= j < i :: l.lightEnough(e.items[j])
    {
      assert e.items[i] in e.items;
      if !l.lightEnough(e.items[i]) {
        return false;
      }
    }
    return l.smallEnough(e);
  }

  function Items(shards: seq<Envelope>): seq<Item> {
    if shards == [] then [] else Items(shards[..|shards| - 1]) + shards[|shards| - 1].items
  }

  predicate SameOrigin(m: Meta, n: Meta) {
    m.run == n.run && m.step == n.step && m.port == n.port
  }

  /** All of them agree with the first on where they come from. */
  predicate OnePort(shards: seq<Envelope>) {
    forall s | s in shards :: SameOrigin(s.meta, shards[0].meta)
  }

  /** `e` is the shards end to end: their items in order, the highest attempt any needed and the last
      time any was produced at, told in UTC. */
  ghost predicate Joins(shards: seq<Envelope>, e: Envelope) {
    && shards != [] && SameOrigin(e.meta, shards[0].meta)
    && e.items == Items(shards) && e.meta.count == |e.items| && e.meta.producedAt.zone == 0
    && Top(Attempt, shards, e.meta.attempt) && Top(Instant, shards, e.meta.producedAt.instant)
  }

  function Attempt(e: Envelope): int {
    e.meta.attempt
  }

  function Instant(e: Envelope): int {
    e.meta.producedAt.instant
  }

  /** `most` is the largest of the shards' keys. */
  ghost predicate Top(key: Envelope -> int, shards: seq<Envelope>, most: int) {
    (forall s | s in shards :: key(s) <= most) && exists s | s in shards :: key(s) == most
  }

  lemma JoinsOne(shards: seq<Envelope>, e: Envelope, f: Envelope)
    requires Joins(shards, e) && Joins(shards, f)
    ensures e == f
  {
    hide Items;
    assert e.meta.producedAt == f.meta.producedAt;
    assert e.meta == f.meta;
  }

  /** Computes the one envelope that `Joins` the shards, and answers None exactly where there is none, they are not
      OnePort, or it is not Valid. */
  method Concat(shards: seq<Envelope>, l: Limits) returns (r: Option<Envelope>)
    ensures r.Some? ==> OnePort(shards) && Joins(shards, r.value) && Valid(l, r.value)
    ensures forall e | OnePort(shards) && Joins(shards, e) && Valid(l, e) :: r == Some(e)
  {
    hide Valid;
    if shards == [] {
      return None;
    }
    var first := shards[0].meta;
    var attempt, at, items := first.attempt, Time(first.producedAt.instant, 0), [];
    assert shards[0] in shards[..0] + [shards[0]];
    for n := 0 to |shards|
      invariant forall s | s in shards[..n] :: SameOrigin(s.meta, first)
      invariant items == Items(shards[..n]) && at.zone == 0
      invariant Top(Attempt, shards[..n] + [shards[0]], attempt) && Top(Instant, shards[..n] + [shards[0]], at.instant)
    {
      var s := shards[n];
      if !SameOrigin(s.meta, first) {
        assert s in shards;
        return None;
      }
      Further(shards, n);
      TopMore(Attempt, shards[..n] + [shards[0]], attempt, shards[..n + 1] + [shards[0]], s);
      TopMore(Instant, shards[..n] + [shards[0]], at.instant, shards[..n + 1] + [shards[0]], s);
      if s.meta.attempt > attempt {
        attempt := s.meta.attempt;
      }
      if s.meta.producedAt.instant > at.instant {
        at := Time(s.meta.producedAt.instant, 0);
      }
      items := items + s.items;
    }
    assert shards[..|shards|] == shards;
    TopOnce(Attempt, shards, attempt);
    TopOnce(Instant, shards, at.instant);
    var out := Envelope(Meta(first.run, first.step, first.port, attempt, |items|, at), items);
    forall e | Joins(shards, e)
      ensures e == out
    {
      JoinsOne(shards, e, out);
    }
    var ok := Validate(l, out);
    if !ok {
      return None;
    }
    return Some(out);
  }

  lemma Further(shards: seq<Envelope>, n: nat)
    requires n < |shards|
    ensures forall s :: s in shards[..n + 1] + [shards[0]] <==> s == shards[n] || s in shards[..n] + [shards[0]]
    ensures forall s :: s in shards[..n + 1] <==> s == shards[n] || s in shards[..n]
    ensures Items(shards[..n + 1]) == Items(shards[..n]) + shards[n].items
  {
    assert shards[..n + 1] == shards[..n] + [shards[n]] && shards[..n + 1][..n] == shards[..n];
  }

  lemma TopMore(key: Envelope -> int, some: seq<Envelope>, most: int, more: seq<Envelope>, x: Envelope)
    requires Top(key, some, most) && forall s :: s in more <==> s == x || s in some
    ensures Top(key, more, if key(x) > most then key(x) else most)
  {
    assert x in more;
    var s :| s in some && key(s) == most;
    assert s in more;
  }

  lemma TopOnce(key: Envelope -> int, shards: seq<Envelope>, most: int)
    requires shards != [] && Top(key, shards + [shards[0]], most)
    ensures Top(key, shards, most)
  {
    assert forall s :: s in shards + [shards[0]] <==> s in shards;
  }

  // ---- Split ----

  /** The shards of an envelope: its items in order, each shard full but the last, and its metadata but
      for the count. */
  predicate Splits(e: Envelope, size: int, shards: seq<Envelope>) {
    && Items(shards) == e.items
    && (forall s | s in shards :: s.meta == e.meta.(count := |s.items|) && 0 < |s.items| <= size)
    && forall i | 0 <= i < |shards| - 1 :: |shards[i].items| == size
  }

  lemma SplitsNone(meta: Meta, size: int)
    ensures Splits(Envelope(meta, []), size, [])
  {}

  lemma SplitsMore(meta: Meta, before: seq<Item>, size: int, shards: seq<Envelope>, items: seq<Item>)
    requires Splits(Envelope(meta, before), size, shards) && 0 < |items| <= size
    requires shards != [] ==> |shards[|shards| - 1].items| == size
    ensures Splits(Envelope(meta, before + items), size, shards + [Envelope(meta.(count := |items|), items)])
  {
    var shard := Envelope(meta.(count := |items|), items);
    assert (shards + [shard])[..|shards|] == shards;
  }

  method Split(e: Envelope, size: int) returns (r: Option<seq<Envelope>>)
    ensures r.None? <==> size < 1
    ensures r.Some? ==> Splits(e, size, r.value)
  {
    hide Splits;
    if size < 1 {
      return None;
    }
    SplitsNone(e.meta, size);
    var out: seq<Envelope> := [];
    var start := 0;
    while start < |e.items|
      invariant start >= 0 && Splits(Envelope(e.meta, e.items[..if start < |e.items| then start else |e.items|]), size, out)
      invariant start < |e.items| && out != [] ==> |out[|out| - 1].items| == size
    {
      var end := if start + size < |e.items| then start + size else |e.items|;
      var items := e.items[start..end];
      var shard := Envelope(e.meta.(count := |items|), items);
      SplitsMore(e.meta, e.items[..start], size, out, items);
      assert e.items[..start] + items == e.items[..end];
      out := out + [shard];
      start := start + size;
    }
    assert e.items[..|e.items|] == e.items;
    return Some(out);
  }

  lemma {:induction false} FullSize(shards: seq<Envelope>, size: nat)
    requires forall s | s in shards :: |s.items| == size
    ensures |Items(shards)| == |shards| * size
  {
    if shards != [] {
      FullSize(shards[..|shards| - 1], size);
      assert shards[|shards| - 1] in shards;
      OneMore(|shards| - 1, size);
    }
  }

  lemma OneMore(n: nat, size: nat)
    ensures (n + 1) * size == n * size + size
  {}

  /** As many shards as it takes: the items fill all but the last, and the last is not empty. */
  lemma ShardCount(e: Envelope, size: int, shards: seq<Envelope>)
    requires size >= 1 && Splits(e, size, shards)
    ensures if e.items == [] then shards == [] else (|shards| - 1) * size < |e.items| <= |shards| * size
  {
    if shards != [] {
      var full, last := shards[..|shards| - 1], shards[|shards| - 1];
      FullSize(full, size);
      assert last in shards;
      OneMore(|full|, size);
    }
  }

  /** Joining the shards of an envelope gives it back, told in UTC and with the count of its items: so
      itself, exactly where it was so already. */
  lemma JoinOfSplit(e: Envelope, size: int, shards: seq<Envelope>)
    requires e.items != [] && Splits(e, size, shards)
    ensures var whole := e.(meta := e.meta.(count := |e.items|, producedAt := Time(e.meta.producedAt.instant, 0)));
            && OnePort(shards) && Joins(shards, whole)
            && (whole == e <==> e.meta.producedAt.zone == 0 && e.meta.count == |e.items|)
  {
    assert shards != [];
    assert shards[0] in shards;
  }

  /** What a fan-out splits, its merge makes again exactly where it is a valid envelope told in UTC. */
  method SplitThenConcat(e: Envelope, size: int, l: Limits) returns (r: Option<Envelope>)
    requires size >= 1 && e.items != []
    ensures r == Some(e) <==> Valid(l, e) && e.meta.producedAt.zone == 0
  {
    hide Valid;
    var shards := Split(e, size);
    JoinOfSplit(e, size, shards.value);
    r := Concat(shards.value, l);
    if Valid(l, e) {
      CountOf(l, e);
    }
  }

  lemma CountOf(l: Limits, e: Envelope)
    requires Valid(l, e)
    ensures e.meta.count == |e.items|
  {}

  // ---- Joining in groups ----

  function Flat(groups: seq<seq<Envelope>>): seq<Envelope> {
    if groups == [] then [] else Flat(groups[..|groups| - 1]) + groups[|groups| - 1]
  }

  /** Each of `parts` is what its group joins to. */
  ghost predicate Parts(groups: seq<seq<Envelope>>, parts: seq<Envelope>) {
    |parts| == |groups| && forall i | 0 <= i < |parts| :: OnePort(groups[i]) && Joins(groups[i], parts[i])
  }

  lemma {:induction false} ItemsConcat(x: seq<Envelope>, y: seq<Envelope>)
    ensures Items(x + y) == Items(x) + Items(y)
  {
    if y == [] {
      assert x + y == x;
    } else {
      ItemsConcat(x, y[..|y| - 1]);
      assert (x + y)[..|x + y| - 1] == x + y[..|y| - 1];
    }
  }

  lemma {:induction false} ItemsOfParts(groups: seq<seq<Envelope>>, parts: seq<Envelope>)
    requires Parts(groups, parts)
    ensures Items(Flat(groups)) == Items(parts)
  {
    hide Top, OnePort;
    if groups != [] {
      var n := |groups| - 1;
      ItemsOfParts(groups[..n], parts[..n]);
      ItemsConcat(Flat(groups[..n]), groups[n]);
      assert Joins(groups[n], parts[n]);
    }
  }

  lemma {:induction false} InFlat(groups: seq<seq<Envelope>>, s: Envelope)
    ensures s in Flat(groups) <==> exists i :: 0 <= i < |groups| && s in groups[i]
  {
    if groups != [] {
      var n := |groups| - 1;
      InFlat(groups[..n], s);
      assert forall i | 0 <= i < n :: groups[..n][i] == groups[i];
      if i :| 0 <= i < |groups| && s in groups[i] {
        assert i == n || s in groups[..n][i];
      }
    }
  }

  lemma {:induction false} FlatFirst(groups: seq<seq<Envelope>>)
    requires groups != [] && forall i | 0 <= i < |groups| :: groups[i] != []
    ensures Flat(groups) != [] && Flat(groups)[0] == groups[0][0]
    decreases |groups|
  {
    if |groups| > 1 {
      assert groups[..|groups| - 1][0] == groups[0];
      FlatFirst(groups[..|groups| - 1]);
    } else {
      assert groups[..0] == [];
    }
  }

  /** Joining the joined groups is joining all the shards at once, each where the other is. */
  lemma Grouped(groups: seq<seq<Envelope>>, parts: seq<Envelope>, e: Envelope)
    requires Parts(groups, parts)
    ensures OnePort(parts) && Joins(parts, e) <==> OnePort(Flat(groups)) && Joins(Flat(groups), e)
  {
    hide Items, Top, Joins, OnePort, Flat;
    GroupedPorts(groups, parts);
    GroupedTops(groups, parts, e);
    ItemsOfParts(groups, parts);
    GroupedFirst(groups, parts);
    JoinsIs(parts, e);
    JoinsIs(Flat(groups), e);
  }

  lemma JoinsIs(shards: seq<Envelope>, e: Envelope)
    ensures Joins(shards, e) <==>
            && shards != [] && SameOrigin(e.meta, shards[0].meta)
            && e.items == Items(shards) && e.meta.count == |e.items| && e.meta.producedAt.zone == 0
            && Top(Attempt, shards, e.meta.attempt) && Top(Instant, shards, e.meta.producedAt.instant)
  {}

  lemma GroupedFirst(groups: seq<seq<Envelope>>, parts: seq<Envelope>)
    requires Parts(groups, parts)
    ensures parts == [] <==> Flat(groups) == []
    ensures parts != [] ==> SameOrigin(parts[0].meta, Flat(groups)[0].meta)
  {
    hide Items, Top, OnePort;
    if groups != [] {
      forall i | 0 <= i < |groups|
        ensures groups[i] != []
      {
        assert Joins(groups[i], parts[i]);
      }
      FlatFirst(groups);
      assert Joins(groups[0], parts[0]);
    }
  }

  lemma OriginsIn(group: seq<Envelope>, part: Envelope)
    requires OnePort(group) && Joins(group, part)
    ensures group != [] && forall s | s in group :: SameOrigin(s.meta, part.meta)
  {}

  lemma GroupedPorts(groups: seq<seq<Envelope>>, parts: seq<Envelope>)
    requires Parts(groups, parts)
    ensures OnePort(parts) <==> OnePort(Flat(groups))
  {
    hide Items, Top, Joins, Flat;
    GroupedFirst(groups, parts);
    var flat := Flat(groups);
    if OnePort(parts) {
      forall s | s in flat
        ensures SameOrigin(s.meta, flat[0].meta)
      {
        InFlat(groups, s);
        var i :| 0 <= i < |groups| && s in groups[i];
        OriginsIn(groups[i], parts[i]);
        assert parts[i] in parts;
      }
    }
    if OnePort(flat) {
      forall p | p in parts
        ensures SameOrigin(p.meta, parts[0].meta)
      {
        var i :| 0 <= i < |parts| && parts[i] == p;
        OriginsIn(groups[i], parts[i]);
        assert groups[i][0] in groups[i];
        InFlat(groups, groups[i][0]);
      }
    }
  }

  lemma GroupedTops(groups: seq<seq<Envelope>>, parts: seq<Envelope>, e: Envelope)
    requires Parts(groups, parts)
    ensures Top(Attempt, parts, e.meta.attempt) <==> Top(Attempt, Flat(groups), e.meta.attempt)
    ensures Top(Instant, parts, e.meta.producedAt.instant) <==> Top(Instant, Flat(groups), e.meta.producedAt.instant)
  {
    hide Items, Flat, OnePort, Top;
    GroupedTop(Attempt, groups, parts, e.meta.attempt);
    GroupedTop(Instant, groups, parts, e.meta.producedAt.instant);
  }

  /** The largest of all is the largest of the groups' largest. */
  lemma GroupedTop(key: Envelope -> int, groups: seq<seq<Envelope>>, parts: seq<Envelope>, most: int)
    requires |parts| == |groups| && forall i | 0 <= i < |parts| :: Top(key, groups[i], key(parts[i]))
    ensures Top(key, parts, most) <==> Top(key, Flat(groups), most)
  {
    hide Flat;
    if Top(key, parts, most) {
      var i :| 0 <= i < |parts| && key(parts[i]) == most;
      var s :| s in groups[i] && key(s) == key(parts[i]);
      InFlat(groups, s);
      forall s | s in Flat(groups)
        ensures key(s) <= most
      {
        InFlat(groups, s);
        var i :| 0 <= i < |groups| && s in groups[i];
        assert parts[i] in parts;
      }
    }
    if Top(key, Flat(groups), most) {
      var s :| s in Flat(groups) && key(s) == most;
      InFlat(groups, s);
      var i :| 0 <= i < |groups| && s in groups[i];
      Bounded(key, groups, parts, most);
      assert parts[i] in parts;
    }
  }

  lemma Bounded(key: Envelope -> int, groups: seq<seq<Envelope>>, parts: seq<Envelope>, most: int)
    requires |parts| == |groups| && forall i | 0 <= i < |parts| :: Top(key, groups[i], key(parts[i]))
    requires forall s | s in Flat(groups) :: key(s) <= most
    ensures forall p | p in parts :: key(p) <= most
  {
    hide Flat;
    forall p | p in parts
      ensures key(p) <= most
    {
      var i :| 0 <= i < |parts| && parts[i] == p;
      var s :| s in groups[i] && key(s) == key(p);
      InFlat(groups, s);
    }
  }

  /** Concat of some groups, each by itself, then of what those gave; and of all their shards at once. Where each
      group is answered, both are, or neither, and the same. */
  method ConcatGroups(groups: seq<seq<Envelope>>, l: Limits) returns (parts: Option<seq<Envelope>>, whole: Option<Envelope>, flat: Option<Envelope>)
    ensures parts.Some? ==> Parts(groups, parts.value) && whole == flat && forall e | e in parts.value :: Valid(l, e)
    ensures parts.Some? && whole.Some? ==> OnePort(parts.value) && Joins(parts.value, whole.value) && Valid(l, whole.value)
    ensures parts.None? ==> exists i :: 0 <= i < |groups| && Unjoined(groups[i], l)
  {
    hide Valid, Joins, OnePort, Flat;
    var joined: seq<Envelope> := [];
    whole := None;
    flat := Concat(Flat(groups), l);
    for i := 0 to |groups|
      invariant |joined| == i && forall j | 0 <= j < i :: OnePort(groups[j]) && Joins(groups[j], joined[j]) && Valid(l, joined[j])
    {
      var part := Concat(groups[i], l);
      if part.None? {
        assert Unjoined(groups[i], l);
        return None, None, flat;
      }
      joined := joined + [part.value];
    }
    whole := Concat(joined, l);
    forall e
      ensures OnePort(joined) && Joins(joined, e) <==> OnePort(Flat(groups)) && Joins(Flat(groups), e)
    {
      Grouped(groups, joined, e);
    }
    return Some(joined), whole, flat;
  }

  /** A group that Concat refuses. */
  ghost predicate Unjoined(group: seq<Envelope>, l: Limits) {
    forall e | OnePort(group) && Joins(group, e) :: !Valid(l, e)
  }
}
