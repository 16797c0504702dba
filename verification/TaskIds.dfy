/** The identifier of a task: composed from its run, step, attempt and shard, and taken apart again. */
module TaskIds {
  import opened Paths
  import opened Names
  import opened Decimals
  import opened Options

  datatype Shard = Shard(index: int, of: int)

  const NO_SHARD := Shard(0, 0)

  /** One piece a fan-out could have produced, or none. */
  predicate IsShard(s: Shard) {
    s == NO_SHARD || 1 <= s.index <= s.of <= MAX_INT
  }

  datatype Task = Task(run: string, step: string, attempt: int, shard: Shard)

  predicate Valid(t: Task) {
    IsSegment(t.run) && IsIdentifier(t.step) && 1 <= t.attempt <= MAX_INT && IsShard(t.shard)
  }

  /** What AGK_SHARD carries, and nothing where there is no fan-out. */
  function ShardText(s: Shard): string {
    if s == NO_SHARD then "" else Written(s.index) + "/" + Written(s.of)
  }

  function NewTaskID(t: Task): string {
    var id := t.run + "/" + t.step + "/" + Written(t.attempt);
    if t.shard == NO_SHARD then id else id + "/" + ShardText(t.shard)
  }

  // ---- Cutting at slashes ----

  function Cut(s: string): seq<string>
    decreases |s|
  {
    HeadIs(s);
    var head := Head(s);
    if |head| == |s| then [s] else [head] + Cut(s[|head| + 1..])
  }

  function Join(parts: seq<string>): string {
    if parts == [] then "" else if |parts| == 1 then parts[0] else parts[0] + "/" + Join(parts[1..])
  }

  lemma {:induction false} JoinCut(s: string)
    ensures Join(Cut(s)) == s && |Cut(s)| > 0
    decreases |s|
  {
    hide Head;
    HeadIs(s);
    var head := Head(s);
    if |head| < |s| {
      var rest := s[|head| + 1..];
      JoinCut(rest);
      JoinFirst(head, Cut(rest));
      AtSlash(s, head);
    }
  }

  lemma JoinFirst(head: string, rest: seq<string>)
    requires rest != []
    ensures Join([head] + rest) == head + "/" + Join(rest)
  {
    assert ([head] + rest)[1..] == rest;
  }

  lemma AtSlash(s: string, head: string)
    requires head <= s && |head| < |s| && s[|head|] == '/'
    ensures s == head + "/" + s[|head| + 1..]
  {}

  lemma {:induction false} CutJoin(parts: seq<string>)
    requires parts != [] && forall p | p in parts :: '/' !in p
    ensures Cut(Join(parts)) == parts
  {
    var name, rest := parts[0], parts[1..];
    HeadOf(name, Join(rest));
    assert parts == [name] + rest;
    if rest != [] {
      CutJoin(rest);
      assert (name + "/" + Join(rest))[|name| + 1..] == Join(rest);
    }
  }

  function Segments(t: Task): seq<string> {
    [t.run, t.step, Written(t.attempt)] + if t.shard == NO_SHARD then [] else [Written(t.shard.index), Written(t.shard.of)]
  }

  lemma JoinFive(a: string, b: string, c: string, d: string, e: string)
    ensures Join([a, b, c]) == a + "/" + b + "/" + c
    ensures Join([a, b, c, d, e]) == a + "/" + b + "/" + c + "/" + (d + "/" + e)
  {
    assert [b, c][1..] == [c] && [a, b, c][1..] == [b, c];
    assert Join([b, c]) == b + "/" + c;
    assert a + "/" + (b + "/" + c) == a + "/" + b + "/" + c;
    assert [d, e][1..] == [e] && [c, d, e][1..] == [d, e] && [b, c, d, e][1..] == [c, d, e] && [a, b, c, d, e][1..] == [b, c, d, e];
    assert Join([d, e]) == d + "/" + e;
    assert Join([c, d, e]) == c + "/" + (d + "/" + e);
    assert Join([b, c, d, e]) == b + "/" + (c + "/" + (d + "/" + e));
    assert a + "/" + (b + "/" + (c + "/" + (d + "/" + e))) == a + "/" + b + "/" + c + "/" + (d + "/" + e);
  }

  lemma Composed(t: Task)
    ensures NewTaskID(t) == Join(Segments(t))
  {
    hide Join;
    JoinFive(t.run, t.step, Written(t.attempt), Written(t.shard.index), Written(t.shard.of));
    if t.shard == NO_SHARD {
      assert Segments(t) == [t.run, t.step, Written(t.attempt)];
    } else {
      assert Segments(t) == [t.run, t.step, Written(t.attempt), Written(t.shard.index), Written(t.shard.of)];
    }
  }

  /** Taking an identifier apart gives the segments it was composed of. */
  lemma CutComposed(t: Task)
    requires '/' !in t.run && '/' !in t.step
    ensures Cut(NewTaskID(t)) == Segments(t)
  {
    hide Join, Cut, Written;
    Composed(t);
    WrittenApart(t.attempt, 0);
    WrittenApart(t.shard.index, 0);
    WrittenApart(t.shard.of, 0);
    CutJoin(Segments(t));
  }

  /** No two tasks have one identifier, whatever their attempts and shards. */
  lemma Injective(t: Task, u: Task)
    requires '/' !in t.run && '/' !in t.step && '/' !in u.run && '/' !in u.step
    requires NewTaskID(t) == NewTaskID(u)
    ensures t == u
  {
    hide Written, Cut, NewTaskID;
    CutComposed(t);
    CutComposed(u);
    assert Segments(t)[0] == t.run && Segments(t)[1] == t.step && Segments(t)[2] == Written(t.attempt);
    assert Segments(u)[0] == u.run && Segments(u)[1] == u.step && Segments(u)[2] == Written(u.attempt);
    WrittenApart(t.attempt, u.attempt);
    WrittenApart(t.shard.index, u.shard.index);
    WrittenApart(t.shard.of, u.shard.of);
    assert t.shard != NO_SHARD ==> |Segments(t)| == 5;
    assert u.shard != NO_SHARD ==> |Segments(u)| == 5;
    if t.shard != NO_SHARD && u.shard != NO_SHARD {
      assert Segments(t)[3] == Written(t.shard.index) && Segments(t)[4] == Written(t.shard.of);
      assert Segments(u)[3] == Written(u.shard.index) && Segments(u)[4] == Written(u.shard.of);
    }
  }

  // ---- Parsing ----

  /** What the segments of an identifier have to be for some valid task to be composed of them. */
  lemma Parts(t: Task, s: string)
    requires Valid(t) && s == NewTaskID(t)
    ensures var parts := Cut(s);
            && |parts| == (if t.shard == NO_SHARD then 3 else 5)
            && parts[0] == t.run && parts[1] == t.step && parts[2] == Decimal(t.attempt)
            && (|parts| == 5 ==> parts[3] == Decimal(t.shard.index) && parts[4] == Decimal(t.shard.of))
  {
    hide IsSegment, IsIdentifier, Cut, NewTaskID, Decimal;
    NoSlash(t.run);
    NoSlash(t.step);
    CutComposed(t);
  }

  lemma OnlyOne(s: string, t: Task)
    requires Valid(t) && s == NewTaskID(t)
    ensures forall u | Valid(u) && s == NewTaskID(u) :: u == t
  {
    hide NewTaskID, IsSegment, IsIdentifier;
    forall u | Valid(u) && s == NewTaskID(u)
      ensures u == t
    {
      NoSlash(t.run);
      NoSlash(t.step);
      NoSlash(u.run);
      NoSlash(u.step);
      Injective(t, u);
    }
  }

  /** Takes an identifier apart: into the one valid task it is composed of, and into nothing where there
      is none. */
  method ParseTaskID(s: string) returns (r: Option<Task>)
    ensures r.Some? ==> Valid(r.value) && s == NewTaskID(r.value)
    ensures forall t | Valid(t) && s == NewTaskID(t) :: r == Some(t)
  {
    hide IsSegment, IsIdentifier, Cut, Join, NewTaskID, Decimal, Segments;
    forall t | Valid(t) && s == NewTaskID(t)
      ensures var parts := Cut(s);
              && |parts| == (if t.shard == NO_SHARD then 3 else 5)
              && parts[0] == t.run && parts[1] == t.step && parts[2] == Decimal(t.attempt)
              && (|parts| == 5 ==> parts[3] == Decimal(t.shard.index) && parts[4] == Decimal(t.shard.of))
    {
      Parts(t, s);
    }
    var parts := Cut(s);
    JoinCut(s);
    if |parts| != 3 && |parts| != 5 {
      return None;
    }
    var run, step := parts[0], parts[1];
    var named := Segment(run);
    if !named {
      return None;
    }
    named := Identifier(step);
    if !named {
      return None;
    }
    var attempt := Number(parts[2]);
    if attempt.None? || attempt.value < 1 {
      AttemptOf(parts[2], attempt);
      return None;
    }
    if |parts| == 3 {
      var t := Task(run, step, attempt.value, NO_SHARD);
      Rejoined(t, s);
      OnlyOne(s, t);
      return Some(t);
    }
    var index := Number(parts[3]);
    if index.None? {
      return None;
    }
    var cardinality := Number(parts[4]);
    if cardinality.None? {
      return None;
    }
    var shard := Shard(index.value, cardinality.value);
    if !IsShard(shard) || shard == NO_SHARD {
      ShardOf(parts[3], parts[4], shard);
      return None;
    }
    var t := Task(run, step, attempt.value, shard);
    Rejoined(t, s);
    OnlyOne(s, t);
    return Some(t);
  }

  lemma AttemptOf(text: string, r: Option<nat>)
    requires r.Some? ==> text == Decimal(r.value) && r.value < 1
    requires r.None? ==> forall n: nat | n <= MAX_INT :: text != Decimal(n)
    ensures forall n: nat | 1 <= n <= MAX_INT :: text != Decimal(n)
  {
    hide Decimal;
    forall n: nat | 1 <= n <= MAX_INT
      ensures text != Decimal(n)
    {
      ValueOf(n);
      ValueOf(0);
    }
  }

  lemma ShardOf(index: string, cardinality: string, shard: Shard)
    requires shard.index >= 0 && shard.of >= 0 && index == Decimal(shard.index) && cardinality == Decimal(shard.of)
    requires !IsShard(shard) || shard == NO_SHARD
    ensures forall i: nat, n: nat | 1 <= i <= n <= MAX_INT :: index != Decimal(i) || cardinality != Decimal(n)
  {
    hide Decimal;
    forall i: nat, n: nat | 1 <= i <= n <= MAX_INT
      ensures index != Decimal(i) || cardinality != Decimal(n)
    {
      ValueOf(i);
      ValueOf(n);
      ValueOf(shard.index);
      ValueOf(shard.of);
    }
  }

  lemma Rejoined(t: Task, s: string)
    requires Join(Cut(s)) == s && Valid(t)
    requires Cut(s) == [t.run, t.step, Decimal(t.attempt)] + (if t.shard == NO_SHARD then [] else [Decimal(t.shard.index), Decimal(t.shard.of)])
    ensures s == NewTaskID(t)
  {
    hide Join, Cut, NewTaskID, Decimal;
    Composed(t);
  }

  /** Accepts exactly the identifiers that are composed here. */
  method Validate(id: string) returns (ok: bool)
    ensures ok <==> exists t | Valid(t) :: id == NewTaskID(t)
  {
    var r := ParseTaskID(id);
    if r.None? {
      return false;
    }
    return NewTaskID(r.value) == id;
  }
}
