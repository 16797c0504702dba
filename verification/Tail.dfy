/** Reading a byte stream for the last lines it carries, in bounded space, against a reading of it whole. */
module Tail {
  import opened Options

  /** How a tail is asked for: how many lines, of which task, "" for every one; how long an unfinished line
      is held; and what a dispatch's data and a line's say, where they read as JSON. */
  datatype Asked = Asked(most: nat, of: string, lineMost: nat, keyIn: string -> Option<string>, textIn: string -> Option<string>)

  const GAP: string := "(lines written and not kept)"

  /** What has been read: the kind of event, whether the dispatch streamed is of the key asked for, and the lines
      kept since its last dispatch began. */
  datatype State = State(event: string, keeping: bool, lines: seq<string>)

  datatype Line = EventLine(kind: string) | Data(text: string) | Other

  /** How a line is classed, by its prefix alone. */
  function Kind(line: string): Line {
    if "event: " <= line then EventLine(line[7..]) else if "data: " <= line then Data(line[6..]) else Other
  }

  function Read(a: Asked, s: State, line: string): State {
    match Kind(line)
    case EventLine(kind) => s.(event := kind)
    case Other => s
    case Data(data) =>
      if s.event == "dispatch" && a.of != "" then
        match a.keyIn(data)
        case None => s
        case Some(key) => if key == a.of then s.(keeping := true, lines := []) else s.(keeping := false)
      else if s.event == "line" && (a.of == "" || s.keeping) then
        match a.textIn(data)
        case None => s
        case Some(text) => s.(lines := s.lines + [text])
      else if s.event == "gap" && (a.of == "" || s.keeping) then s.(lines := s.lines + [GAP])
      else s
  }

  function ReadAll(a: Asked, s: State, lines: seq<string>): State {
    if lines == [] then s else Read(a, ReadAll(a, s, lines[..|lines| - 1]), lines[|lines| - 1])
  }

  function LastLines(lines: seq<string>, most: nat): seq<string> {
    if |lines| <= most then lines else lines[|lines| - most..]
  }

  // ---- A stream cut into lines ----

  /** Where the first line of some bytes ends, their length where none does. */
  function LineEnd(b: string): (n: nat)
    ensures n <= |b| && (n < |b| ==> b[n] == '\n') && '\n' !in b[..n]
  {
    if b == [] || b[0] == '\n' then 0
    else
      var n := LineEnd(b[1..]);
      assert b[..n + 1] == [b[0]] + b[1..][..n];
      n + 1
  }

  /** The lines of a stream, each without what ends it. */
  function Lines(b: string): seq<string>
    decreases |b|
  {
    var n := LineEnd(b);
    if n == |b| then [] else [b[..n]] + Lines(b[n + 1..])
  }

  /** What follows the last of them. */
  function Rest(b: string): string
    decreases |b|
  {
    var n := LineEnd(b);
    if n == |b| then b else Rest(b[n + 1..])
  }

  /** No line of a stream is too long to hold, finished or not. */
  predicate Fits(b: string, most: nat) {
    (forall i | 0 <= i < |Lines(b)| :: |Lines(b)[i]| <= most) && |Rest(b)| <= most
  }

  lemma {:induction false} EndAfter(p: string, b: string)
    requires '\n' !in p
    ensures LineEnd(p + b) == |p| + LineEnd(b)
  {
    if p == [] {
      assert p + b == b;
    } else {
      EndAfter(p[1..], b);
      assert (p + b)[1..] == p[1..] + b;
    }
  }

  lemma LinesFirst(b: string)
    ensures var n := LineEnd(b);
            if n == |b| then Lines(b) == [] && Rest(b) == b && '\n' !in b
            else Lines(b) == [b[..n]] + Lines(b[n + 1..]) && Rest(b) == Rest(b[n + 1..])
  {
    hide LineEnd;
    assert b[..|b|] == b;
  }

  /** The lines of two streams end to end: those of the first, then those of what it left and the second. */
  lemma {:induction false} LinesConcat(a: string, b: string)
    ensures Lines(a + b) == Lines(a) + Lines(Rest(a) + b) && Rest(a + b) == Rest(Rest(a) + b)
    ensures '\n' !in Rest(a)
    decreases |a|
  {
    hide Lines, Rest, LineEnd;
    var n := LineEnd(a);
    LinesFirst(a);
    if n < |a| {
      LinesConcat(a[n + 1..], b);
      FirstLine(a + b, a[..n]);
      LinesFirst(a + b);
      assert (a + b)[n + 1..] == a[n + 1..] + b && (a + b)[..n] == a[..n];
    }
  }

  lemma FirstLine(b: string, line: string)
    requires '\n' !in line && |line| < |b| && b[..|line|] == line && b[|line|] == '\n'
    ensures LineEnd(b) == |line|
  {
    var rest := b[|line|..];
    assert b == line + rest && LineEnd(rest) == 0;
    EndAfter(line, rest);
  }

  /** What a part of a stream that fits leaves unfinished fits. */
  lemma RestFits(a: string, b: string, most: nat)
    requires Fits(a + b, most)
    ensures |Rest(a)| <= most && Fits(Rest(a) + b, most)
  {
    hide Lines, Rest, LineEnd;
    LinesConcat(a, b);
    LinesFirst(Rest(a) + b);
    var r, k := Rest(a) + b, |Lines(a)|;
    forall i | 0 <= i < |Lines(r)|
      ensures |Lines(r)[i]| <= most
    {
      assert Lines(a + b)[k + i] == Lines(r)[i];
    }
    EndAfter(Rest(a), b);
    if LineEnd(r) < |r| {
      assert Lines(r)[0] == r[..LineEnd(r)];
    }
  }

  // ---- The bytes as they are written ----

  /** What some bytes written leave unfinished, and read: an unfinished line too long to hold is let go
      of, and what follows it read as if it began there. */
  function Feed(a: Asked, partial: string, s: State, b: string): (string, State)
    decreases |b|
  {
    var n := LineEnd(b);
    if b == [] then (partial, s)
    else if n == |b| then (if |partial| + |b| <= a.lineMost then partial + b else [], s)
    else Feed(a, [], Read(a, s, partial + b[..n]), b[n + 1..])
  }

  lemma {:induction false} ReadOn(a: Asked, s: State, line: string, lines: seq<string>)
    ensures ReadAll(a, s, [line] + lines) == ReadAll(a, Read(a, s, line), lines)
    decreases |lines|
  {
    hide Read;
    if lines == [] {
      assert [line] + lines == [line] && [line][..0] == [];
    } else {
      ReadOn(a, s, line, lines[..|lines| - 1]);
      assert ([line] + lines)[..|lines|] == [line] + lines[..|lines| - 1];
    }
  }

  /** Where every line fits, what is read is the lines of what was written, wherever it was cut. */
  lemma {:induction false} FeedFits(a: Asked, partial: string, s: State, b: string)
    requires '\n' !in partial && |partial| <= a.lineMost && Fits(partial + b, a.lineMost)
    ensures Feed(a, partial, s, b) == (Rest(partial + b), ReadAll(a, s, Lines(partial + b)))
    decreases |b|
  {
    hide Lines, Rest, LineEnd, Read;
    var n := LineEnd(b);
    EndAfter(partial, b);
    LinesFirst(partial + b);
    if b == [] {
      assert partial + b == partial;
    } else if n < |b| {
      var line, rest := partial + b[..n], b[n + 1..];
      assert (partial + b)[..|partial| + n] == line && (partial + b)[|partial| + n + 1..] == rest;
      forall i | 0 <= i < |Lines(rest)|
        ensures |Lines(rest)[i]| <= a.lineMost
      {
        assert Lines(partial + b)[i + 1] == Lines(rest)[i];
      }
      assert [] + rest == rest;
      FeedFits(a, [], Read(a, s, line), rest);
      ReadOn(a, s, line, Lines(rest));
    }
  }

  function Concat(writes: seq<string>): string {
    if writes == [] then [] else Concat(writes[..|writes| - 1]) + writes[|writes| - 1]
  }

  function FeedAll(a: Asked, s: State, writes: seq<string>): (string, State) {
    if writes == [] then ([], s)
    else var before := FeedAll(a, s, writes[..|writes| - 1]); Feed(a, before.0, before.1, writes[|writes| - 1])
  }

  lemma {:induction false} ReadAllConcat(a: Asked, s: State, x: seq<string>, y: seq<string>)
    ensures ReadAll(a, s, x + y) == ReadAll(a, ReadAll(a, s, x), y)
    decreases |y|
  {
    hide Read;
    if y == [] {
      assert x + y == x;
    } else {
      ReadAllConcat(a, s, x, y[..|y| - 1]);
      assert (x + y)[..|x + y| - 1] == x + y[..|y| - 1];
    }
  }

  lemma FitsPrefix(a: string, b: string, most: nat)
    requires Fits(a + b, most)
    ensures Fits(a, most)
  {
    hide Lines, Rest;
    LinesConcat(a, b);
    RestFits(a, b, most);
    forall i | 0 <= i < |Lines(a)|
      ensures |Lines(a)[i]| <= most
    {
      assert Lines(a + b)[i] == Lines(a)[i];
    }
  }

  /** However a stream whose lines all fit is cut into writes, what is read is its lines. */
  lemma {:induction false} AnyWrites(a: Asked, s: State, writes: seq<string>)
    requires Fits(Concat(writes), a.lineMost)
    ensures FeedAll(a, s, writes) == (Rest(Concat(writes)), ReadAll(a, s, Lines(Concat(writes))))
    decreases |writes|
  {
    hide Lines, Rest, Feed;
    if writes == [] {
      LinesFirst([]);
    } else {
      var before, last := writes[..|writes| - 1], writes[|writes| - 1];
      FitsPrefix(Concat(before), last, a.lineMost);
      AnyWrites(a, s, before);
      LinesConcat(Concat(before), last);
      RestFits(Concat(before), last, a.lineMost);
      FeedFits(a, Rest(Concat(before)), ReadAll(a, s, Lines(Concat(before))), last);
      ReadAllConcat(a, s, Lines(Concat(before)), Lines(Rest(Concat(before)) + last));
    }
  }

  // ---- A line too long to hold ----

  /** Where reading a line may begin, as it is cut: at its start, or anywhere past what can be held of it. */
  predicate MayBegin(a: Asked, line: string, k: nat) {
    k <= |line| && (k == 0 || k > a.lineMost)
  }

  /** Before the line ends, what is held of it is what followed the last piece let go of. */
  lemma {:induction false} Unfinished(a: Asked, s: State, writes: seq<string>) returns (k: nat)
    requires '\n' !in Concat(writes)
    ensures MayBegin(a, Concat(writes), k) && FeedAll(a, s, writes) == (Concat(writes)[k..], s)
    decreases |writes|
  {
    hide Feed, Concat, FeedAll;
    k := 0;
    LastWrite(a, s, writes);
    if writes != [] {
      var before, last := writes[..|writes| - 1], writes[|writes| - 1];
      k := Unfinished(a, s, before);
      Holds(a, Concat(before)[k..], s, last);
      k := HeldOn(a, Concat(before), k, last);
    }
  }

  lemma LastWrite(a: Asked, s: State, writes: seq<string>)
    ensures if writes == [] then Concat(writes) == Concat(writes)[0..] == [] && FeedAll(a, s, writes) == ([], s)
            else
              var before, last := writes[..|writes| - 1], writes[|writes| - 1];
              var fed := FeedAll(a, s, before);
              && Concat(writes) == Concat(before) + last && FeedAll(a, s, writes) == Feed(a, fed.0, fed.1, last)
              && ('\n' !in Concat(writes) ==> '\n' !in Concat(before) && '\n' !in last)
  {
    hide Feed;
  }

  lemma HeldOn(a: Asked, p: string, k: nat, last: string) returns (k': nat)
    requires MayBegin(a, p, k)
    ensures MayBegin(a, p + last, k')
    ensures (p + last)[k'..] == if |p[k..]| + |last| <= a.lineMost || last == [] then p[k..] + last else []
  {
    if |p[k..]| + |last| <= a.lineMost || last == [] {
      k' := k;
    } else {
      k' := |p + last|;
    }
  }

  lemma Holds(a: Asked, partial: string, s: State, b: string)
    requires '\n' !in b
    ensures Feed(a, partial, s, b) == (if |partial| + |b| <= a.lineMost || b == [] then partial + b else [], s)
  {
    EndAfter(b, "");
    assert b + "" == b && (b == [] ==> partial + b == partial);
  }

  /** However a line and its end are cut into writes, what is read is the line from one of those places on. */
  lemma {:induction false} CutLine(a: Asked, s: State, line: string, writes: seq<string>) returns (k: nat)
    requires '\n' !in line && Concat(writes) == line + "\n"
    ensures MayBegin(a, line, k) && FeedAll(a, s, writes) == ([], Read(a, s, line[k..]))
    decreases |writes|
  {
    hide Feed, Read;
    var before, last := writes[..|writes| - 1], writes[|writes| - 1];
    if last == [] {
      assert Concat(before) == Concat(writes);
      k := CutLine(a, s, line, before);
      FedNothing(a, [], Read(a, s, line[k..]));
    } else {
      var x := last[..|last| - 1];
      assert last[|last| - 1] == Concat(writes)[|line|] == '\n';
      assert last == x + "\n";
      assert line == (line + "\n")[..|line|] == (Concat(before) + last)[..|line|] == Concat(before) + x;
      assert (forall c | c in Concat(before) :: c in line) && forall c | c in x :: c in line;
      k := Unfinished(a, s, before);
      Finishes(a, Concat(before)[k..], s, x);
      assert Concat(before)[k..] + x == line[k..];
    }
  }

  lemma FedNothing(a: Asked, partial: string, s: State)
    ensures Feed(a, partial, s, []) == (partial, s)
  {}

  function CutAt(line: string, k: nat): seq<string>
    requires k <= |line|
  {
    [line[..k], line[k..] + "\n"]
  }

  /** And each of them is where some cut has it read from. */
  lemma CutFrom(a: Asked, s: State, line: string, k: nat)
    requires '\n' !in line && MayBegin(a, line, k)
    ensures Concat(CutAt(line, k)) == line + "\n" && FeedAll(a, s, CutAt(line, k)) == ([], Read(a, s, line[k..]))
  {
    hide Feed, Read, Concat, FeedAll;
    var x, y := line[..k], line[k..];
    TwoWrites(a, s, x, y + "\n");
    assert line == x + y && x + (y + "\n") == line + "\n";
    assert '\n' !in x && '\n' !in y by { Pieces(line, k); }
    Holds(a, [], s, x);
    Finishes(a, [], s, y);
    assert [] + x == x && [] + y == y;
  }

  lemma Pieces(line: string, k: nat)
    requires '\n' !in line && k <= |line|
    ensures '\n' !in line[..k] && '\n' !in line[k..]
  {}

  lemma TwoWrites(a: Asked, s: State, x: string, y: string)
    ensures Concat([x, y]) == x + y
    ensures var fed := Feed(a, [], s, x); FeedAll(a, s, [x, y]) == Feed(a, fed.0, fed.1, y)
  {
    hide Feed, Concat, FeedAll;
    LastWrite(a, s, []);
    LastWrite(a, s, [x]);
    LastWrite(a, s, [x, y]);
    assert [x][..0] == [] && [x, y][..1] == [x] && [] + x == x;
  }

  ghost predicate CutsAgree(a: Asked, s: State, line: string) {
    forall v, w | Concat(v) == line + "\n" && Concat(w) == line + "\n" :: FeedAll(a, s, v) == FeedAll(a, s, w)
  }

  /** So how a line is cut makes no difference exactly where no end of it past what can be held reads otherwise
      than the whole: always, for a line that can be held; and for one that cannot, where the whole and every
      such end of it change nothing. */
  lemma TooLong(a: Asked, s: State, line: string)
    requires '\n' !in line
    ensures CutsAgree(a, s, line) <==> forall k: nat | MayBegin(a, line, k) :: Read(a, s, line[k..]) == Read(a, s, line)
    ensures |line| <= a.lineMost ==> CutsAgree(a, s, line)
    ensures |line| > a.lineMost ==> (CutsAgree(a, s, line) <==> forall k: nat | MayBegin(a, line, k) :: Read(a, s, line[k..]) == s)
  {
    hide FeedAll, Read, Concat;
    assert line[0..] == line && MayBegin(a, line, 0);
    if CutsAgree(a, s, line) {
      CutFrom(a, s, line, 0);
      forall k: nat | MayBegin(a, line, k)
        ensures Read(a, s, line[k..]) == Read(a, s, line)
      {
        CutFrom(a, s, line, k);
      }
    }
    if forall k: nat | MayBegin(a, line, k) :: Read(a, s, line[k..]) == Read(a, s, line) {
      forall w | Concat(w) == line + "\n"
        ensures FeedAll(a, s, w) == ([], Read(a, s, line))
      {
        var k := CutLine(a, s, line, w);
      }
    }
    if |line| > a.lineMost {
      assert MayBegin(a, line, |line|) && line[|line|..] == [];
      ReadEmpty(a, s);
    }
  }

  /** A comment too long to hold, which changes nothing, and an end of it that is read as an event. */
  lemma CommentCut(a: Asked, s: State, filler: string)
    requires '\n' !in filler && |filler| > a.lineMost && ":" <= filler
    ensures Read(a, s, filler + "event: gap") == s
    ensures FeedAll(a, s, [filler + "event: gap\n"]) == ([], s) && FeedAll(a, s, [filler, "event: gap\n"]) == ([], s.(event := "gap"))
  {
    hide Feed;
    var line, rest := filler + "event: gap", "event: gap";
    assert line[0] == ':' && "event: "[0] == 'e' && "data: "[0] == 'd';
    assert Kind(line) == Other;
    assert Kind(rest) == EventLine("gap") by { assert rest[..7] == "event: " && rest[7..] == "gap"; }
    assert line + "\n" == filler + "event: gap\n" && rest + "\n" == "event: gap\n";
    Finishes(a, [], s, line);
    Finishes(a, [], s, rest);
    Holds(a, [], s, filler);
    assert [] + line == line && [] + rest == rest;
    assert [line + "\n"][..0] == [] && [filler, rest + "\n"][..1] == [filler] && [filler][..0] == [];
    assert FeedAll(a, s, []) == ([], s);
    assert FeedAll(a, s, [line + "\n"]) == Feed(a, [], s, line + "\n");
    assert FeedAll(a, s, [filler]) == Feed(a, [], s, filler) == ([], s);
    assert FeedAll(a, s, [filler, rest + "\n"]) == Feed(a, [], s, rest + "\n");
  }

  lemma ReadEmpty(a: Asked, s: State)
    ensures Read(a, s, []) == s
  {}

  lemma Finishes(a: Asked, partial: string, s: State, line: string)
    requires '\n' !in line
    ensures Feed(a, partial, s, line + "\n") == ([], Read(a, s, partial + line))
  {
    hide Read;
    var b := line + "\n";
    FirstLine(b, line);
    assert b[..|line|] == line && b[|line| + 1..] == [];
  }

  // ---- The ring ----

  /** Turned to begin at `next`, the ring is the last `most` of the lines. */
  predicate Rings(ring: seq<string>, next: nat, lines: seq<string>, most: nat) {
    && |ring| == (if |lines| <= most then |lines| else most)
    && (if |ring| < most then next == 0 else next < most)
    && ring[next..] + ring[..next] == LastLines(lines, most)
  }

  lemma LastMore(lines: seq<string>, most: nat, text: string)
    requires most > 0
    ensures LastLines(lines + [text], most) == if |lines| < most then LastLines(lines, most) + [text] else LastLines(lines, most)[1..] + [text]
  {}

  lemma RingGrows(ring: seq<string>, next: nat, lines: seq<string>, most: nat, text: string)
    requires |ring| < most && Rings(ring, next, lines, most)
    ensures Rings(ring + [text], next, lines + [text], most)
  {
    hide LastLines;
    LastMore(lines, most, text);
    assert ring[0..] + ring[..0] == ring && (ring + [text])[0..] + (ring + [text])[..0] == ring + [text];
  }

  /** Where the slot after `next` is. */
  function After(next: nat, most: nat): nat
    requires next < most
  {
    if next + 1 == most then 0 else next + 1
  }

  lemma AfterIs(next: nat, most: nat)
    requires next < most
    ensures (next + 1) % most == After(next, most)
  {
    if next + 1 == most {
      assert most % most == 0;
    }
  }

  /** Once the ring is full a line takes the place of the oldest. */
  lemma RingTurns(ring: seq<string>, next: nat, lines: seq<string>, most: nat, text: string)
    requires |ring| == most > next && Rings(ring, next, lines, most)
    ensures Rings(ring[next := text], After(next, most), lines + [text], most)
  {
    hide LastLines;
    LastMore(lines, most, text);
    var turned := ring[next := text];
    assert (ring[next..] + ring[..next])[1..] == ring[next + 1..] + ring[..next];
    if next + 1 < most {
      assert turned[next + 1..] == ring[next + 1..] && turned[..next + 1] == ring[..next] + [text];
    } else {
      assert turned[0..] + turned[..0] == turned == ring[..next] + [text] && ring[next + 1..] == [];
    }
  }

  /** The reader: a bounded ring and a partial line, standing for the unbounded ghost `lines`. */
  class TailAnswer {
    const asked: Asked
    var partial: string
    var event: string
    var keeping: bool
    var ring: seq<string>
    var next: nat

    /** Every line kept since the last dispatch of the key asked for began. */
    ghost var lines: seq<string>

    ghost predicate Valid()
      reads this
    {
      asked.most > 0 && Rings(ring, next, lines, asked.most) && |partial| <= asked.lineMost
    }

    ghost function Has(): State
      reads this
    {
      State(event, keeping, lines)
    }

    constructor (asked: Asked)
      requires asked.most > 0
      ensures Valid() && this.asked == asked && partial == [] && Has() == State([], false, [])
    {
      this.asked := asked;
      partial, event, keeping, ring, next, lines := [], [], false, [], 0, [];
    }

    /** One more of `lines`; the ring grows or turns. */
    method Keep(text: string)
      requires Valid()
      modifies this`ring, this`next, this`lines
      ensures Valid() && lines == old(lines) + [text]
    {
      hide Rings;
      SizeOf(ring, next, lines, asked.most);
      if |ring| < asked.most {
        RingGrows(ring, next, lines, asked.most, text);
        ring, lines := ring + [text], lines + [text];
        return;
      }
      RingTurns(ring, next, lines, asked.most, text);
      AfterIs(next, asked.most);
      ring, lines := ring[next := text], lines + [text];
      next := (next + 1) % asked.most;
    }

    /** Does what Read does, on the ring. */
    method ReadLine(line: string)
      requires Valid()
      modifies this`event, this`keeping, this`ring, this`next, this`lines
      ensures Valid() && Has() == Read(asked, old(Has()), line)
    {
      hide Kind;
      var kept := asked.of == "" || keeping;
      match Kind(line)
      case EventLine(kind) => event := kind;
      case Other =>
      case Data(data) =>
        if event == "dispatch" && asked.of != "" {
          var key := asked.keyIn(data);
          if key.Some? {
            keeping := key.value == asked.of;
            if keeping {
              ring, next, lines := [], 0, [];
            }
          }
        } else if event == "line" && kept {
          var text := asked.textIn(data);
          if text.Some? {
            Keep(text.value);
          }
        } else if event == "gap" && kept {
          Keep(GAP);
        }
    }

    method Write(b: string)
      requires Valid()
      modifies this
      ensures Valid() && (partial, Has()) == Feed(asked, old(partial), old(Has()), b)
    {
      hide Rings, Read, LineEnd;
      var rest := b;
      while rest != []
        invariant Valid() && Feed(asked, partial, Has(), rest) == Feed(asked, old(partial), old(Has()), b)
        decreases |rest|
      {
        var i := LineEnd(rest);
        if i == |rest| {
          if |partial| + |rest| <= asked.lineMost {
            partial := partial + rest;
          } else {
            partial := [];
          }
          break;
        }
        var line := partial + rest[..i];
        partial := [];
        ReadLine(line);
        rest := rest[i + 1..];
      }
    }

    /** The lines held, oldest first: the last of those kept, as many as were asked for. */
    method Lines() returns (tail: seq<string>)
      requires Valid()
      ensures tail == LastLines(lines, asked.most)
    {
      return ring[next..] + ring[..next];
    }
  }

  lemma SizeOf(ring: seq<string>, next: nat, lines: seq<string>, most: nat)
    requires Rings(ring, next, lines, most)
    ensures |ring| <= most && (|ring| == most ==> most > 0 ==> next < |ring|)
  {}
}
