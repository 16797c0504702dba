/** What of a log the caps leave: whole lines from its first, and at most the last of them cut, on a
    character. */
module LogCaps {

  type byte = b: int | 0 <= b < 0x100

  /** One line of a log, with the time it carries. */
  datatype Line = Line(at: int, text: seq<byte>)

  /** The most lines and bytes of text a log holds; neither limits anything unless it is positive. */
  datatype Caps = Caps(maxLines: int, maxBytes: int)

  /** A byte that begins a character, rather than going on with one. */
  predicate RuneStart(b: byte) {
    b < 0x80 || b >= 0xC0
  }

  /** The last place at or before n a character begins at. */
  /** A byte begins a character unless it is one of those that go on with one. */
  lemma RuneStartIs(b: byte)
    ensures RuneStart(b) <==> !(0x80 <= b <= 0xBF)
  {}

  function LastStart(text: seq<byte>, n: nat): (m: nat)
    requires n < |text|
    ensures m <= n
  {
    if n == 0 || RuneStart(text[n]) then n else LastStart(text, n - 1)
  }

  function Bytes(lines: seq<Line>): nat {
    if lines == [] then 0 else |lines[0].text| + Bytes(lines[1..])
  }

  /** What the caps leave of the lines, added to a log that holds `held` lines and `heldBytes` bytes, and
      whether they cut it. */
  function Capped(lines: seq<Line>, held: nat, heldBytes: nat, caps: Caps): (seq<Line>, bool)
    decreases |lines|
  {
    if lines == [] then ([], false)
    else if 0 < caps.maxLines <= held then ([], true)
    else if caps.maxBytes > 0 && caps.maxBytes <= heldBytes then ([], true)
    else
      var l := lines[0];
      if caps.maxBytes > 0 && |l.text| > caps.maxBytes - heldBytes then
        ([Line(l.at, l.text[..LastStart(l.text, caps.maxBytes - heldBytes)])], true)
      else
        var rest := Capped(lines[1..], held + 1, heldBytes + |l.text|, caps);
        ([l] + rest.0, rest.1)
  }

  lemma {:induction false} BytesConcat(a: seq<Line>, b: seq<Line>)
    ensures Bytes(a + b) == Bytes(a) + Bytes(b)
  {
    if a == [] {
      assert a + b == b;
    } else {
      BytesConcat(a[1..], b);
      assert (a + b)[1..] == a[1..] + b;
    }
  }

  lemma CappedOne(lines: seq<Line>, held: nat, heldBytes: nat, caps: Caps)
    ensures lines == [] ==> Capped(lines, held, heldBytes, caps) == ([], false)
    ensures lines != [] ==>
              var l, room := lines[0], caps.maxBytes - heldBytes;
              Capped(lines, held, heldBytes, caps) ==
                if (caps.maxLines > 0 && held >= caps.maxLines) || (caps.maxBytes > 0 && room <= 0) then ([], true)
                else if caps.maxBytes > 0 && |l.text| > room then ([Line(l.at, l.text[..LastStart(l.text, room)])], true)
                else var rest := Capped(lines[1..], held + 1, heldBytes + |l.text|, caps); ([l] + rest.0, rest.1)
  {}

  /** What the caps leave, line by line as it is counted. */
  method Cap(lines: seq<Line>, held: nat, heldBytes: nat, caps: Caps) returns (kept: seq<Line>, cut: bool)
    ensures (kept, cut) == Capped(lines, held, heldBytes, caps)
  {
    hide Capped, LastStart;
    kept := [];
    var h: nat, hb: nat, i: nat := held, heldBytes, 0;
    assert lines[0..] == lines;
    ghost var whole := Capped(lines, held, heldBytes, caps);
    assert kept + whole.0 == whole.0;
    while i < |lines|
      invariant i <= |lines|
      invariant var rest := Capped(lines[i..], h, hb, caps);
                Capped(lines, held, heldBytes, caps) == (kept + rest.0, rest.1)
    {
      var l := lines[i];
      assert lines[i..][1..] == lines[i + 1..];
      CappedOne(lines[i..], h, hb, caps);
      if caps.maxLines > 0 && h >= caps.maxLines {
        assert kept + [] == kept;
        return kept, true;
      }
      if caps.maxBytes > 0 {
        var room := caps.maxBytes - hb;
        if room <= 0 {
          assert kept + [] == kept;
          return kept, true;
        }
        if |l.text| > room {
          var n := CutAt(l.text, room);
          return kept + [Line(l.at, l.text[..n])], true;
        }
      }
      ghost var rest := Capped(lines[i + 1..], h + 1, hb + |l.text|, caps).0;
      assert kept + ([l] + rest) == kept + [l] + rest;
      kept, h, hb, i := kept + [l], h + 1, hb + |l.text|, i + 1;
    }
    CappedOne(lines[i..], h, hb, caps);
    assert kept + [] == kept;
    return kept, false;
  }

  method CutAt(text: seq<byte>, room: nat) returns (n: nat)
    requires room < |text|
    ensures n == LastStart(text, room)
  {
    n := room;
    while n > 0 && !RuneStart(text[n])
      invariant n <= room
      invariant LastStart(text, room) == LastStart(text, n)
    {
      n := n - 1;
    }
  }

  // ---- What capping keeps ----

  /** Cut short, at a place a character begins. */
  predicate CutShort(kept: Line, whole: Line) {
    && kept.at == whole.at && kept.text < whole.text
    && (kept.text == [] || RuneStart(whole.text[|kept.text|]))
  }

  /** The lines kept are the first of those there were, and at most the last of them is cut short. */
  predicate WholeLines(kept: seq<Line>, lines: seq<Line>) {
    && |kept| <= |lines|
    && (forall i | 0 <= i < |kept| - 1 :: kept[i] == lines[i])
    && (kept != [] ==> kept[|kept| - 1] == lines[|kept| - 1] || CutShort(kept[|kept| - 1], lines[|kept| - 1]))
  }

  lemma {:induction false} LastStartIs(text: seq<byte>, n: nat)
    requires n < |text|
    ensures LastStart(text, n) <= n && (LastStart(text, n) == 0 || RuneStart(text[LastStart(text, n)]))
    ensures forall m | LastStart(text, n) < m <= n :: !RuneStart(text[m])
  {
    if n != 0 && !RuneStart(text[n]) {
      LastStartIs(text, n - 1);
    }
  }

  /** A log capped keeps whole lines from its first, all of them unless it is cut. */
  lemma {:induction false} CappedWhole(lines: seq<Line>, held: nat, heldBytes: nat, caps: Caps)
    ensures var (kept, cut) := Capped(lines, held, heldBytes, caps);
            WholeLines(kept, lines) && (!cut ==> kept == lines)
    decreases |lines|
  {
    if lines != [] {
      var l := lines[0];
      if caps.maxBytes > heldBytes && |l.text| > caps.maxBytes - heldBytes {
        LastStartIs(l.text, caps.maxBytes - heldBytes);
      }
      CappedWhole(lines[1..], held + 1, heldBytes + |l.text|, caps);
      assert lines == [l] + lines[1..];
    }
  }

  /** And never more than the caps, where it was within them. */
  lemma {:induction false} CappedWithin(lines: seq<Line>, held: nat, heldBytes: nat, caps: Caps)
    requires (caps.maxLines > 0 ==> held <= caps.maxLines) && (caps.maxBytes > 0 ==> heldBytes <= caps.maxBytes)
    ensures var (kept, cut) := Capped(lines, held, heldBytes, caps);
            && (caps.maxLines > 0 ==> held + |kept| <= caps.maxLines)
            && (caps.maxBytes > 0 ==> heldBytes + Bytes(kept) <= caps.maxBytes)
    decreases |lines|
  {
    if lines != [] {
      var l := lines[0];
      if 0 < caps.maxLines <= held || 0 < caps.maxBytes <= heldBytes {
      } else if caps.maxBytes > 0 && |l.text| > caps.maxBytes - heldBytes {
        LastStartIs(l.text, caps.maxBytes - heldBytes);
      } else {
        CappedWithin(lines[1..], held + 1, heldBytes + |l.text|, caps);
        var rest := Capped(lines[1..], held + 1, heldBytes + |l.text|, caps);
        BytesConcat([l], rest.0);
      }
    }
  }

  /** It is cut only where a line more would not fit: the lines are full, or the line past the last
      kept whole is longer than the bytes left. */
  lemma {:induction false} CutOnlyWhenFull(lines: seq<Line>, held: nat, heldBytes: nat, caps: Caps) returns (k: nat)
    requires Capped(lines, held, heldBytes, caps).1
    ensures k < |lines| && lines[..k] <= Capped(lines, held, heldBytes, caps).0
    ensures Full(lines[k], held + k, heldBytes + Bytes(lines[..k]), caps)
    decreases |lines|
  {
    var l := lines[0];
    if Full(l, held, heldBytes, caps) {
      assert lines[..0] == [];
      return 0;
    }
    var m := CutOnlyWhenFull(lines[1..], held + 1, heldBytes + |l.text|, caps);
    assert lines[..m + 1] == [l] + lines[1..][..m];
    BytesConcat([l], lines[1..][..m]);
    return m + 1;
  }

  /** And then what is kept is exactly the lines before that one, and, where bytes are left and lines are not full, the
      start of it, up to the last place within the bytes left that a character begins. */
  lemma {:induction false} CutExactly(lines: seq<Line>, held: nat, heldBytes: nat, caps: Caps) returns (k: nat, n: nat)
    requires Capped(lines, held, heldBytes, caps).1
    ensures k < |lines| && Full(lines[k], held + k, heldBytes + Bytes(lines[..k]), caps)
    ensures forall j | 0 <= j < k :: !Full(lines[j], held + j, heldBytes + Bytes(lines[..j]), caps)
    ensures var room := caps.maxBytes - heldBytes - Bytes(lines[..k]);
            if 0 < caps.maxLines <= held + k || room <= 0 then Capped(lines, held, heldBytes, caps).0 == lines[..k]
            else
              && n <= room < |lines[k].text| && (n == 0 || RuneStart(lines[k].text[n]))
              && (forall m | n < m <= room :: !RuneStart(lines[k].text[m]))
              && Capped(lines, held, heldBytes, caps).0 == lines[..k] + [Line(lines[k].at, lines[k].text[..n])]
    decreases |lines|
  {
    hide Capped, LastStart, Bytes;
    CappedOne(lines, held, heldBytes, caps);
    var l := lines[0];
    assert lines[..0] == [];
    NoBytes();
    if Full(l, held, heldBytes, caps) {
      k := 0;
      n := CutFirst(lines, held, heldBytes, caps);
      return;
    }
    CappedFirst(lines, held, heldBytes, caps);
    var rest := lines[1..];
    k, n := CutExactly(rest, held + 1, heldBytes + |l.text|, caps);
    k := k + 1;
    BytesFirst(lines, k);
    forall j | 0 <= j < k
      ensures !Full(lines[j], held + j, heldBytes + Bytes(lines[..j]), caps)
    {
      if j > 0 {
        BytesFirst(lines, j);
        assert lines[j] == rest[j - 1];
      }
    }
  }

  lemma NoBytes()
    ensures Bytes([]) == 0
  {}

  lemma BytesFirst(lines: seq<Line>, k: nat)
    requires 0 < k <= |lines|
    ensures lines[..k] == [lines[0]] + lines[1..][..k - 1] && Bytes(lines[..k]) == |lines[0].text| + Bytes(lines[1..][..k - 1])
    ensures k < |lines| ==> lines[k] == lines[1..][k - 1]
  {
    assert lines[..k] == [lines[0]] + lines[1..][..k - 1];
    BytesConcat([lines[0]], lines[1..][..k - 1]);
  }

  lemma CutFirst(lines: seq<Line>, held: nat, heldBytes: nat, caps: Caps) returns (n: nat)
    requires lines != [] && Full(lines[0], held, heldBytes, caps)
    ensures var room, l := caps.maxBytes - heldBytes, lines[0];
            if 0 < caps.maxLines <= held || room <= 0 then Capped(lines, held, heldBytes, caps).0 == []
            else
              && n <= room < |l.text| && (n == 0 || RuneStart(l.text[n])) && (forall m | n < m <= room :: !RuneStart(l.text[m]))
              && Capped(lines, held, heldBytes, caps).0 == [Line(l.at, l.text[..n])]
  {
    hide LastStart;
    n := 0;
    if !(0 < caps.maxLines <= held || caps.maxBytes - heldBytes <= 0) {
      n := LastStart(lines[0].text, caps.maxBytes - heldBytes);
      LastStartIs(lines[0].text, caps.maxBytes - heldBytes);
    }
  }

  /** A log holding so much takes no more of the line l than a part of it. */
  predicate Full(l: Line, held: nat, heldBytes: nat, caps: Caps) {
    0 < caps.maxLines <= held || (caps.maxBytes > 0 && (caps.maxBytes <= heldBytes || |l.text| > caps.maxBytes - heldBytes))
  }

  lemma CappedFirst(lines: seq<Line>, held: nat, heldBytes: nat, caps: Caps)
    requires lines != [] && !Full(lines[0], held, heldBytes, caps)
    ensures var rest := Capped(lines[1..], held + 1, heldBytes + |lines[0].text|, caps);
            Capped(lines, held, heldBytes, caps) == ([lines[0]] + rest.0, rest.1)
  {}

  /** Capping a log chunk by chunk is capping it whole: once it is cut nothing is added to it. */
  lemma {:induction false} CappedConcat(a: seq<Line>, b: seq<Line>, held: nat, heldBytes: nat, caps: Caps)
    ensures var first := Capped(a, held, heldBytes, caps);
            Capped(a + b, held, heldBytes, caps) ==
              if first.1 then first
              else var rest := Capped(b, held + |a|, heldBytes + Bytes(a), caps); (a + rest.0, rest.1)
    decreases |a|
  {
    if a == [] {
      assert a + b == b && Capped(a, held, heldBytes, caps) == ([], false);
      var rest := Capped(b, held, heldBytes, caps);
      assert [] + rest.0 == rest.0;
    } else {
      var l := a[0];
      assert (a + b)[0] == l && (a + b)[1..] == a[1..] + b;
      if !Full(l, held, heldBytes, caps) {
        CappedConcat(a[1..], b, held + 1, heldBytes + |l.text|, caps);
        CappedFirst(a, held, heldBytes, caps);
        CappedFirst(a + b, held, heldBytes, caps);
        hide Capped;
        var rest := Capped(b, held + |a|, heldBytes + Bytes(a), caps);
        assert [l] + (a[1..] + rest.0) == a + rest.0;
      }
    }
  }

  // ---- Characters ----

  predicate GoesOn(b: byte) {
    0x80 <= b <= 0xBF
  }

  /** How many bytes the character a text begins with takes, and 0 where it begins with none: the octet
      sequences of section 4 of RFC 3629. */
  function CharSize(s: seq<byte>): nat {
    if s == [] then 0
    else if s[0] <= 0x7F then 1
    else if 0xC2 <= s[0] <= 0xDF then if |s| >= 2 && GoesOn(s[1]) then 2 else 0
    else if 0xE0 <= s[0] <= 0xEF then
      if |s| >= 3 && GoesOn(s[1]) && GoesOn(s[2]) && (s[0] == 0xE0 ==> s[1] >= 0xA0) && (s[0] == 0xED ==> s[1] <= 0x9F) then 3 else 0
    else if 0xF0 <= s[0] <= 0xF4 then
      if |s| >= 4 && GoesOn(s[1]) && GoesOn(s[2]) && GoesOn(s[3]) && (s[0] == 0xF0 ==> s[1] >= 0x90) && (s[0] == 0xF4 ==> s[1] <= 0x8F) then 4 else 0
    else 0
  }

  predicate Utf8(s: seq<byte>)
    decreases |s|
  {
    s == [] || (CharSize(s) > 0 && CharSize(s) <= |s| && Utf8(s[CharSize(s)..]))
  }

  /** A text of whole characters, cut where one begins, is a text of whole characters. */
  lemma {:induction false} CutKeepsUtf8(s: seq<byte>, n: nat)
    requires Utf8(s) && n <= |s| && (n == |s| || n == 0 || RuneStart(s[n]))
    ensures Utf8(s[..n])
    decreases |s|
  {
    if n != 0 {
      var k := CharSize(s);
      assert n >= k;
      assert n < |s| ==> s[n] == s[k..][n - k];
      CutKeepsUtf8(s[k..], n - k);
      assert s[..n][k..] == s[k..][..n - k];
      assert CharSize(s[..n]) == k;
    }
  }

  /** So a log of whole characters is kept as one. */
  lemma CappedUtf8(lines: seq<Line>, held: nat, heldBytes: nat, caps: Caps)
    requires forall l | l in lines :: Utf8(l.text)
    ensures forall l | l in Capped(lines, held, heldBytes, caps).0 :: Utf8(l.text)
  {
    hide Utf8, Capped;
    CappedWhole(lines, held, heldBytes, caps);
    var kept := Capped(lines, held, heldBytes, caps).0;
    forall i | 0 <= i < |kept|
      ensures Utf8(kept[i].text)
    {
      assert lines[i] in lines;
      if kept[i] != lines[i] {
        var n := |kept[i].text|;
        assert kept[i].text == lines[i].text[..n];
        CutKeepsUtf8(lines[i].text, n);
      }
    }
  }
}
