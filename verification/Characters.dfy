/** Well-formed UTF-8 told by characters instead of bytes: how section 3 of RFC 3629 writes each scalar value. */
module Characters {
  import opened LogCaps

  /** A Unicode scalar value: any code point but a surrogate. */
  predicate Scalar(c: int) {
    0 <= c <= 0x10FFFF && !(0xD800 <= c <= 0xDFFF)
  }

  /** Six bits, in a byte that goes on. */
  predicate Low(b: int) {
    0x80 <= b < 0xC0
  }

  /** The bytes write one scalar value: in as many bytes as its size takes, the first saying how many, and its bits
      filled in from the last. */
  predicate Writes(b: seq<int>, c: int) {
    Scalar(c) &&
    if c < 0x80 then b == [c]
    else if c < 0x800 then |b| == 2 && 0xC0 <= b[0] < 0xE0 && Low(b[1]) && c == 64 * (b[0] - 0xC0) + (b[1] - 0x80)
    else if c < 0x1_0000 then
      |b| == 3 && 0xE0 <= b[0] < 0xF0 && Low(b[1]) && Low(b[2]) && c == 4096 * (b[0] - 0xE0) + 64 * (b[1] - 0x80) + (b[2] - 0x80)
    else
      && |b| == 4 && 0xF0 <= b[0] < 0xF8 && Low(b[1]) && Low(b[2]) && Low(b[3])
      && c == 262144 * (b[0] - 0xF0) + 4096 * (b[1] - 0x80) + 64 * (b[2] - 0x80) + (b[3] - 0x80)
  }

  function Worth(b: seq<int>): int {
    if |b| == 1 then b[0]
    else if |b| == 2 then 64 * (b[0] - 0xC0) + (b[1] - 0x80)
    else if |b| == 3 then 4096 * (b[0] - 0xE0) + 64 * (b[1] - 0x80) + (b[2] - 0x80)
    else if |b| == 4 then 262144 * (b[0] - 0xF0) + 4096 * (b[1] - 0x80) + 64 * (b[2] - 0x80) + (b[3] - 0x80)
    else 0
  }

  /** A string of bytes as numbers. */
  function Numbers(s: seq<byte>): seq<int> {
    seq(|s|, i requires 0 <= i < |s| => s[i])
  }

  /** The first n bytes are read as a character exactly where they write one. */
  lemma SizeIs(s: seq<byte>, n: nat)
    requires 1 <= n <= |s|
    ensures CharSize(s) == n <==> Writes(Numbers(s[..n]), Worth(Numbers(s[..n])))
  {
    var b := Numbers(s[..n]);
    assert |b| == n && forall i | 0 <= i < n :: b[i] == s[i];
  }

  lemma OneWorth(b: seq<int>, c: int)
    requires Writes(b, c)
    ensures c == Worth(b) && 1 <= |b| <= 4
  {}

  /** Bytes are well formed where a character is written at their start, and what follows it is well formed. */
  lemma WellFormed(s: seq<byte>)
    ensures Utf8(s) <==> s == [] || exists n :: 1 <= n <= |s| && (exists c :: Writes(Numbers(s[..n]), c)) && Utf8(s[n..])
  {
    hide Writes, CharSize, Worth;
    if s != [] && Utf8(s) {
      var n := CharSize(s);
      SizeIs(s, n);
      assert 1 <= n <= |s| && Writes(Numbers(s[..n]), Worth(Numbers(s[..n]))) && Utf8(s[n..]);
    }
    if n :| 1 <= n <= |s| && (exists c :: Writes(Numbers(s[..n]), c)) && Utf8(s[n..]) {
      var c :| Writes(Numbers(s[..n]), c);
      OneWorth(Numbers(s[..n]), c);
      SizeIs(s, n);
    }
  }
}
