/** Numbers as an identifier writes them. */
module Decimals {
  import opened Options

  /** The largest int of the platform. */
  const MAX_INT: int := 0x7fff_ffff_ffff_ffff

  predicate IsDigit(c: char) {
    '0' <= c <= '9'
  }

  function Digit(n: nat): (c: char)
    requires n < 10
    ensures IsDigit(c) && Worth(c) == n
  {
    '0' + n as char
  }

  function Worth(c: char): nat
    requires IsDigit(c)
  {
    c as int - '0' as int
  }

  /** A number in decimal. */
  function Decimal(n: nat): string {
    if n < 10 then [Digit(n)] else Decimal(n / 10) + [Digit(n % 10)]
  }

  function Written(n: int): string {
    if n < 0 then "-" + Decimal(-n) else Decimal(n)
  }

  predicate AllDigits(s: string) {
    forall c | c in s :: IsDigit(c)
  }

  /** What digits are worth. */
  function Value(s: string): nat
    requires AllDigits(s)
  {
    if s == [] then 0 else 10 * Value(s[..|s| - 1]) + Worth(s[|s| - 1])
  }

  lemma {:induction false} ValueOf(n: nat)
    ensures AllDigits(Decimal(n)) && Value(Decimal(n)) == n
    ensures |Decimal(n)| > 0 && (Decimal(n)[0] == '0' ==> n == 0 && |Decimal(n)| == 1)
    decreases n
  {
    var s := Decimal(n);
    if n < 10 {
      assert s[..0] == [] && Value(s) == 10 * Value(s[..0]) + Worth(s[0]);
    } else {
      ValueOf(n / 10);
      assert s[..|s| - 1] == Decimal(n / 10) && s[|s| - 1] == Digit(n % 10);
    }
  }

  /** Digits without leading zeros are the decimal of what they are worth: a number has one spelling. */
  lemma {:induction false} OneSpelling(s: string)
    requires s != [] && AllDigits(s) && (s[0] == '0' ==> |s| == 1)
    ensures s == Decimal(Value(s)) && (|s| > 1 ==> Value(s) >= 10)
    decreases |s|
  {
    var front, last := s[..|s| - 1], s[|s| - 1];
    assert s == front + [last] && IsDigit(last);
    assert Digit(Worth(last)) == last;
    if front == [] {
      assert Value(s) == Worth(last);
    } else {
      assert front[0] == s[0];
      OneSpelling(front);
      PositiveValue(front);
      assert Value(s) / 10 == Value(front) && Value(s) % 10 == Worth(last);
    }
  }

  lemma {:induction false} PositiveValue(s: string)
    requires s != [] && AllDigits(s) && s[0] != '0'
    ensures Value(s) > 0
    decreases |s|
  {
    if |s| > 1 {
      PositiveValue(s[..|s| - 1]);
    } else {
      assert IsDigit(s[0]);
    }
  }

  lemma WrittenApart(m: int, n: int)
    ensures Written(m) == Written(n) ==> m == n
    ensures Written(m) == (if m >= 0 then Decimal(m) else "-" + Decimal(-m))
    ensures '/' !in Written(m)
  {
    var x, y := if m < 0 then -m else m, if n < 0 then -n else n;
    ValueOf(x);
    ValueOf(y);
    assert m < 0 ==> Written(m)[0] == '-' && Written(m)[1..] == Decimal(x);
    assert n < 0 ==> Written(n)[0] == '-' && Written(n)[1..] == Decimal(y);
    assert Decimal(x)[0] in Decimal(x) && Decimal(y)[0] in Decimal(y);
  }

  /** Reads a number that fits an int, written the one way it is. */
  method Number(s: string) returns (r: Option<nat>)
    ensures r.Some? ==> r.value <= 0x7fff_ffff_ffff_ffff && s == Decimal(r.value)
    ensures r.None? ==> forall n: nat | n <= 0x7fff_ffff_ffff_ffff :: s != Decimal(n)
  {
    forall n: nat
      ensures AllDigits(Decimal(n)) && Value(Decimal(n)) == n && Decimal(n) != [] && (Decimal(n)[0] == '0' ==> |Decimal(n)| == 1)
    {
      ValueOf(n);
    }
    if s == "" {
      return None;
    }
    for i := 0 to |s|
      invariant AllDigits(s[..i])
    {
      if s[i] < '0' || s[i] > '9' {
        assert s[i] in s;
        return None;
      }
    }
    assert s[..|s|] == s;
    if |s| > 1 && s[0] == '0' {
      return None;
    }
    var n := Value(s);
    if n > MAX_INT {
      return None;
    }
    OneSpelling(s);
    return Some(n);
  }
}
