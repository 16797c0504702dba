/** Paths as bytes: their order, and how the paths below one directory lie together in it. */
module Paths {

  /** Byte order, strictly. */
  predicate Less(a: string, b: string) {
    b != [] && (a == [] || a[0] < b[0] || (a[0] == b[0] && Less(a[1..], b[1..])))
  }

  lemma LessIrreflexive(a: string)
    ensures !Less(a, a)
  {}

  lemma {:induction false} LessTrans(a: string, b: string, c: string)
    requires Less(a, b) && Less(b, c)
    ensures Less(a, c)
  {
    if a != [] && a[0] == b[0] && b[0] == c[0] {
      LessTrans(a[1..], b[1..], c[1..]);
    }
  }

  lemma {:induction false} LessTotal(a: string, b: string)
    ensures Less(a, b) || a == b || Less(b, a)
  {
    if a != [] && b != [] && a[0] == b[0] {
      LessTotal(a[1..], b[1..]);
      assert a == [a[0]] + a[1..] && b == [b[0]] + b[1..];
    }
  }

  /** Whatever lies between two paths below one directory is below it too. */
  lemma {:induction false} Between(p: string, a: string, b: string, c: string)
    requires p <= a && p <= c && Less(a, b) && Less(b, c)
    ensures p <= b
  {
    if p != [] {
      assert a[0] == b[0] == c[0];
      Between(p[1..], a[1..], b[1..], c[1..]);
      assert p == [p[0]] + p[1..] && b == [b[0]] + b[1..];
    }
  }

  /** What comes before the first slash, the whole of a path that has none. */
  function Head(p: string): string {
    if p == [] || p[0] == '/' then [] else [p[0]] + Head(p[1..])
  }

  lemma {:induction false} HeadIs(p: string)
    ensures Head(p) <= p && '/' !in Head(p)
    ensures |Head(p)| < |p| ==> p[|Head(p)|] == '/'
  {
    if p != [] && p[0] != '/' {
      HeadIs(p[1..]);
      assert p == [p[0]] + p[1..];
    }
  }

  /** A path cut after a name and a slash has that name for its head. */
  lemma {:induction false} HeadOf(name: string, rest: string)
    requires '/' !in name
    ensures Head(name + "/" + rest) == name && Head(name) == name
  {
    if name != [] {
      HeadOf(name[1..], rest);
      assert name == [name[0]] + name[1..];
      assert (name + "/" + rest)[1..] == name[1..] + "/" + rest;
    } else {
      assert name + "/" + rest == "/" + rest;
    }
  }

  // ---- Sorting by a path ----

  ghost predicate InOrder<T>(key: T -> string, s: seq<T>) {
    forall i, j | 0 <= i < j < |s| :: Less(key(s[i]), key(s[j]))
  }

  ghost predicate DistinctKeys<T>(key: T -> string, s: seq<T>) {
    forall i, j | 0 <= i < j < |s| :: key(s[i]) != key(s[j])
  }

  function Insert<T>(key: T -> string, s: seq<T>, x: T): seq<T> {
    if s == [] || Less(key(x), key(s[0])) then [x] + s else [s[0]] + Insert(key, s[1..], x)
  }

  function Sort<T>(key: T -> string, s: seq<T>): seq<T> {
    if s == [] then [] else Insert(key, Sort(key, s[1..]), s[0])
  }

  lemma {:induction false} InsertHolds<T>(key: T -> string, s: seq<T>, x: T, y: T)
    ensures y in Insert(key, s, x) <==> y == x || y in s
  {
    if s != [] && !Less(key(x), key(s[0])) {
      InsertHolds(key, s[1..], x, y);
      assert s == [s[0]] + s[1..];
    }
  }

  lemma {:induction false} InsertSize<T>(key: T -> string, s: seq<T>, x: T)
    ensures |Insert(key, s, x)| == |s| + 1
  {
    if s != [] && !Less(key(x), key(s[0])) {
      InsertSize(key, s[1..], x);
    }
  }

  lemma {:induction false} InsertOrders<T>(key: T -> string, s: seq<T>, x: T)
    requires InOrder(key, s) && forall y | y in s :: key(y) != key(x)
    ensures InOrder(key, Insert(key, s, x))
  {
    if s == [] {
    } else if Less(key(x), key(s[0])) {
      forall j | 0 < j < |s|
        ensures Less(key(x), key(s[j]))
      {
        LessTrans(key(x), key(s[0]), key(s[j]));
      }
    } else {
      InsertOrders(key, s[1..], x);
      LessTotal(key(s[0]), key(x));
      var rest := Insert(key, s[1..], x);
      forall j | 0 <= j < |rest|
        ensures Less(key(s[0]), key(rest[j]))
      {
        InsertHolds(key, s[1..], x, rest[j]);
      }
    }
  }

  /** Sorting keeps what is sorted, and puts it in order. */
  lemma {:induction false} SortHolds<T>(key: T -> string, s: seq<T>, y: T)
    ensures y in Sort(key, s) <==> y in s
  {
    if s != [] {
      SortHolds(key, s[1..], y);
      InsertHolds(key, Sort(key, s[1..]), s[0], y);
      assert s == [s[0]] + s[1..];
    }
  }

  lemma {:induction false} SortOrders<T>(key: T -> string, s: seq<T>)
    requires DistinctKeys(key, s)
    ensures InOrder(key, Sort(key, s)) && |Sort(key, s)| == |s|
  {
    if s != [] {
      SortOrders(key, s[1..]);
      forall y | y in Sort(key, s[1..])
        ensures key(y) != key(s[0])
      {
        SortHolds(key, s[1..], y);
      }
      InsertOrders(key, Sort(key, s[1..]), s[0]);
      InsertSize(key, Sort(key, s[1..]), s[0]);
    }
  }
}
