/** The order entries are written in, byte by byte as git compares them. */
module GitOrder {
  import opened GitObjects
  import opened Paths
  import opened Legality
  import opened Commits

  function Shorter(a: string, b: string): nat {
    if |a| < |b| then |a| else |b|
  }

  /** What follows the first n bytes of a name: a byte of it, or, past its end, a slash for a directory and nothing
      for anything else. */
  function NextByte(e: Entry, n: nat): int {
    if n < |e.name| then e.name[n] as int else if e.mode == Directory then '/' as int else 0
  }

  /** Git's comparison: the bytes both names have, and then what comes next of each. */
  predicate Precedes(a: Entry, b: Entry) {
    var n := Shorter(a.name, b.name);
    if a.name[..n] != b.name[..n] then Less(a.name[..n], b.name[..n]) else NextByte(a, n) < NextByte(b, n)
  }

  lemma {:induction false} LessCut(a: string, b: string, n: nat)
    requires n <= |a| && n <= |b|
    ensures if a[..n] != b[..n] then Less(a, b) <==> Less(a[..n], b[..n]) else Less(a, b) <==> Less(a[n..], b[n..])
    decreases n
  {
    if n > 0 {
      var x, y := a[1..], b[1..];
      LessCut(x, y, n - 1);
      assert a[..n] == [a[0]] + x[..n - 1] && b[..n] == [b[0]] + y[..n - 1];
      assert a[..n][1..] == x[..n - 1] && b[..n][1..] == y[..n - 1];
      assert a[n..] == x[n - 1..] && b[n..] == y[n - 1..];
    }
  }

  /** What follows the bytes both have, of the key. */
  lemma KeyRest(e: Entry, n: nat)
    requires n <= |e.name| && '\0' !in e.name
    ensures n <= |EntryKey(e)| && EntryKey(e)[..n] == e.name[..n]
    ensures var rest := EntryKey(e)[n..];
            if rest == [] then NextByte(e, n) == 0 else NextByte(e, n) == rest[0] as int && rest[0] != '\0'
    ensures n == |e.name| ==> |EntryKey(e)[n..]| <= 1
    ensures n == |e.name| && EntryKey(e)[n..] != [] ==> EntryKey(e)[n..] == "/"
    ensures n < |e.name| ==> EntryKey(e)[n..] != [] && EntryKey(e)[n] == e.name[n]
  {}

  /** Entries with legal names are in byte order by their keys exactly where git has one before the other. */
  lemma KeysPrecede(naming: Naming, a: Entry, b: Entry)
    requires LegalEntry(naming, a) && LegalEntry(naming, b)
    ensures Less(EntryKey(a), EntryKey(b)) <==> Precedes(a, b)
  {
    hide EntryKey, NextByte;
    var n := Shorter(a.name, b.name);
    var x, y := EntryKey(a), EntryKey(b);
    KeyRest(a, n);
    KeyRest(b, n);
    LessCut(x, y, n);
    if a.name[..n] == b.name[..n] {
      assert n == |a.name| || n == |b.name|;
      assert n < |a.name| ==> a.name[n] in a.name;
      assert n < |b.name| ==> b.name[n] in b.name;
      RestLess(x[n..], y[n..]);
    }
  }

  /** Two rests that begin with no byte in common, unless each is a slash, are ordered by their first bytes. */
  lemma RestLess(x: string, y: string)
    requires x != [] && y != [] && x[0] == y[0] ==> x == y == "/"
    ensures Less(x, y) <==> y != [] && (x == [] || x[0] < y[0])
  {
    if x == y == "/" {
      LessIrreflexive(x);
    }
  }

  /** So what EncodeTree writes is in git's order. */
  lemma InGitOrder(naming: Naming, entries: seq<Entry>, i: nat, j: nat)
    requires InOrder(EntryKey, entries) && i < j < |entries| && forall e | e in entries :: LegalEntry(naming, e)
    ensures Precedes(entries[i], entries[j])
  {
    hide EntryKey, Precedes;
    assert Less(EntryKey(entries[i]), EntryKey(entries[j]));
    KeysPrecede(naming, entries[i], entries[j]);
  }
}
