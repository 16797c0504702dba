/** What a write does to a log, case by case and told of the log alone, and what a runner that ships a whole log,
    piece after piece, comes to. */
module Shipping {
  import opened Options
  import opened LogCaps
  import opened Logs
  import opened LogRuns

  // ---- One write ----

  /** A chunk that comes next to an open log that nothing was cut from. */
  predicate ComesNext(s: State, ship: Shipment) {
    && s.log.final == 0 && !s.log.truncated && ship.number == s.log.nextSeq
    && ship.firstLine == s.log.shippedLines + 1
  }

  function KeyFor(ship: Shipment): Key {
    Key(ship.number, Shipped(ship.firstLine, ship.final, ship.lines))
  }

  function LeftOf(s: State, caps: Caps, ship: Shipment): (seq<Line>, bool) {
    Capped(ship.lines, s.log.lines, s.log.bytes, caps)
  }

  predicate Ready(s: State, caps: Caps, ship: Shipment) {
    LeftOf(s, caps, ship).0 != [] ==> KeyFor(ship) in s.recorded
  }

  /** Such a chunk, its key recorded where it needs one, is taken: the log goes on after it, with all its lines shipped
      and what the caps leave of them kept, and is closed exactly where the chunk is the final one. */
  lemma WriteTakes(s: State, caps: Caps, ship: Shipment)
    requires ComesNext(s, ship) && Ready(s, caps, ship)
    ensures var t, left := Step(s, caps, Write(ship)), LeftOf(s, caps, ship);
            && t.log == TaskLog(ship.number + 1, s.log.shippedLines + |ship.lines|, s.log.lines + |left.0|, s.log.bytes + Bytes(left.0), left.1,
                                if ship.final then ship.number else 0)
            && ShippedLines(t.chunks) == ShippedLines(s.chunks) + ship.lines
            && KeptLines(t.chunks) == KeptLines(s.chunks) + left.0
            && |t.chunks| == |s.chunks| + 1 && s.chunks < t.chunks
            && t.chunks[|s.chunks|].number == ship.number && t.chunks[|s.chunks|].firstLine == ship.firstLine
            && t.chunks[|s.chunks|].key == (if left.0 == [] then None else Some(KeyFor(ship)))
            && t.objects == (if left.0 == [] then s.objects else s.objects[KeyFor(ship) := left.0])
            && t.recorded == s.recorded
  {
    hide Capped, Bytes, ShippedLines, KeptLines;
    OneMore(s.chunks, ChunkOf(s.log, caps, ship));
  }

  /** To a log that was cut and is open, a chunk not moved past yet only moves it past, and closes it where it is
      the final one. */
  lemma WritePasses(s: State, caps: Caps, ship: Shipment)
    requires s.log.final == 0 && s.log.truncated && ship.number >= s.log.nextSeq
    ensures Step(s, caps, Write(ship)) == s.(log := s.log.(nextSeq := ship.number + 1, final := if ship.final then ship.number else 0))
  {}

  /** And in every other case a write changes nothing. */
  lemma WriteNothing(s: State, caps: Caps, ship: Shipment)
    requires !(ComesNext(s, ship) && Ready(s, caps, ship)) && !(s.log.final == 0 && s.log.truncated && ship.number >= s.log.nextSeq)
    ensures Step(s, caps, Write(ship)) == s
  {
    hide Capped;
  }

  /** The transaction before it records the key of a chunk that comes next and leaves anything to keep; one that dies
      after the store was written to leaves the object of such a chunk, its key recorded; and neither anything else. */
  lemma BeforeAndDying(s: State, caps: Caps, ship: Shipment)
    ensures var next := ComesNext(s, ship) && LeftOf(s, caps, ship).0 != [];
            && Step(s, caps, Dry(ship)) == s.(recorded := s.recorded + if next then {KeyFor(ship)} else {})
            && Step(s, caps, WriteDies(ship)) ==
               s.(objects := if next && KeyFor(ship) in s.recorded then s.objects[KeyFor(ship) := LeftOf(s, caps, ship).0] else s.objects)
  {
    hide Capped;
  }

  /** What a write answers: why it is refused, or how many lines of it were kept and where the log stands after it. */
  lemma Answers(s: State, caps: Caps, ship: Shipment)
    ensures Says(s, caps, ship) == AfterLast <==> ship.number >= s.log.nextSeq && s.log.final != 0
    ensures Says(s, caps, ship) == WrongLine <==>
            ship.number == s.log.nextSeq && s.log.final == 0 && !s.log.truncated && ship.firstLine != s.log.shippedLines + 1
    ensures Says(s, caps, ship) == NotRecorded <==> ComesNext(s, ship) && !Ready(s, caps, ship)
    ensures Says(s, caps, ship) == OtherLines <==>
            ship.number < s.log.nextSeq && exists c :: c in s.chunks && c.number == ship.number && c.shippedDigest != Shipped(ship.firstLine, ship.final, ship.lines)
    ensures Says(s, caps, ship).Stands? ==>
              var t, answer := Step(s, caps, Write(ship)), Says(s, caps, ship);
              && answer.accepted == |KeptLines(t.chunks)| - |KeptLines(s.chunks)|
              && answer.nextSeq == t.log.nextSeq && answer.lines == t.log.lines && answer.truncated == t.log.truncated
  {
    hide Capped, KeptLines, ShippedLines, Bytes;
    if ComesNext(s, ship) && Ready(s, caps, ship) {
      WriteTakes(s, caps, ship);
    }
  }

  // ---- A whole log ----

  function Flat(pieces: seq<seq<Line>>): seq<Line> {
    if pieces == [] then [] else Flat(pieces[..|pieces| - 1]) + pieces[|pieces| - 1]
  }

  /** The k-th piece of a log as it is shipped: after all lines of those before it, the last one final. */
  function Piece(pieces: seq<seq<Line>>, k: nat): Shipment
    requires 1 <= k <= |pieces|
  {
    Shipment(k, |Flat(pieces[..k - 1])| + 1, k == |pieces|, pieces[k - 1])
  }

  ghost predicate OfPieces(pieces: seq<seq<Line>>, m: Move) {
    1 <= m.ship.number <= |pieces| && m.ship == Piece(pieces, m.ship.number)
  }

  /** Where the log stands when nothing but pieces has been shipped to it. */
  ghost predicate Along(pieces: seq<seq<Line>>, s: State) {
    && |s.chunks| <= |pieces| && ShippedLines(s.chunks) == Flat(pieces[..|s.chunks|])
    && 1 <= s.log.nextSeq <= |pieces| + 1
    && s.log.final == (if s.log.nextSeq == |pieces| + 1 then |pieces| else 0)
  }

  lemma AlongStep(pieces: seq<seq<Line>>, caps: Caps, s: State, m: Move)
    requires Good(s, caps) && Along(pieces, s) && OfPieces(pieces, m)
    ensures Along(pieces, Step(s, caps, m))
  {
    hide Capped, ShippedLines, KeptLines, Bytes, Numbered, Tiled, Flat, Step;
    var ship := m.ship;
    BeforeAndDying(s, caps, ship);
    if m.Write? {
      if ComesNext(s, ship) && Ready(s, caps, ship) {
        WriteTakes(s, caps, ship);
        FlatMore(pieces, ship.number);
      } else if s.log.final == 0 && s.log.truncated && ship.number >= s.log.nextSeq {
        WritePasses(s, caps, ship);
      } else {
        WriteNothing(s, caps, ship);
      }
    }
  }

  lemma FlatMore(pieces: seq<seq<Line>>, k: nat)
    requires 1 <= k <= |pieces|
    ensures Flat(pieces[..k]) == Flat(pieces[..k - 1]) + pieces[k - 1]
  {
    assert pieces[..k][..k - 1] == pieces[..k - 1];
  }

  lemma {:induction false} AlongRun(pieces: seq<seq<Line>>, caps: Caps, s: State, moves: seq<Move>)
    requires Good(s, caps) && Along(pieces, s) && forall m | m in moves :: OfPieces(pieces, m)
    ensures Along(pieces, Run(s, caps, moves)) && Good(Run(s, caps, moves), caps)
    decreases |moves|
  {
    hide Good, Along, OfPieces, Step;
    if moves != [] {
      AlongStep(pieces, caps, s, moves[0]);
      StepGood(s, caps, moves[0]);
      AlongRun(pieces, caps, Step(s, caps, moves[0]), moves[1..]);
    }
  }

  /** A log only moves on, and what is recorded stays so; while it has not moved on it is the same. */
  lemma {:induction false} MovesOn(s: State, caps: Caps, moves: seq<Move>)
    ensures var t := Run(s, caps, moves);
            s.log.nextSeq <= t.log.nextSeq && s.recorded <= t.recorded && (t.log.nextSeq == s.log.nextSeq ==> t.log == s.log)
    decreases |moves|
  {
    hide Step;
    if moves != [] {
      MoveOn(s, caps, moves[0]);
      MovesOn(Step(s, caps, moves[0]), caps, moves[1..]);
    }
  }

  lemma MoveOn(s: State, caps: Caps, m: Move)
    ensures var t := Step(s, caps, m);
            s.log.nextSeq <= t.log.nextSeq && s.recorded <= t.recorded && (t.log.nextSeq == s.log.nextSeq ==> t.log == s.log)
  {
    hide Capped;
  }

  lemma Between(s: State, caps: Caps, moves: seq<Move>, i: nat, j: nat)
    requires i <= j <= |moves|
    ensures Run(s, caps, moves[..j]) == Run(Run(s, caps, moves[..i]), caps, moves[i..j])
  {
    assert moves[..j] == moves[..i] + moves[i..j];
    RunConcat(s, caps, moves[..i], moves[i..j]);
  }

  /** Piece after piece, each first recorded and then written, before the next is. */
  ghost predicate ShipsAll(pieces: seq<seq<Line>>, moves: seq<Move>, dry: seq<nat>, write: seq<nat>) {
    && |dry| == |write| == |pieces|
    && (forall k | 0 <= k < |pieces| :: dry[k] < write[k] < |moves|
          && moves[dry[k]] == Dry(Piece(pieces, k + 1)) && moves[write[k]] == Write(Piece(pieces, k + 1)))
    && (forall k | 0 < k < |pieces| :: write[k - 1] < dry[k])
  }

  /** A piece recorded and then written is behind the log, whatever came between. */
  lemma PieceTaken(pieces: seq<seq<Line>>, caps: Caps, moves: seq<Move>, k: nat, d: nat, w: nat)
    requires 1 <= k <= |pieces| && d < w < |moves| && forall m | m in moves :: OfPieces(pieces, m)
    requires moves[d] == Dry(Piece(pieces, k)) && moves[w] == Write(Piece(pieces, k))
    requires Run(NEW, caps, moves[..d]).log.nextSeq >= k
    ensures Run(NEW, caps, moves[..w + 1]).log.nextSeq > k
  {
    hide Run, Step, Good, Along, OfPieces;
    StandsAt(pieces, caps, moves, d);
    StandsAt(pieces, caps, moves, w);
    var ship, s := Piece(pieces, k), Run(NEW, caps, moves[..d]);
    var r, t := Run(NEW, caps, moves[..d + 1]), Run(NEW, caps, moves[..w]);
    RunOne(NEW, caps, moves, d);
    RunOne(NEW, caps, moves, w);
    Between(NEW, caps, moves, d + 1, w);
    MoveOn(s, caps, moves[d]);
    MovesOn(r, caps, moves[d + 1..w]);
    MoveOn(t, caps, moves[w]);
    BeforeAndDying(s, caps, ship);
    if t.log.nextSeq == k {
      Advances(pieces, caps, s, t, k);
    }
  }

  lemma StandsAt(pieces: seq<seq<Line>>, caps: Caps, moves: seq<Move>, i: nat)
    requires pieces != [] && i <= |moves| && forall m | m in moves :: OfPieces(pieces, m)
    ensures Along(pieces, Run(NEW, caps, moves[..i])) && Good(Run(NEW, caps, moves[..i]), caps)
  {
    hide Run, OfPieces;
    NewGood(caps);
    StandsFirst(pieces);
    AlongRun(pieces, caps, NEW, moves[..i]);
  }

  lemma StandsFirst(pieces: seq<seq<Line>>)
    requires pieces != []
    ensures Along(pieces, NEW)
  {
    assert pieces[..0] == [];
  }

  lemma Advances(pieces: seq<seq<Line>>, caps: Caps, s: State, t: State, k: nat)
    requires 1 <= k <= |pieces| && Good(t, caps) && Along(pieces, t) && t.log.nextSeq == k && s.log == t.log
    requires ComesNext(s, Piece(pieces, k)) && LeftOf(s, caps, Piece(pieces, k)).0 != [] ==> KeyFor(Piece(pieces, k)) in t.recorded
    ensures Step(t, caps, Write(Piece(pieces, k))).log.nextSeq == k + 1
  {
    hide Capped, ShippedLines, KeptLines, Bytes, Numbered, Tiled, Flat, Step;
    var ship := Piece(pieces, k);
    if t.log.truncated {
      WritePasses(t, caps, ship);
    } else {
      assert ComesNext(t, ship);
      WriteTakes(t, caps, ship);
    }
  }

  lemma {:induction false} AllTaken(pieces: seq<seq<Line>>, caps: Caps, moves: seq<Move>, dry: seq<nat>, write: seq<nat>, k: nat)
    requires ShipsAll(pieces, moves, dry, write) && k < |pieces| && forall m | m in moves :: OfPieces(pieces, m)
    ensures Run(NEW, caps, moves[..write[k] + 1]).log.nextSeq > k + 1
    decreases k
  {
    hide Run, Step, OfPieces;
    var d := dry[k];
    if k > 0 {
      AllTaken(pieces, caps, moves, dry, write, k - 1);
      Between(NEW, caps, moves, write[k - 1] + 1, d);
      MovesOn(Run(NEW, caps, moves[..write[k - 1] + 1]), caps, moves[write[k - 1] + 1..d]);
    } else {
      MovesOn(NEW, caps, moves[..d]);
    }
    PieceTaken(pieces, caps, moves, k + 1, d, write[k]);
  }

  /** A runner that ships every piece of one log, one after the other, with whatever else of it shipped again or too
      early in between, ends with the log closed by its last piece. What is kept is what the caps leave of the log, and
      where they cut nothing every line of it was taken and kept. */
  lemma WholeShipped(pieces: seq<seq<Line>>, caps: Caps, moves: seq<Move>, dry: seq<nat>, write: seq<nat>)
    requires pieces != [] && ShipsAll(pieces, moves, dry, write) && forall m | m in moves :: OfPieces(pieces, m)
    ensures var s := Run(NEW, caps, moves);
            && s.log.final == |pieces|
            && (KeptLines(s.chunks), s.log.truncated) == Capped(Flat(pieces), 0, 0, caps)
            && (!s.log.truncated ==> ShippedLines(s.chunks) == KeptLines(s.chunks) == Flat(pieces))
  {
    hide Run, OfPieces, ShipsAll;
    var n := |pieces|;
    var s := Run(NEW, caps, moves);
    LastMove(pieces, caps, moves, dry, write);
    StandsAt(pieces, caps, moves, |moves|);
    assert moves[..|moves|] == moves;
    WholeKept(pieces, caps, s);
  }

  lemma LastMove(pieces: seq<seq<Line>>, caps: Caps, moves: seq<Move>, dry: seq<nat>, write: seq<nat>)
    requires pieces != [] && ShipsAll(pieces, moves, dry, write) && forall m | m in moves :: OfPieces(pieces, m)
    ensures Run(NEW, caps, moves).log.nextSeq > |pieces|
  {
    hide Run, OfPieces;
    var n := |pieces|;
    AllTaken(pieces, caps, moves, dry, write, n - 1);
    Between(NEW, caps, moves, write[n - 1] + 1, |moves|);
    MovesOn(Run(NEW, caps, moves[..write[n - 1] + 1]), caps, moves[write[n - 1] + 1..|moves|]);
    assert moves[..|moves|] == moves;
  }

  lemma WholeKept(pieces: seq<seq<Line>>, caps: Caps, s: State)
    requires Along(pieces, s) && Good(s, caps) && s.log.nextSeq > |pieces|
    ensures (KeptLines(s.chunks), s.log.truncated) == Capped(Flat(pieces), 0, 0, caps)
    ensures !s.log.truncated ==> ShippedLines(s.chunks) == KeptLines(s.chunks) == Flat(pieces)
  {
    hide Capped, ShippedLines, KeptLines, Bytes, Numbered, Tiled, Flat;
    var j := |s.chunks|;
    assert pieces == pieces[..j] + pieces[j..];
    FlatConcat(pieces[..j], pieces[j..]);
    CappedConcat(Flat(pieces[..j]), Flat(pieces[j..]), 0, 0, caps);
    if !s.log.truncated {
      assert pieces[..j] == pieces;
      CappedWhole(Flat(pieces), 0, 0, caps);
    }
  }

  lemma {:induction false} FlatConcat(a: seq<seq<Line>>, b: seq<seq<Line>>)
    ensures Flat(a + b) == Flat(a) + Flat(b)
    decreases |b|
  {
    if b == [] {
      assert a + b == a;
    } else {
      FlatConcat(a, b[..|b| - 1]);
      assert (a + b)[..|a + b| - 1] == a + b[..|b| - 1];
    }
  }
}
