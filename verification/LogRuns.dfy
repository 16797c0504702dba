/** What every run of shipments leaves of a log, whatever was retransmitted, came past a gap or died:
    what the store holds is named, and what the index holds is the shipped log from its first line. */
module LogRuns {
  import opened LogCaps
  import opened Logs

  /** The lines of the chunks taken, in order: the log as it was shipped. */
  function ShippedLines(chunks: seq<Chunk>): seq<Line> {
    if chunks == [] then []
    else ShippedLines(chunks[..|chunks| - 1]) + chunks[|chunks| - 1].shippedDigest.lines
  }

  /** The lines the chunks were written with, in order: the log as it is kept. */
  function KeptLines(chunks: seq<Chunk>): seq<Line> {
    if chunks == [] then []
    else KeptLines(chunks[..|chunks| - 1]) + chunks[|chunks| - 1].digest
  }

  // ---- The store ----

  /** Every object is at a recorded key, and one at the key of the chunk taken next holds what taking it
      now would write. */
  ghost predicate Stored(s: State, caps: Caps) {
    && s.objects.Keys <= s.recorded
    && |s.chunks| < s.log.nextSeq
    && (forall k | k in s.objects :: k.number <= |s.chunks| + 1)
    && (!s.log.truncated ==> s.log.nextSeq == |s.chunks| + 1)
    && (forall k | k in s.objects && !s.log.truncated && k.number == s.log.nextSeq ::
          s.objects[k] == Capped(k.digest.lines, s.log.lines, s.log.bytes, caps).0)
  }

  /** A chunk that keeps lines names an object holding them. */
  ghost predicate Indexed(s: State) {
    forall c | c in s.chunks ::
      && (c.key.Some? <==> c.digest != []) && c.lines == |c.digest| && c.bytes == Bytes(c.digest)
      && (c.key.Some? ==> c.key.value == Key(c.number, c.shippedDigest) && c.key.value in s.objects && s.objects[c.key.value] == c.digest)
  }

  /** Whatever was in the store is there still, with the bytes it was written with. */
  ghost predicate OnlyAdded(s: State, t: State) {
    && s.objects.Keys <= t.objects.Keys && s.recorded <= t.recorded
    && (forall k | k in s.objects :: t.objects[k] == s.objects[k])
  }

  lemma StepStored(s: State, caps: Caps, m: Move)
    requires Stored(s, caps)
    ensures Stored(Step(s, caps, m), caps) && OnlyAdded(s, Step(s, caps, m))
  {
    hide Capped;
  }

  lemma StepIndexed(s: State, caps: Caps, m: Move)
    requires Indexed(s) && OnlyAdded(s, Step(s, caps, m))
    ensures Indexed(Step(s, caps, m))
  {
    hide Capped, Bytes;
  }

  /** Over any run, whichever of its transactions died: every object in the store is at a key recorded
      before it, every chunk indexed names an object holding the lines it was written with, and no
      two writes at one key differ. */
  lemma {:induction false} RunStored(s: State, caps: Caps, moves: seq<Move>)
    requires Stored(s, caps) && Indexed(s)
    ensures Stored(Run(s, caps, moves), caps) && Indexed(Run(s, caps, moves)) && OnlyAdded(s, Run(s, caps, moves))
    decreases |moves|
  {
    hide Stored, Indexed;
    if moves != [] {
      StepStored(s, caps, moves[0]);
      StepIndexed(s, caps, moves[0]);
      RunStored(Step(s, caps, moves[0]), caps, moves[1..]);
    }
  }

  // ---- The log ----

  /** The chunks are numbered from 1, and each begins where the ones before it end. */
  ghost predicate Numbered(chunks: seq<Chunk>) {
    forall i | 0 <= i < |chunks| :: NumberedAt(chunks, i)
  }

  ghost predicate NumberedAt(chunks: seq<Chunk>, i: nat)
    requires i < |chunks|
  {
    && chunks[i].number == i + 1
    && chunks[i].firstLine == chunks[i].shippedDigest.firstLine == |ShippedLines(chunks[..i])| + 1
    && chunks[i].shipped == |chunks[i].shippedDigest.lines|
  }

  /** A chunk that keeps lines keeps those after every line kept before it. */
  ghost predicate Tiled(chunks: seq<Chunk>) {
    forall i | 0 <= i < |chunks| :: TiledAt(chunks, i)
  }

  ghost predicate TiledAt(chunks: seq<Chunk>, i: nat)
    requires i < |chunks|
  {
    && chunks[i].lines == |chunks[i].digest| && (chunks[i].key.Some? <==> chunks[i].digest != [])
    && (chunks[i].digest != [] ==> chunks[i].firstLine == |KeptLines(chunks[..i])| + 1)
  }

  /** What is kept is what capping the whole of what was shipped leaves, counted as it is, and the log
      is truncated exactly where that cuts it. */
  ghost predicate Counted(s: State, caps: Caps) {
    && (KeptLines(s.chunks), s.log.truncated) == Capped(ShippedLines(s.chunks), 0, 0, caps)
    && s.log.shippedLines == |ShippedLines(s.chunks)|
    && s.log.lines == |KeptLines(s.chunks)| && s.log.bytes == Bytes(KeptLines(s.chunks))
  }

  /** A log not truncated holds every chunk below the next, and a closed one was closed by the last
      chunk it moved past. */
  ghost predicate InOrder(s: State) {
    && |s.chunks| < s.log.nextSeq
    && (!s.log.truncated ==> |s.chunks| + 1 == s.log.nextSeq)
    && (s.log.final != 0 ==> s.log.final == s.log.nextSeq - 1)
  }

  ghost predicate Good(s: State, caps: Caps) {
    Numbered(s.chunks) && Tiled(s.chunks) && Counted(s, caps) && InOrder(s)
  }

  lemma NumberedMore(chunks: seq<Chunk>, c: Chunk)
    requires Numbered(chunks) && c.number == |chunks| + 1 && c.shipped == |c.shippedDigest.lines|
    requires c.firstLine == c.shippedDigest.firstLine == |ShippedLines(chunks)| + 1
    ensures Numbered(chunks + [c])
  {
    hide ShippedLines;
    forall i | 0 <= i < |chunks| + 1
      ensures NumberedAt(chunks + [c], i)
    {
      assert (chunks + [c])[..i] == chunks[..i];
      if i < |chunks| {
        assert NumberedAt(chunks, i);
      } else {
        assert chunks[..i] == chunks;
      }
    }
  }

  lemma TiledMore(chunks: seq<Chunk>, c: Chunk)
    requires Tiled(chunks) && c.lines == |c.digest| && (c.key.Some? <==> c.digest != [])
    requires c.digest != [] ==> c.firstLine == |KeptLines(chunks)| + 1
    ensures Tiled(chunks + [c])
  {
    hide KeptLines;
    forall i | 0 <= i < |chunks| + 1
      ensures TiledAt(chunks + [c], i)
    {
      assert (chunks + [c])[..i] == chunks[..i];
      if i < |chunks| {
        assert TiledAt(chunks, i);
      } else {
        assert chunks[..i] == chunks;
      }
    }
  }

  lemma OneMore(chunks: seq<Chunk>, c: Chunk)
    ensures ShippedLines(chunks + [c]) == ShippedLines(chunks) + c.shippedDigest.lines
    ensures KeptLines(chunks + [c]) == KeptLines(chunks) + c.digest
  {
    assert (chunks + [c])[..|chunks|] == chunks;
  }

  lemma TakenGood(s: State, caps: Caps, ship: Shipment)
    requires Good(s, caps) && Takes(s.log, ship)
    ensures var t := s.(log := TakenOn(s.log, caps, ship), chunks := s.chunks + [ChunkOf(s.log, caps, ship)]);
            Good(t, caps)
  {
    hide Capped, ShippedLines, KeptLines, Bytes, Numbered, Tiled;
    var c, shipped := ChunkOf(s.log, caps, ship), ShippedLines(s.chunks);
    NumberedMore(s.chunks, c);
    OneMore(s.chunks, c);
    CappedWhole(shipped, 0, 0, caps);
    CappedConcat(shipped, ship.lines, 0, 0, caps);
    BytesConcat(KeptLines(s.chunks), c.digest);
    assert KeptLines(s.chunks) == shipped;
    TiledMore(s.chunks, c);
  }

  lemma StepGood(s: State, caps: Caps, m: Move)
    requires Good(s, caps)
    ensures Good(Step(s, caps, m), caps)
  {
    hide Capped, ShippedLines, KeptLines, Bytes, Numbered, Tiled;
    if m.Write? && Takes(s.log, m.ship) {
      TakenGood(s, caps, m.ship);
    }
  }

  /** Over any run of shipments, with duplicates, gaps and late chunks, what is kept is the shipped log
      capped. */
  lemma {:induction false} RunGood(s: State, caps: Caps, moves: seq<Move>)
    requires Good(s, caps)
    ensures Good(Run(s, caps, moves), caps)
    decreases |moves|
  {
    hide Good, Step;
    if moves != [] {
      StepGood(s, caps, moves[0]);
      RunGood(Step(s, caps, moves[0]), caps, moves[1..]);
    }
  }

  lemma NewGood(caps: Caps)
    ensures Good(NEW, caps) && Stored(NEW, caps) && Indexed(NEW)
  {}

  /** Of any log: the lines kept are whole lines of it from the first, at most the last cut short on a
      character, within the caps; all of them, and every chunk below the next, unless it is truncated. */
  lemma LogIsPrefix(caps: Caps, moves: seq<Move>)
    ensures var s := Run(NEW, caps, moves);
            && WholeLines(KeptLines(s.chunks), ShippedLines(s.chunks))
            && (!s.log.truncated ==> KeptLines(s.chunks) == ShippedLines(s.chunks) && s.log.nextSeq == |s.chunks| + 1)
            && (caps.maxLines > 0 ==> s.log.lines <= caps.maxLines)
            && (caps.maxBytes > 0 ==> s.log.bytes <= caps.maxBytes)
            && (s.log.final != 0 ==> s.log.final == s.log.nextSeq - 1)
  {
    hide Capped, Run, ShippedLines, KeptLines, Bytes;
    NewGood(caps);
    RunGood(NEW, caps, moves);
    var s := Run(NEW, caps, moves);
    CappedWhole(ShippedLines(s.chunks), 0, 0, caps);
    CappedWithin(ShippedLines(s.chunks), 0, 0, caps);
  }

  /** A runner that ships one log, each chunk where it says it is, has its own log kept: the chunks taken
      are its first lines. */
  ghost predicate Honest(log: seq<Line>, m: Move) {
    var ship := m.ship;
    && 1 <= ship.firstLine && ship.firstLine - 1 + |ship.lines| <= |log|
    && ship.lines == log[ship.firstLine - 1..ship.firstLine - 1 + |ship.lines|]
  }

  lemma HonestStep(log: seq<Line>, s: State, caps: Caps, m: Move)
    requires Good(s, caps) && Honest(log, m) && ShippedLines(s.chunks) <= log
    ensures ShippedLines(Step(s, caps, m).chunks) <= log
  {
    hide Capped, KeptLines, Bytes, ShippedLines, Numbered, Tiled;
    if m.Write? && Takes(s.log, m.ship) {
      var n := |ShippedLines(s.chunks)|;
      OneMore(s.chunks, ChunkOf(s.log, caps, m.ship));
      assert log[..n] + log[n..n + |m.ship.lines|] == log[..n + |m.ship.lines|];
    }
  }

  lemma {:induction false} HonestRun(log: seq<Line>, s: State, caps: Caps, moves: seq<Move>)
    requires Good(s, caps) && ShippedLines(s.chunks) <= log
    requires forall m | m in moves :: Honest(log, m)
    ensures ShippedLines(Run(s, caps, moves).chunks) <= log
    decreases |moves|
  {
    hide Good, Step, Honest;
    if moves != [] {
      HonestStep(log, s, caps, moves[0]);
      StepGood(s, caps, moves[0]);
      HonestRun(log, Step(s, caps, moves[0]), caps, moves[1..]);
    }
  }

  // ---- What changes nothing ----

  /** A chunk shipped again changes nothing, whatever it says. */
  lemma AgainChangesNothing(s: State, caps: Caps, m: Move)
    requires m.ship.number < s.log.nextSeq
    ensures Step(s, caps, m) == s
  {}

  /** A chunk taken, shipped again as it was, is answered as held; with other lines it is refused. */
  lemma AgainAnswered(s: State, caps: Caps, ship: Shipment, c: Chunk)
    requires Good(s, caps) && c in s.chunks && c.number == ship.number
    ensures Says(s, caps, ship) == if c.shippedDigest == DigestOf(ship) then AnswerOf(s.log, 0) else OtherLines
  {
    hide Capped, ShippedLines, KeptLines;
    var i :| 0 <= i < |s.chunks| && s.chunks[i] == c;
    assert NumberedAt(s.chunks, i);
    forall d | d in s.chunks && d.number == ship.number
      ensures d == c
    {
      var j :| 0 <= j < |s.chunks| && s.chunks[j] == d;
      assert NumberedAt(s.chunks, j);
    }
  }

  /** A closed log is closed for good. */
  lemma {:induction false} ClosedForGood(s: State, caps: Caps, moves: seq<Move>)
    requires s.log.final != 0
    ensures Run(s, caps, moves) == s
    decreases |moves|
  {
    if moves != [] {
      ClosedForGood(s, caps, moves[1..]);
    }
  }

  /** And what a log holds it goes on holding: its chunks only grow at their end. */
  lemma {:induction false} ChunksGrow(s: State, caps: Caps, moves: seq<Move>)
    ensures s.chunks <= Run(s, caps, moves).chunks
    decreases |moves|
  {
    if moves != [] {
      ChunksGrow(Step(s, caps, moves[0]), caps, moves[1..]);
    }
  }
}
