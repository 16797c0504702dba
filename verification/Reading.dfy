/** What a reader of a step's log is promised: each dispatch's lines once each, in order, across any
    number of connections, and the end of a closed log only after all of it. */
module Reading {
  import opened Options
  import opened LogCaps
  import opened Logs
  import opened LogRuns

  /** A task that goes on, one that ended by itself or was lost, and one cancelled or stopped at its
      deadline. */
  datatype TaskState = Going | Ended | Stopped

  /** One dispatch of a step and its log. `finishedAt` is 0 where nothing said when it ended. */
  datatype Dispatch = Dispatch(bound: bool, state: TaskState, finishedAt: int, held: State)

  /** A step at one moment. A dispatch is named by its place in the list, from 1: the list only grows at its
      end, so the name stays its own. */
  datatype World = World(dispatches: seq<Dispatch>, over: bool)

  /** A log later: its chunks only added to, and none once it is closed. Its objects may have been lost. */
  ghost predicate LogLater(caps: Caps, s: State, t: State) {
    Good(s, caps) && Good(t, caps) && s.chunks <= t.chunks && (s.log.final != 0 ==> t.log == s.log && t.chunks == s.chunks)
  }

  /** A moment later: dispatches made after those there were, none once the step is over, and logs shipped on. */
  ghost predicate Later(caps: Caps, v: World, w: World) {
    && |v.dispatches| <= |w.dispatches|
    && (v.over ==> w.over && |w.dispatches| == |v.dispatches|)
    && (forall i | 0 <= i < |v.dispatches| :: LogLater(caps, v.dispatches[i].held, w.dispatches[i].held))
  }

  /** However a log is shipped on, it is later, and shipping alone loses no object. */
  lemma ShippedIsLater(caps: Caps, s: State, moves: seq<Move>)
    requires Good(s, caps)
    ensures LogLater(caps, s, Run(s, caps, moves))
    ensures Stored(s, caps) && Indexed(s) ==> Indexed(Run(s, caps, moves))
  {
    hide Good, Stored, Indexed;
    if Stored(s, caps) && Indexed(s) {
      RunStored(s, caps, moves);
    }
    RunGood(s, caps, moves);
    ChunksGrow(s, caps, moves);
    if s.log.final != 0 {
      ClosedForGood(s, caps, moves);
    }
  }

  predicate IsRow(w: World, row: nat) {
    1 <= row <= |w.dispatches|
  }

  function ChunksOf(w: World, row: nat): seq<Chunk>
    requires IsRow(w, row)
  {
    w.dispatches[row - 1].held.chunks
  }

  // ---- Objects ----

  /** The object of a chunk is there, with the lines it was written with. */
  predicate Readable(w: World, row: nat, c: Chunk)
    requires IsRow(w, row)
  {
    var objects := w.dispatches[row - 1].held.objects;
    c.key.Some? && c.key.value in objects && objects[c.key.value] == c.digest
  }

  /** The store no longer has, as it was, the object of the chunk of that number. */
  predicate LostAt(w: World, row: nat, number: nat) {
    && IsRow(w, row) && 1 <= number <= |ChunksOf(w, row)| && ChunksOf(w, row)[number - 1].key.Some?
    && !Readable(w, row, ChunksOf(w, row)[number - 1])
  }

  ghost predicate Lost(history: seq<World>, row: nat, number: nat) {
    exists t :: 0 <= t < |history| && LostAt(history[t], row, number)
  }

  /** The store has, as it was, the object of the chunk of that number. */
  predicate HeldAt(w: World, row: nat, number: nat) {
    IsRow(w, row) && 1 <= number <= |ChunksOf(w, row)| && Readable(w, row, ChunksOf(w, row)[number - 1])
  }

  ghost predicate Found(history: seq<World>, row: nat, number: nat) {
    exists t :: 0 <= t < |history| && HeldAt(history[t], row, number)
  }

  /** The store holds the objects of every chunk. */
  ghost predicate Intact(w: World) {
    forall row: nat | IsRow(w, row) :: Indexed(w.dispatches[row - 1].held)
  }

  /** A store that holds them has lost none. */
  lemma IntactLost(w: World, row: nat, number: nat)
    requires Intact(w)
    ensures !LostAt(w, row, number)
  {
    if IsRow(w, row) && 1 <= number <= |ChunksOf(w, row)| {
      assert ChunksOf(w, row)[number - 1] in w.dispatches[row - 1].held.chunks;
    }
  }

  // ---- Chunks and lines ----

  /** Line n is one the chunk of that number keeps. */
  predicate InChunk(chunks: seq<Chunk>, number: nat, n: nat) {
    && 1 <= number <= |chunks| && chunks[number - 1].key.Some?
    && chunks[number - 1].firstLine <= n < chunks[number - 1].firstLine + chunks[number - 1].lines
  }

  lemma {:induction false} KeptPrefix(chunks: seq<Chunk>, i: nat)
    requires i <= |chunks|
    ensures KeptLines(chunks[..i]) <= KeptLines(chunks)
    decreases |chunks| - i
  {
    if i < |chunks| {
      KeptPrefix(chunks, i + 1);
      assert chunks[..i + 1][..i] == chunks[..i];
    } else {
      assert chunks[..i] == chunks;
    }
  }

  /** A line a chunk keeps is that line of the log kept. */
  lemma LineInChunk(chunks: seq<Chunk>, number: nat, n: nat)
    requires Tiled(chunks) && InChunk(chunks, number, n)
    ensures 1 <= n <= |KeptLines(chunks)| && n - chunks[number - 1].firstLine < |chunks[number - 1].digest|
    ensures KeptLines(chunks)[n - 1] == chunks[number - 1].digest[n - chunks[number - 1].firstLine]
  {
    hide KeptLines;
    var i := number - 1;
    assert TiledAt(chunks, i);
    KeptUpto(chunks, i);
    KeptPrefix(chunks, i + 1);
  }

  lemma KeptUpto(chunks: seq<Chunk>, i: nat)
    requires i < |chunks|
    ensures KeptLines(chunks[..i + 1]) == KeptLines(chunks[..i]) + chunks[i].digest
  {
    CutTwice(chunks, i);
  }

  lemma CutTwice<T>(s: seq<T>, i: nat)
    requires i < |s|
    ensures s[..i + 1][..i] == s[..i] && s[..i + 1][i] == s[i]
  {}

  /** Every chunk up to `after` that keeps lines is among the first `line` lines. */
  ghost predicate Behind(chunks: seq<Chunk>, after: nat, line: nat) {
    after <= |chunks| && line <= |KeptLines(chunks)| && forall i | 0 <= i <= after :: |KeptLines(chunks[..i])| <= line
  }

  /** Nothing between two chunks keeps lines, so what is kept up to them is the same. */
  lemma {:induction false} NothingKept(chunks: seq<Chunk>, i: nat, j: nat)
    requires i <= j <= |chunks| && Tiled(chunks)
    requires forall k | i <= k < j :: chunks[k].key.None?
    ensures KeptLines(chunks[..i]) == KeptLines(chunks[..j])
    decreases j - i
  {
    if i < j {
      NothingKept(chunks, i, j - 1);
      assert TiledAt(chunks, j - 1);
      assert chunks[..j][..j - 1] == chunks[..j - 1];
    }
  }

  // ---- Events ----

  datatype Event =
    | Begins(row: nat)
    | LineOf(row: nat, number: nat, n: nat, line: Line)
    | Gap(row: nat, number: nat, first: nat, last: nat)
    | Ends(row: nat, lines: nat, truncated: bool, final: bool)

  /** An event id: a row, a chunk of it and a line of that, the last two 0 in the id of a Begins. */
  datatype Position = Position(row: nat, number: nat, line: nat)

  const START: Position := Position(0, 0, 0)

  /** The event's id, and none for the end of a dispatch. */
  function IdOf(e: Event): Option<Position> {
    match e
    case Begins(row) => Some(Position(row, 0, 0))
    case LineOf(row, number, n, _) => Some(Position(row, number, n))
    case Gap(row, number, _, last) => Some(Position(row, number, last))
    case Ends(_, _, _, _) => None
  }

  function Next(p: Position, e: Event): Position {
    if IdOf(e).Some? then IdOf(e).value else p
  }

  /** The last id among the events, after p. */
  function LastId(p: Position, events: seq<Event>): Position {
    if events == [] then p else Next(LastId(p, events[..|events| - 1]), events[|events| - 1])
  }

  /** The event is the next one a reader standing at p should have: the next dispatch, the next line or
      lines of this one, or its end, which says it is whole only where every line was had. */
  predicate Follows(p: Position, e: Event) {
    match e
    case Begins(row) => row == p.row + 1
    case LineOf(row, _, n, _) => row == p.row && n == p.line + 1
    case Gap(row, _, first, last) => row == p.row && first == p.line + 1 && first <= last
    case Ends(row, lines, _, final) => row == p.row && (final ==> lines == p.line)
  }

  predicate AllFollow(p: Position, events: seq<Event>) {
    events == [] || (AllFollow(p, events[..|events| - 1]) && Follows(LastId(p, events[..|events| - 1]), events[|events| - 1]))
  }

  /** What the event says is so: a line is that line of the log kept, the lines of a gap are of one chunk,
      and a log said to be whole is closed, and has as many lines. */
  ghost predicate True(w: World, e: Event) {
    IsRow(w, e.row) &&
    match e
    case Begins(_) => true
    case LineOf(row, number, n, line) =>
      InChunk(ChunksOf(w, row), number, n) && 1 <= n <= |KeptLines(ChunksOf(w, row))| && KeptLines(ChunksOf(w, row))[n - 1] == line
    case Gap(row, number, first, last) => InChunk(ChunksOf(w, row), number, first) && InChunk(ChunksOf(w, row), number, last)
    case Ends(row, lines, truncated, final) =>
      final ==> var d := w.dispatches[row - 1];
                d.held.log.final != 0 && lines == |KeptLines(d.held.chunks)| && truncated == d.held.log.truncated
  }

  ghost predicate AllTrue(w: World, events: seq<Event>) {
    forall e | e in events :: True(w, e)
  }

  /** What was so is so later. */
  lemma TrueLater(caps: Caps, v: World, w: World, e: Event)
    requires Later(caps, v, w) && True(v, e)
    ensures True(w, e)
  {
    hide Good, KeptLines;
    var a, b := ChunksOf(v, e.row), ChunksOf(w, e.row);
    assert LogLater(caps, v.dispatches[e.row - 1].held, w.dispatches[e.row - 1].held);
    assert b[..|a|] == a;
    KeptPrefix(b, |a|);
  }

  /** A position a true event names is one to resume from: no line past it is behind its chunk, and the
      chunks before its own are all behind it. */
  ghost predicate Real(w: World, p: Position) {
    p == START || (IsRow(w, p.row) && (if p.number == 0 then p.line == 0 else InChunk(ChunksOf(w, p.row), p.number, p.line)))
  }

  lemma {:induction false} LastIdReal(w: World, p: Position, events: seq<Event>)
    requires Real(w, p) && AllTrue(w, events)
    ensures Real(w, LastId(p, events))
  {
    if events != [] {
      LastIdReal(w, p, events[..|events| - 1]);
      assert True(w, events[|events| - 1]);
    }
  }

  lemma RealBehind(w: World, p: Position)
    requires Real(w, p) && IsRow(w, p.row) && Tiled(ChunksOf(w, p.row))
    ensures Behind(ChunksOf(w, p.row), if p.number == 0 then 0 else p.number - 1, p.line)
  {
    var chunks := ChunksOf(w, p.row);
    if p.number != 0 {
      LineInChunk(chunks, p.number, p.line);
      assert TiledAt(chunks, p.number - 1);
      forall i | 0 <= i <= p.number - 1
        ensures |KeptLines(chunks[..i])| <= p.line
      {
        KeptPrefix(chunks[..p.number - 1], i);
        assert chunks[..p.number - 1][..i] == chunks[..i];
      }
    }
  }

  // ---- Once each, in order ----

  lemma {:induction false} LastIdConcat(p: Position, a: seq<Event>, b: seq<Event>)
    ensures LastId(p, a + b) == LastId(LastId(p, a), b)
    decreases |b|
  {
    if b == [] {
      assert a + b == a;
    } else {
      LastIdConcat(p, a, b[..|b| - 1]);
      assert (a + b)[..|a + b| - 1] == a + b[..|b| - 1];
    }
  }

  lemma {:induction false} FollowConcat(p: Position, a: seq<Event>, b: seq<Event>)
    ensures AllFollow(p, a + b) <==> AllFollow(p, a) && AllFollow(LastId(p, a), b)
    decreases |b|
  {
    if b == [] {
      assert a + b == a;
    } else {
      FollowConcat(p, a, b[..|b| - 1]);
      LastIdConcat(p, a, b[..|b| - 1]);
      assert (a + b)[..|a + b| - 1] == a + b[..|b| - 1];
    }
  }

  /** A connection resumed from the last id received, of which the reader had the first k events before
      it broke, adds to what was received as if it had never broken. */
  lemma Resumed(caps: Caps, v: World, w: World, received: seq<Event>, sent: seq<Event>, k: nat)
    requires AllFollow(START, received) && AllTrue(v, received) && Later(caps, v, w)
    requires AllFollow(LastId(START, received), sent) && AllTrue(w, sent) && k <= |sent|
    ensures AllFollow(START, received + sent[..k]) && AllTrue(w, received + sent[..k])
  {
    hide Later;
    assert sent == sent[..k] + sent[k..];
    FollowConcat(LastId(START, received), sent[..k], sent[k..]);
    FollowConcat(START, received, sent[..k]);
    forall e | e in received
      ensures True(w, e)
    {
      TrueLater(caps, v, w, e);
    }
  }

  /** The end of a dispatch was told. */
  predicate EndTold(events: seq<Event>, row: nat) {
    exists e :: e in events && e.Ends? && e.row == row
  }

  /** No dispatch begins but the first before the end of the one made before it was told. */
  ghost predicate EndsFirst(events: seq<Event>) {
    forall i | 0 <= i < |events| && events[i].Begins? && events[i].row > 1 :: EndTold(events[..i], events[i].row - 1)
  }

  lemma EndsFirstMore(a: seq<Event>, b: seq<Event>, k: nat)
    requires EndsFirst(a) && EndsFirst(b) && k <= |b|
    ensures EndsFirst(a + b[..k])
  {
    var all := a + b[..k];
    forall i | 0 <= i < |all| && all[i].Begins? && all[i].row > 1
      ensures EndTold(all[..i], all[i].row - 1)
    {
      if i < |a| {
        assert all[..i] == a[..i];
      } else {
        assert all[..i] == a + b[..i - |a|];
      }
    }
  }

  /** So a reader that stands in a dispatch was told of the end of every one before it. */
  lemma {:induction false} AllEnded(events: seq<Event>, row: nat)
    requires AllFollow(START, events) && EndsFirst(events) && 1 <= row < LastId(START, events).row
    ensures EndTold(events, row)
  {
    if events != [] {
      var before, e := events[..|events| - 1], events[|events| - 1];
      assert EndsFirst(before) by {
        forall i | 0 <= i < |before| && before[i].Begins? && before[i].row > 1
          ensures EndTold(before[..i], before[i].row - 1)
        {
          assert before[..i] == events[..i];
        }
      }
      if row < LastId(START, before).row {
        AllEnded(before, row);
      }
    }
  }

  /** The same of a connection alone: of every dispatch from the one it began in to the one it stands in. */
  lemma {:induction false} EndedSince(p: Position, events: seq<Event>, row: nat)
    requires AllFollow(p, events) && EndsFirst(events) && 1 <= row && p.row <= row < LastId(p, events).row
    ensures EndTold(events, row)
  {
    if events != [] {
      var before := events[..|events| - 1];
      assert EndsFirst(before) by {
        forall i | 0 <= i < |before| && before[i].Begins? && before[i].row > 1
          ensures EndTold(before[..i], before[i].row - 1)
        {
          assert before[..i] == events[..i];
        }
      }
      if row < LastId(p, before).row {
        EndedSince(p, before, row);
      }
    }
  }

  // ---- When a dispatch is done with ----

  /** A dispatch is done with where its log is closed; it ran nowhere, and ended or never will; it ended by itself; or
      it was stopped, and the settling time is past since it ended, or since it was met where nothing says when. */
  predicate LetGo(d: Dispatch, over: bool, now: int, settling: int, met: int) {
    || d.held.log.final != 0
    || (!d.bound && (over || d.state != Going))
    || d.state == Ended
    || (d.state == Stopped && now >= (if d.finishedAt != 0 then d.finishedAt else met) + settling)
  }

  function MetAt(stopped: map<nat, int>, row: nat, now: int): int {
    if row in stopped then stopped[row] else now
  }

  predicate RowDone(w: World, row: nat, now: int, settling: int, stopped: map<nat, int>) {
    IsRow(w, row) && LetGo(w.dispatches[row - 1], w.over, now, settling, MetAt(stopped, row, now))
  }

  /** The end of a dispatch as one moment has it. */
  function EndOf(w: World, row: nat): Event
    requires IsRow(w, row)
  {
    var log := w.dispatches[row - 1].held.log;
    Ends(row, log.lines, log.truncated, log.final != 0)
  }

  function Upto(a: nat, b: nat): seq<nat>
    requires a <= b + 1
  {
    seq(b + 1 - a, (i: nat) => a + i)
  }

  /** The lines of one dispatch the events cover, in the order they do. */
  function Covered(events: seq<Event>, row: nat): seq<nat> {
    if events == [] then []
    else
      Covered(events[..|events| - 1], row) +
      match events[|events| - 1]
      case LineOf(r, _, n, _) => if r == row then [n] else []
      case Gap(r, _, first, last) => if r == row && first <= last then Upto(first, last) else []
      case _ => []
  }

  /** Whatever was received covers the lines of each dispatch from the first to some line once each, in
      order. */
  lemma {:induction false} OnceEach(events: seq<Event>, row: nat)
    requires AllFollow(START, events)
    ensures var p := LastId(START, events);
            Covered(events, row) == Upto(1, |Covered(events, row)|) && (row == p.row ==> |Covered(events, row)| == p.line) && (row > p.row ==> Covered(events, row) == [])
  {
    if events != [] {
      var before := events[..|events| - 1];
      OnceEach(before, row);
      var k := |Covered(before, row)|;
      match events[|events| - 1]
      case LineOf(r, _, n, _) =>
        if r == row {
          assert Upto(1, k) + [n] == Upto(1, k + 1);
        }
      case Gap(r, _, first, last) =>
        if r == row {
          assert Upto(1, k) + Upto(first, last) == Upto(1, last);
        }
      case _ =>
    }
  }
}
