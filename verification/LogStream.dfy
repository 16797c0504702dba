/** One stream of a step's log: dispatch after dispatch, what each holds and then what is shipped while
    the stream waits. */
module LogStream {
  import opened Options
  import opened LogCaps
  import opened Logs
  import opened LogRuns
  import opened Reading

  /** How many dispatches and how many chunks one read takes. */
  const STEP_BATCH: nat := 64
  const CHUNK_BATCH: nat := 16

  /** The worlds a stream may find as time goes on, each later than those before it. */
  ghost predicate Chronicle(caps: Caps, history: seq<World>) {
    history != [] && forall i, j | 0 <= i <= j < |history| :: Later(caps, history[i], history[j])
  }

  /** The chunks from the i-th on that hold lines, `limit` of them at most. */
  function Holding(chunks: seq<Chunk>, i: nat, limit: nat): seq<Chunk>
    decreases |chunks| - i
  {
    if i >= |chunks| || limit == 0 then []
    else if chunks[i].key.Some? then [chunks[i]] + Holding(chunks, i + 1, limit - 1)
    else Holding(chunks, i + 1, limit)
  }

  lemma {:induction false} HoldingFirst(chunks: seq<Chunk>, i: nat, limit: nat)
    requires Holding(chunks, i, limit) != [] && Numbered(chunks)
    ensures var c := Holding(chunks, i, limit)[0];
            && i < c.number <= |chunks| && chunks[c.number - 1] == c && c.key.Some?
            && (forall k | i <= k < c.number - 1 :: chunks[k].key.None?)
            && limit > 0 && Holding(chunks, i, limit)[1..] == Holding(chunks, c.number, limit - 1)
    decreases |chunks| - i
  {
    hide ShippedLines;
    assert NumberedAt(chunks, i);
    if chunks[i].key.None? {
      HoldingFirst(chunks, i + 1, limit);
    }
  }

  lemma {:induction false} HoldingNone(chunks: seq<Chunk>, i: nat, limit: nat)
    requires Holding(chunks, i, limit) == [] && limit > 0
    ensures forall k | i <= k < |chunks| :: chunks[k].key.None?
    decreases |chunks| - i
  {
    if i < |chunks| {
      HoldingNone(chunks, i + 1, limit);
    }
  }

  /** Where a stream stands in its dispatch. */
  ghost predicate Placed(w: World, at: nat, after: nat, line: nat) {
    if at == 0 then after == 0 && line == 0 else IsRow(w, at) && Behind(ChunksOf(w, at), after, line)
  }

  lemma PlacedLater(caps: Caps, v: World, w: World, at: nat, after: nat, line: nat)
    requires Later(caps, v, w) && Placed(v, at, after, line)
    ensures Placed(w, at, after, line)
  {
    hide Good, KeptLines;
    if at != 0 {
      var a, b := ChunksOf(v, at), ChunksOf(w, at);
      assert LogLater(caps, v.dispatches[at - 1].held, w.dispatches[at - 1].held);
      assert b[..|a|] == a;
      KeptPrefix(b, |a|);
      assert forall i | 0 <= i <= |a| :: b[..i] == a[..i];
    }
  }

  lemma AllTrueLater(caps: Caps, v: World, w: World, events: seq<Event>)
    requires Later(caps, v, w) && AllTrue(v, events)
    ensures AllTrue(w, events)
  {
    hide Later, True;
    forall e | e in events
      ensures True(w, e)
    {
      TrueLater(caps, v, w, e);
    }
  }

  /** The next chunk that holds lines begins no later than the line after the last one sent. */
  lemma NextBegins(chunks: seq<Chunk>, after: nat, line: nat, number: nat)
    requires Tiled(chunks) && Behind(chunks, after, line) && after < number <= |chunks|
    requires chunks[number - 1].key.Some? && forall k | after <= k < number - 1 :: chunks[k].key.None?
    ensures 1 <= chunks[number - 1].firstLine <= line + 1 && chunks[number - 1].lines > 0
    ensures |KeptLines(chunks[..number])| == chunks[number - 1].firstLine + chunks[number - 1].lines - 1 <= |KeptLines(chunks)|
  {
    NothingKept(chunks, after, number - 1);
    assert TiledAt(chunks, number - 1);
    assert chunks[..number][..number - 1] == chunks[..number - 1];
    KeptPrefix(chunks, number);
  }

  /** A chunk sent whole is behind. */
  lemma SentWhole(chunks: seq<Chunk>, after: nat, line: nat, number: nat, line': nat)
    requires Tiled(chunks) && Behind(chunks, after, line) && after < number <= |chunks|
    requires line <= line' <= |KeptLines(chunks)| && |KeptLines(chunks[..number])| <= line'
    ensures Behind(chunks, number, line')
  {
    forall i | 0 <= i <= number
      ensures |KeptLines(chunks[..i])| <= line'
    {
      KeptPrefix(chunks[..number], i);
      assert chunks[..number][..i] == chunks[..i];
    }
  }

  lemma AllBehind(chunks: seq<Chunk>, after: nat, line: nat)
    requires Tiled(chunks) && Behind(chunks, after, line)
    requires forall k | after <= k < |chunks| :: chunks[k].key.None?
    ensures line == |KeptLines(chunks)|
  {
    NothingKept(chunks, after, |chunks|);
    assert chunks[..|chunks|] == chunks;
  }

  /** A gap is of a chunk whose object the store lost, and a line is of one whose object it was read from. */
  ghost predicate FromStore(history: seq<World>, e: Event) {
    (e.Gap? ==> Lost(history, e.row, e.number)) && (e.LineOf? ==> Found(history, e.row, e.number))
  }

  ghost predicate AllStored(history: seq<World>, out: seq<Event>) {
    forall e | e in out :: FromStore(history, e)
  }

  lemma AllStoredMore(history: seq<World>, a: seq<Event>, b: seq<Event>, k: nat)
    requires AllStored(history, a) && AllStored(history, b) && k <= |b|
    ensures AllStored(history, a + b[..k])
  {
    hide FromStore;
    forall e | e in a + b[..k]
      ensures FromStore(history, e)
    {
      assert e in a || e in b;
    }
  }

  /** So a reader is told of no gap where the store loses nothing. */
  lemma NoGaps(history: seq<World>, received: seq<Event>)
    requires AllStored(history, received) && forall t | 0 <= t < |history| :: Intact(history[t])
    ensures forall e | e in received :: !e.Gap?
  {
    hide Intact, LostAt;
    forall t, row: nat, number: nat | 0 <= t < |history|
      ensures !LostAt(history[t], row, number)
    {
      IntactLost(history[t], row, number);
    }
  }

  /** What is sent after `a` holds no end of a dispatch. */
  ghost predicate NoEnds(a: seq<Event>, b: seq<Event>) {
    a <= b && forall i | |a| <= i < |b| :: !b[i].Ends?
  }

  /** Each end sent after `a` is of a row that is done with, as one moment has it. */
  ghost predicate EndsRight(w: World, now: int, settling: int, stopped: map<nat, int>, a: seq<Event>, b: seq<Event>) {
    a <= b && forall i | |a| <= i < |b| && b[i].Ends? :: RowDone(w, b[i].row, now, settling, stopped) && b[i] == EndOf(w, b[i].row)
  }

  lemma EndsRightOn(w: World, now: int, settling: int, stopped: map<nat, int>, a: seq<Event>, b: seq<Event>, c: seq<Event>)
    requires EndsRight(w, now, settling, stopped, a, b)
    requires NoEnds(b, c) || (exists row :: RowDone(w, row, now, settling, stopped) && c == b + [EndOf(w, row)])
    ensures EndsRight(w, now, settling, stopped, a, c)
  {
    hide RowDone;
  }

  lemma NothingAfter(w: World, now: int, settling: int, stopped: map<nat, int>, a: seq<Event>)
    ensures EndsRight(w, now, settling, stopped, a, a)
  {}

  lemma IsDone(w: World, row: nat, now: int, settling: int, was: map<nat, int>, stopped: map<nat, int>)
    requires IsRow(w, row) && LetGo(w.dispatches[row - 1], w.over, now, settling, MetAt(stopped, row, now)) && MetAt(stopped, row, now) == MetAt(was, row, now)
    ensures RowDone(w, row, now, settling, was)
  {}

  lemma NoEndsSince(a: seq<Event>, b: seq<Event>, c: seq<Event>, row: nat)
    requires (b == a || b == a + [Begins(row)]) && NoEnds(b, c)
    ensures NoEnds(a, c)
  {}

  lemma EndsFirstSends(out: seq<Event>, e: Event)
    requires EndsFirst(out) && (e.Begins? ==> e.row <= 1 || EndTold(out, e.row - 1))
    ensures EndsFirst(out + [e])
  {
    var all := out + [e];
    forall i | 0 <= i < |all| && all[i].Begins? && all[i].row > 1
      ensures EndTold(all[..i], all[i].row - 1)
    {
      assert all[..i] == out[..i];
      assert i == |out| ==> out[..i] == out;
    }
  }

  lemma EndedStays(out: seq<Event>, e: Event, row: nat)
    requires EndTold(out, row) || (e.Ends? && e.row == row)
    ensures EndTold(out + [e], row)
  {
    if EndTold(out, row) {
      var x :| x in out && x.Ends? && x.row == row;
      assert x in out + [e];
    } else {
      assert e in out + [e];
    }
  }

  /** A connection: what it remembers, and, as `out`, everything it has sent. */
  class Follower {
    const caps: Caps
    const history: seq<World>

    /** Where the reader stood when it connected. */
    ghost const from: Position

    /** The moment last read at. */
    var read: nat

    /** The row followed, 0 before the first; whether its Begins is in `out`; the number of chunks that are behind
        `line`; the line of the last id in `out`; and whether its Ends is in `out`. */
    var at: nat
    var announced: bool
    var after: nat
    var line: nat
    var gone: bool

    /** For a Stopped row with no finishedAt, the clock when LettingGo first met it. */
    var stopped: map<nat, int>

    /** The events sent. */
    var out: seq<Event>

    /** Whether a read failed that may not the next time, which the connection does not outlive. */
    var broke: bool

    ghost predicate Valid()
      reads this
    {
      && Chronicle(caps, history) && read < |history|
      && Placed(history[read], at, after, line)
      && (at != 0 ==> announced)
      && AllFollow(from, out) && AllTrue(history[read], out)
      && LastId(from, out).row == at && LastId(from, out).line == line
      && AllStored(history, out) && EndsFirst(out) && (gone ==> EndTold(out, at))
    }

    /** A connection opened with the id p: what it sends is to follow p, and the chunk p names may still hold
        lines past it. */
    constructor (caps: Caps, history: seq<World>, now: nat, p: Position)
      requires Chronicle(caps, history) && now < |history| && Real(history[now], p)
      ensures Valid() && this.caps == caps && this.history == history && from == p && out == [] && read == now && !broke
    {
      this.caps, this.history, this.from := caps, history, p;
      read := now;
      at, announced, after, line, gone := p.row, p.row != 0, if p.number == 0 then 0 else p.number - 1, p.line, false;
      stopped, out, broke := map[], [], false;
      new;
      if p != START {
        assert Later(caps, history[now], history[now]);
        RealBehind(history[now], p);
      }
    }

    /** Reads the database again, at some later moment, and as it stands at `present` or after. */
    method ReadAgain(present: nat)
      requires Valid() && present < |history|
      modifies this`read
      ensures Valid() && old(read) <= read && present <= read
    {
      hide AllTrue, Placed, Later, AllStored, EndsFirst, EndTold;
      var t :| read <= t < |history| && present <= t;
      PlacedLater(caps, history[read], history[t], at, after, line);
      AllTrueLater(caps, history[read], history[t], out);
      read := t;
    }

    /** Sends one event, of the dispatch followed, that names a line after the last one sent. */
    method Send(e: Event, n: nat)
      requires Valid() && at != 0 && (e.LineOf? || e.Gap?) && e.row == at
      requires Reading.Follows(LastId(from, out), e) && True(history[read], e)
      requires IdOf(e).Some? && IdOf(e).value.line == n && line < n
      requires FromStore(history, e)
      modifies this`line, this`out
      ensures Valid() && line == n && out == old(out) + [e]
    {
      hide AllFollow, Chronicle, KeptLines, LastId, EndsFirst, EndTold, Lost, Found;
      EndsFirstSends(out, e);
      if gone {
        EndedStays(out, e, at);
      }
      TiledNow(caps, history, read, at);
      LineInChunk(ChunksOf(history[read], at), e.number, n);
      Sending(from, out, e);
      out := out + [e];
      line := n;
    }

    /** Sends the lines of one chunk past the last one sent, or, where its object cannot be read back,
        that they cannot. */
    method SendChunk(c: Chunk, readable: bool)
      requires Valid() && at != 0 && after < c.number <= |ChunksOf(history[read], at)|
      requires ChunksOf(history[read], at)[c.number - 1] == c && c.key.Some?
      requires forall k | after <= k < c.number - 1 :: ChunksOf(history[read], at)[k].key.None?
      requires if readable then Found(history, at, c.number) else Lost(history, at, c.number)
      modifies this`after, this`line, this`out
      ensures Valid() && after == c.number && NoEnds(old(out), out)
      ensures readable ==> forall i | |old(out)| <= i < |out| :: out[i].LineOf?
      ensures !readable ==> |out| <= |old(out)| + 1
    {
      hide AllFollow, Chronicle, KeptLines, LastId, EndsFirst, EndTold, Lost, Found, AllStored;
      ghost var chunks := ChunksOf(history[read], at);
      TiledNow(caps, history, read, at);
      NextBegins(chunks, after, line, c.number);
      assert TiledAt(chunks, c.number - 1);
      var last := c.firstLine + c.lines - 1;
      if !readable {
        if last > line {
          var first := if c.firstLine > line + 1 then c.firstLine else line + 1;
          Send(Gap(at, c.number, first, last), last);
        }
      } else {
        SendLines(c);
      }
      SentWhole(chunks, after, line, c.number, line);
      after := c.number;
    }

    method SendLines(c: Chunk)
      requires Valid() && at != 0 && 1 <= c.number <= |ChunksOf(history[read], at)|
      requires ChunksOf(history[read], at)[c.number - 1] == c && c.key.Some? && 1 <= c.firstLine <= line + 1 && Found(history, at, c.number)
      modifies this`line, this`out
      ensures Valid() && c.firstLine + c.lines <= line + 1
      ensures old(out) <= out && forall i | |old(out)| <= i < |out| :: out[i].LineOf?
    {
      hide AllFollow, Chronicle, KeptLines, Placed, LastId, AllTrue, AllStored, EndsFirst, EndTold, Lost, Found;
      FirstRow(history[read], at, after, line);
      ghost var chunks := ChunksOf(history[read], at);
      TiledNow(caps, history, read, at);
      assert TiledAt(chunks, c.number - 1);
      for i := 0 to |c.digest|
        invariant Valid() && c.firstLine + i <= line + 1
        invariant old(out) <= out && forall j | |old(out)| <= j < |out| :: out[j].LineOf?
      {
        var n := c.firstLine + i;
        if n <= line {
          continue;
        }
        LineInChunk(chunks, c.number, n);
        Send(LineOf(at, c.number, n, c.digest[i]), n);
      }
    }

    /** Whether the object of a chunk is read back, at some moment after the chunk was. */
    method Fetched(c: Chunk) returns (readable: bool)
      requires Valid() && at != 0 && 1 <= c.number <= |ChunksOf(history[read], at)|
      requires ChunksOf(history[read], at)[c.number - 1] == c && c.key.Some?
      ensures if readable then Found(history, at, c.number) else Lost(history, at, c.number)
      ensures (forall t | 0 <= t < |history| :: Intact(history[t])) ==> readable
    {
      hide AllFollow, Chronicle, KeptLines, LastId, AllTrue, AllStored, EndsFirst, EndTold, Intact;
      FirstRow(history[read], at, after, line);
      var t :| read <= t < |history|;
      ChunkStays(caps, history, read, t, at, c.number);
      readable := Readable(history[t], at, c);
      if forall t | 0 <= t < |history| :: Intact(history[t]) {
        IntactLost(history[t], at, c.number);
      }
    }

    /** Sends a batch of chunks, and says whether there may be more, and whether one could not be read
        for a reason that may pass. */
    method SendBatch() returns (ok: bool, more: bool)
      requires Valid() && at != 0 && !broke
      modifies this`after, this`line, this`out, this`broke
      ensures NoEnds(old(out), out) && ok == !broke
      ensures Valid() && (ok && more ==> after > old(after))
      ensures ok && !more ==> line == |KeptLines(ChunksOf(history[read], at))|
    {
      hide AllFollow, Chronicle, KeptLines, LastId, AllTrue, Numbered, Tiled, AllStored, EndsFirst, EndTold;
      TiledNow(caps, history, read, at);
      ghost var chunks := ChunksOf(history[read], at);
      var batch := Holding(ChunksOf(history[read], at), after, CHUNK_BATCH);
      assert batch[0..] == batch;
      for i := 0 to |batch|
        invariant NoEnds(old(out), out) && !broke
        invariant Valid() && after >= old(after) && (i > 0 ==> after > old(after))
        invariant i <= CHUNK_BATCH && batch[i..] == Holding(chunks, after, CHUNK_BATCH - i)
      {
        HoldingFirst(chunks, after, CHUNK_BATCH - i);
        assert batch[i..][0] == batch[i] && batch[i..][1..] == batch[i + 1..];
        if * {
          broke := true;
          return false, true;
        }
        var readable := Fetched(batch[i]);
        SendChunk(batch[i], readable);
      }
      if |batch| < CHUNK_BATCH {
        assert batch[|batch|..] == [];
        HoldingNone(chunks, after, CHUNK_BATCH - |batch|);
        AllBehind(chunks, after, line);
        return true, false;
      }
      return true, true;
    }

    /** Repeats SendBatch, on later and later reads, until one comes back short; `ok` is false where one failed,
        and then the connection is over. */
    method SendChunks() returns (ok: bool)
      requires Valid() && at != 0 && !broke
      modifies this`read, this`after, this`line, this`out, this`broke
      ensures ok == !broke
      ensures Valid() && old(read) <= read && NoEnds(old(out), out)
      ensures ok ==> line == |KeptLines(ChunksOf(history[read], at))|
    {
      hide AllFollow, KeptLines, LastId, AllTrue, Chronicle, AllStored, EndsFirst, EndTold;
      var more := true;
      ok := true;
      RowStays(caps, history, read, at);
      while more
        invariant Valid() && old(read) <= read && NoEnds(old(out), out) && ok && !broke
        invariant ok && !more ==> line == |KeptLines(ChunksOf(history[read], at))|
        decreases more, |ChunksOf(history[|history| - 1], at)| - after
      {
        ReadAgain(read);
        RowStays(caps, history, read, at);
        ok, more := SendBatch();
        if !ok {
          return;
        }
      }
    }

    /** Moves on to the next dispatch, and says that it begins. */
    method Begin(row: nat)
      requires Valid() && row == at + 1 && IsRow(history[read], row) && (at == 0 || gone)
      modifies this`at, this`announced, this`after, this`line, this`gone, this`out
      ensures Valid() && at == row && !gone && out == old(out) + [Begins(row)]
    {
      hide AllFollow, Chronicle, KeptLines, LastId, EndsFirst, EndTold;
      at, announced, after, line, gone := row, false, 0, 0, false;
      if !announced {
        Sending(from, out, Begins(row));
        EndsFirstSends(out, Begins(row));
        out := out + [Begins(row)];
        announced := true;
      }
      NoneBehind(ChunksOf(history[read], row));
    }

    /** Decides on a row as it was read before its chunks were. Only a Stopped row is given more time, counted
        from its finishedAt or else from `stopped`. */
    method LettingGo(row: nat, d: Dispatch, over: bool, now: int, settling: int) returns (go: bool)
      requires Valid()
      modifies this`stopped
      ensures Valid()
      ensures go <==> LetGo(d, over, now, settling, MetAt(old(stopped), row, now))
      ensures forall r :: MetAt(stopped, r, now) == MetAt(old(stopped), r, now)
      ensures d.state == Stopped && d.bound && d.held.log.final == 0 && d.finishedAt == 0 ==> row in stopped
    {
      if d.held.log.final != 0 {
        return true;
      }
      if !d.bound && (over || d.state != Going) {
        return true;
      }
      if d.state == Going {
        return false;
      }
      if d.state != Stopped {
        return true;
      }
      var ended := d.finishedAt;
      if ended == 0 {
        if row !in stopped {
          stopped := stopped[row := now];
        }
        ended := stopped[row];
      }
      return now >= ended + settling;
    }

    /** Adds the Ends of the row followed, with the figures it had in history[since]; those are true, and final
        means whole, since the chunks were read no earlier. */
    method End(ghost since: nat, d: Dispatch)
      requires Valid() && at != 0 && since <= read && IsRow(history[since], at) && d == history[since].dispatches[at - 1]
      requires line == |KeptLines(ChunksOf(history[read], at))|
      modifies this`out, this`gone
      ensures Valid() && gone && out == old(out) + [EndOf(history[since], at)]
    {
      hide AllFollow, KeptLines, LastId, EndsFirst, EndTold, Placed, Chronicle;
      var e := Ends(at, d.held.log.lines, d.held.log.truncated, d.held.log.final != 0);
      ClosedThen(caps, history, since, read, at);
      Sending(from, out, e);
      EndsFirstSends(out, e);
      EndedStays(out, e, at);
      out := out + [e];
      gone := true;
    }

    /** Reads the world at `since`, no earlier than it was called, then goes through at most STEP_BATCH of its rows, each to its Ends, and stops at
        the first that LettingGo keeps. `over` is answered only by a short batch of a world that is over. */
    method Advance(now: int, settling: int, present: nat) returns (over: bool, ok: bool, ghost since: nat)
      requires Valid() && !broke && present < |history|
      modifies this
      ensures ok == !broke
      ensures Valid() && old(read) <= since <= read && present <= since
      ensures ok && at != 0 && !gone ==> line == |KeptLines(ChunksOf(history[read], at))|
      ensures ok && gone ==> at == |history[since].dispatches| || at == (if old(at) == 0 then 1 else old(at)) + STEP_BATCH - 1
      ensures EndsRight(history[since], now, settling, old(stopped), old(out), out)
      ensures ok && at != 0 && !gone ==> IsRow(history[since], at) && !RowDone(history[since], at, now, settling, old(stopped))
      ensures ok && at == 0 ==> history[since].dispatches == []
      ensures over <==> ok && history[since].over && at == |history[since].dispatches| && (at != 0 ==> gone)
                        && |history[since].dispatches| - (if old(at) == 0 then 0 else old(at) - 1) < STEP_BATCH
    {
      hide AllFollow, KeptLines, LastId, AllTrue, Placed, Chronicle, AllStored, EndsFirst, EndTold, LetGo, EndsRight, NoEnds, MetAt;
      ReadAgain(present);
      var world := history[read];
      since := read;
      ghost var was, sent := stopped, out;
      NothingAfter(world, now, settling, was, out);
      var first := if at == 0 then 1 else at;
      FirstRow(world, at, after, line);
      var n := if |world.dispatches| - (first - 1) < STEP_BATCH then |world.dispatches| - (first - 1) else STEP_BATCH;
      for i := 0 to n
        invariant Valid() && old(read) <= since <= read
        invariant at == (if i == 0 then old(at) else first + i - 1) && (i > 0 ==> gone)
        invariant i == 0 ==> gone == old(gone)
        invariant EndsRight(world, now, settling, was, sent, out) && !broke
        invariant forall r :: MetAt(stopped, r, now) == MetAt(was, r, now)
      {
        var row := first + i;
        var d := world.dispatches[row - 1];
        if row == at && gone {
          continue;
        }
        RowsStay(caps, history, since, read, row);
        ghost var before := out;
        if row != at {
          Begin(row);
        }
        ghost var begun := out;
        ok := SendChunks();
        NoEndsSince(before, begun, out, row);
        EndsRightOn(world, now, settling, was, sent, before, out);
        if !ok {
          return false, false, since;
        }
        var go := LettingGo(row, d, world.over, now, settling);
        if !go {
          return false, true, since;
        }
        before := out;
        End(since, d);
        IsDone(world, row, now, settling, was, stopped);
        EndsRightOn(world, now, settling, was, sent, before, out);
      }
      return n < STEP_BATCH && world.over, true, since;
    }
  }

  lemma FirstRow(w: World, at: nat, after: nat, line: nat)
    requires Placed(w, at, after, line)
    ensures at != 0 ==> IsRow(w, at)
  {}

  lemma RowsStay(caps: Caps, history: seq<World>, since: nat, read: nat, row: nat)
    requires Chronicle(caps, history) && since <= read < |history| && IsRow(history[since], row)
    ensures IsRow(history[read], row)
  {
    assert Later(caps, history[since], history[read]);
  }

  lemma ChunkStays(caps: Caps, history: seq<World>, since: nat, read: nat, row: nat, number: nat)
    requires Chronicle(caps, history) && since <= read < |history| && IsRow(history[since], row) && 1 <= number <= |ChunksOf(history[since], row)|
    ensures IsRow(history[read], row) && number <= |ChunksOf(history[read], row)|
    ensures ChunksOf(history[read], row)[number - 1] == ChunksOf(history[since], row)[number - 1]
  {
    hide Good;
    assert Later(caps, history[since], history[read]);
    assert LogLater(caps, history[since].dispatches[row - 1].held, history[read].dispatches[row - 1].held);
  }

  lemma NoneBehind(chunks: seq<Chunk>)
    ensures Behind(chunks, 0, 0)
  {}

  /** The index of a dispatch only grows, to what it is in the end. */
  lemma RowStays(caps: Caps, history: seq<World>, read: nat, row: nat)
    requires Chronicle(caps, history) && read < |history| && IsRow(history[read], row)
    ensures IsRow(history[|history| - 1], row)
    ensures |ChunksOf(history[read], row)| <= |ChunksOf(history[|history| - 1], row)|
  {
    hide Good;
    assert Later(caps, history[read], history[|history| - 1]);
    assert LogLater(caps, history[read].dispatches[row - 1].held, history[|history| - 1].dispatches[row - 1].held);
  }

  /** A log closed when its dispatch was read holds, whenever its chunks are read after, what it held. */
  lemma ClosedThen(caps: Caps, history: seq<World>, since: nat, read: nat, row: nat)
    requires Chronicle(caps, history) && since <= read < |history| && IsRow(history[since], row)
    ensures var d := history[since].dispatches[row - 1];
            && IsRow(history[read], row)
            && (d.held.log.final != 0 ==>
                  && history[read].dispatches[row - 1].held.log == d.held.log && ChunksOf(history[read], row) == d.held.chunks
                  && d.held.log.lines == |KeptLines(d.held.chunks)|)
  {
    hide Numbered, Tiled, KeptLines;
    assert Later(caps, history[since], history[read]);
    assert LogLater(caps, history[since].dispatches[row - 1].held, history[read].dispatches[row - 1].held);
  }

  lemma TiledNow(caps: Caps, history: seq<World>, read: nat, row: nat)
    requires Chronicle(caps, history) && read < |history| && IsRow(history[read], row)
    ensures Tiled(ChunksOf(history[read], row)) && Numbered(ChunksOf(history[read], row))
  {
    hide Tiled, Numbered;
    assert Later(caps, history[read], history[read]);
    assert LogLater(caps, history[read].dispatches[row - 1].held, history[read].dispatches[row - 1].held);
  }

  lemma Sending(p: Position, out: seq<Event>, e: Event)
    ensures LastId(p, out + [e]) == Next(LastId(p, out), e)
    ensures AllFollow(p, out) && Follows(LastId(p, out), e) ==> AllFollow(p, out + [e])
  {
    assert (out + [e])[..|out|] == out;
  }

  /** A reader that follows a step's log over any number of connections, each broken wherever it is and
      resumed from the last id received, while the log is shipped on. What it was told is true, and what
      follows; a gap is of a chunk whose object the store lost, a line of one whose object it had; and once it
      was told all that a stream that says the step is over sends, it was told of the end of every dispatch of the step. */
  method Follow(caps: Caps, history: seq<World>, connections: nat)
    returns (received: seq<Event>, whole: bool, ghost since: nat)
    requires Chronicle(caps, history)
    ensures AllFollow(START, received) && AllTrue(history[|history| - 1], received)
    ensures EndsFirst(received) && AllStored(history, received)
    ensures whole ==> since < |history| && history[since].over
                      && forall row | 1 <= row <= |history[since].dispatches| :: EndTold(received, row)
  {
    hide AllTrue, AllFollow, LastId, Real, Later, AllStored, EndsFirst, EndTold;
    received, whole, since := [], false, 0;
    var t: nat := 0;
    NothingReceived(history, history[0]);
    for i := 0 to connections
      invariant t < |history|
      invariant AllFollow(START, received) && AllTrue(history[t], received) && EndsFirst(received) && AllStored(history, received)
      invariant whole ==> since < |history| && history[since].over && AllTold(received, |history[since].dispatches|)
    {
      var now :| t <= now < |history|;
      AllTrueLater(caps, history[t], history[now], received);
      LastIdReal(history[now], START, received);
      var f := new Follower(caps, history, now, LastId(START, received));
      var over := false;
      ghost var read: nat := now;
      var rounds: nat :| rounds >= 0;
      for r := 0 to rounds
        invariant f.Valid() && f.caps == caps && f.history == history && f.from == LastId(START, received) && now <= f.read
        invariant over ==> read < |history| && history[read].over && f.at == |history[read].dispatches| && (f.at != 0 ==> f.gone)
      {
        if over || f.broke {
          break;
        }
        var clock: int, settling: int := *, *;
        var present :| 0 <= present < |history|;
        var ok;
        over, ok, read := f.Advance(clock, settling, present);
      }
      var k :| 0 <= k <= |f.out|;
      Resumed(caps, history[now], history[f.read], received, f.out, k);
      EndsFirstMore(received, f.out, k);
      AllStoredMore(history, received, f.out, k);
      ghost var had := received;
      received, t := received + f.out[..k], f.read;
      whole := over && k == |f.out|;
      if whole {
        assert f.out[..k] == f.out;
        ToldAll(had, f.out, f.at);
        since := read;
      }
    }
    AllTrueLater(caps, history[t], history[|history| - 1], received);
  }

  ghost predicate AllTold(received: seq<Event>, rows: nat) {
    forall row | 1 <= row <= rows :: EndTold(received, row)
  }

  lemma ToldAll(had: seq<Event>, out: seq<Event>, at: nat)
    requires AllFollow(START, had + out) && EndsFirst(had + out)
    requires LastId(LastId(START, had), out).row == at && (at != 0 ==> EndTold(out, at))
    ensures AllTold(had + out, at)
  {
    hide AllFollow, EndsFirst;
    LastIdConcat(START, had, out);
    forall row | 1 <= row <= at
      ensures EndTold(had + out, row)
    {
      if row < at {
        AllEnded(had + out, row);
      } else {
        var e :| e in out && e.Ends? && e.row == at;
        assert e in had + out;
      }
    }
  }

  // ---- A step that is over ----

  /** Every dispatch of the step has a closed log. */
  ghost predicate AllClosed(w: World) {
    forall row: nat | IsRow(w, row) :: w.dispatches[row - 1].held.log.final != 0
  }

  ghost predicate OverFrom(history: seq<World>, t: nat) {
    forall u | t <= u < |history| :: history[u].over && AllClosed(history[u]) && |history[u].dispatches| == |history[t].dispatches|
  }

  lemma StaysOver(caps: Caps, history: seq<World>, t: nat)
    requires Chronicle(caps, history) && t < |history| && history[t].over && AllClosed(history[t])
    ensures OverFrom(history, t)
  {
    hide Good;
    forall u | t <= u < |history|
      ensures history[u].over && AllClosed(history[u]) && |history[u].dispatches| == |history[t].dispatches|
    {
      assert Later(caps, history[t], history[u]);
      forall row: nat | IsRow(history[u], row)
        ensures history[u].dispatches[row - 1].held.log.final != 0
      {
        assert IsRow(history[t], row);
        assert LogLater(caps, history[t].dispatches[row - 1].held, history[u].dispatches[row - 1].held);
      }
    }
  }

  ghost predicate AllFinal(events: seq<Event>) {
    forall e | e in events && e.Ends? :: e.final
  }

  lemma FinalMore(w: World, now: int, settling: int, stopped: map<nat, int>, a: seq<Event>, b: seq<Event>)
    requires AllFinal(a) && AllClosed(w) && EndsRight(w, now, settling, stopped, a, b)
    ensures AllFinal(b)
  {
    forall e | e in b && e.Ends?
      ensures e.final
    {
      var i :| 0 <= i < |b| && b[i] == e;
      if i < |a| {
        assert b[i] == a[i];
      }
    }
  }

  /** A connection, opened at any moment, to a step that is over since t, every log of it closed, advances to the end
      unless a read fails: it never waits, and each time moves on or is told that the step is over. */
  method ToTheEnd(f: Follower, t: nat, settling: int) returns (ok: bool)
    requires f.Valid() && f.out == [] && !f.broke && t < |f.history| && OverFrom(f.history, t)
    modifies f
    ensures ok == !f.broke
    ensures f.Valid() && AllFinal(f.out) && old(f.read) <= f.read
    ensures ok ==> t <= f.read && f.at == |f.history[f.read].dispatches| && (f.at != 0 ==> f.gone)
  {
    hide Follower.Valid, AllFinal, EndsRight, LetGo;
    NoneFinal();
    ReadIs(f);
    RowsThen(f, t);
    var over := false;
    ok := true;
    while !over
      invariant f.Valid() && AllFinal(f.out) && old(f.read) <= f.read < |f.history| && ok && !f.broke
      invariant f.at <= |f.history[t].dispatches|
      invariant over ==> t <= f.read && f.at == |f.history[f.read].dispatches| && (f.at != 0 ==> f.gone)
      decreases !over, |f.history[t].dispatches| - f.at
    {
      var now: int := *;
      ghost var before, since, at, stopped := f.out, 0, f.at, f.stopped;
      over, ok, since := f.Advance(now, settling, t);
      ReadIs(f);
      FinalMore(f.history[since], now, settling, stopped, before, f.out);
      if !ok {
        return;
      }
      ClosedDone(f.history[since], f.at, now, settling, stopped);
    }
  }

  lemma NoneFinal()
    ensures AllFinal([])
  {}

  lemma ReadIs(f: Follower)
    requires f.Valid()
    ensures f.read < |f.history| && f.at <= |f.history[f.read].dispatches|
  {}

  lemma RowsThen(f: Follower, t: nat)
    requires f.Valid() && t < |f.history| && OverFrom(f.history, t)
    ensures f.at <= |f.history[t].dispatches|
  {
    if f.read < t {
      assert Later(f.caps, f.history[f.read], f.history[t]);
    }
  }

  lemma ClosedDone(w: World, row: nat, now: int, settling: int, stopped: map<nat, int>)
    requires AllClosed(w)
    ensures IsRow(w, row) ==> RowDone(w, row, now, settling, stopped)
  {}

  /** A dispatch told in full: each line kept of it, once, in order, and then that it is whole. */
  ghost predicate ToldInFull(w: World, events: seq<Event>, row: nat) {
    IsRow(w, row) && exists i ::
      && 0 <= i < |events| && events[i].Ends? && events[i].row == row && events[i].final
      && Covered(events[..i], row) == Upto(1, |KeptLines(ChunksOf(w, row))|)
  }

  /** So a reader that is there, resumed at any moment u, once the step is over and every log of it closed, is told in full, by one connection whose
      reads all succeed, of the dispatch it stood in and of every one after it: of all of them, on a first connection. */
  method LastConnection(caps: Caps, history: seq<World>, u: nat, t: nat, received: seq<Event>, settling: int) returns (all: seq<Event>, ok: bool)
    requires Chronicle(caps, history) && u < |history| && t < |history| && AllFollow(START, received) && AllTrue(history[u], received)
    requires history[t].over && AllClosed(history[t])
    ensures received <= all && AllFollow(START, all) && AllTrue(history[|history| - 1], all)
    ensures ok ==> var w, p := history[|history| - 1], LastId(START, received);
                   forall row: nat | p.row <= row && IsRow(w, row) :: ToldInFull(w, all, row)
  {
    hide AllTrue, AllFollow, LastId, Real, AllFinal, EndsFirst, EndTold, AllStored, Later, ToldInFull, AllClosed;
    StaysOver(caps, history, t);
    LastIdReal(history[u], START, received);
    ghost var p := LastId(START, received);
    var f := new Follower(caps, history, u, LastId(START, received));
    ok := ToTheEnd(f, t, settling);
    Connected(f);
    Resumed(caps, history[u], history[f.read], received, f.out, |f.out|);
    assert f.out[..|f.out|] == f.out;
    all := received + f.out;
    ghost var w := history[|history| - 1];
    AllTrueLater(caps, history[f.read], w, all);
    if ok {
      forall row: nat | p.row <= row && IsRow(w, row)
        ensures ToldInFull(w, all, row)
      {
        EndFound(p, f.out, f.at, f.gone, row);
        ToldThen(w, received, f.out, row);
      }
    }
  }

  lemma Connected(f: Follower)
    requires f.Valid()
    ensures f.read < |f.history| && AllFollow(f.from, f.out) && AllTrue(f.history[f.read], f.out) && EndsFirst(f.out)
    ensures LastId(f.from, f.out).row == f.at && (f.gone ==> EndTold(f.out, f.at))
  {}

  lemma EndFound(p: Position, out: seq<Event>, at: nat, gone: bool, row: nat)
    requires AllFollow(p, out) && EndsFirst(out) && LastId(p, out).row == at && (gone ==> EndTold(out, at))
    requires 1 <= row && p.row <= row <= at && gone
    ensures EndTold(out, row)
  {
    hide AllFollow, EndsFirst, LastId, EndTold;
    if row < at {
      EndedSince(p, out, row);
    }
  }

  lemma ToldThen(w: World, received: seq<Event>, out: seq<Event>, row: nat)
    requires AllFollow(START, received + out) && AllTrue(w, received + out) && AllFinal(out) && EndTold(out, row)
    ensures ToldInFull(w, received + out, row)
  {
    hide AllFollow, AllTrue, Covered, KeptLines;
    var all := received + out;
    var e :| e in out && e.Ends? && e.row == row;
    var j :| 0 <= j < |out| && out[j] == e;
    var i := |received| + j;
    assert all[i] == e;
    WholeWhenSaid(w, all, i);
  }

  lemma NothingReceived(history: seq<World>, w: World)
    ensures AllFollow(START, []) && AllTrue(w, []) && Real(w, START) && EndsFirst([]) && AllStored(history, [])
  {}

  /** Where a reader is told a log is whole, it had every line of it, and the log is closed. */
  lemma WholeWhenSaid(w: World, received: seq<Event>, i: nat)
    requires AllFollow(START, received) && AllTrue(w, received)
    requires i < |received| && received[i].Ends? && received[i].final
    ensures var row := received[i].row;
            && IsRow(w, row) && w.dispatches[row - 1].held.log.final != 0
            && Covered(received[..i], row) == Upto(1, |KeptLines(ChunksOf(w, row))|)
  {
    hide AllFollow, LastId, Covered, KeptLines;
    assert True(w, received[i]);
    FollowsAt(received, i);
    OnceEach(received[..i], received[i].row);
  }

  lemma {:induction false} FollowsAt(received: seq<Event>, i: nat)
    requires AllFollow(START, received) && i < |received|
    ensures AllFollow(START, received[..i]) && Follows(LastId(START, received[..i]), received[i])
    decreases |received|
  {
    hide LastId, Follows;
    var before := received[..|received| - 1];
    if i < |before| {
      FollowsAt(before, i);
      assert before[..i] == received[..i];
    }
  }
}
