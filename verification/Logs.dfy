/** A task's log, taken chunk by chunk from the runner that ships it: the index kept in the database,
    and the objects kept in the store, which no transaction takes back. */
module Logs {
  import opened Options
  import opened LogCaps

  /** One chunk as it is shipped. */
  datatype Shipment = Shipment(number: nat, firstLine: nat, final: bool, lines: seq<Line>)

  /** What a digest of a shipment digests, and stands for: no two are alike. */
  datatype Shipped = Shipped(firstLine: nat, final: bool, lines: seq<Line>)

  /** An object's key: two shipments share one only if they agree on the number and on every line. */
  datatype Key = Key(number: nat, digest: Shipped)

  /** A row of the index. `shipped` and `shippedDigest` are of the shipment, `lines`, `bytes` and `digest` of the
      part of it kept, which the digest stands for, and `key` is None where nothing was. */
  datatype Chunk = Chunk(number: nat, firstLine: nat, shipped: nat, shippedDigest: Shipped,
                         lines: nat, bytes: nat, key: Option<Key>, digest: seq<Line>)

  /** Where the log stands. `final` is the chunk that closed it, 0 while none has. */
  datatype TaskLog = TaskLog(nextSeq: nat, shippedLines: nat, lines: nat, bytes: nat, truncated: bool, final: nat)

  /** The log's row, its chunks, the keys recorded before they are written, and the store. */
  datatype State = State(log: TaskLog, chunks: seq<Chunk>, recorded: set<Key>, objects: map<Key, seq<Line>>)

  const NEW: State := State(TaskLog(1, 0, 0, 0, false, 0), [], {}, map[])

  datatype Answer =
    | Stands(accepted: nat, nextSeq: nat, lines: nat, truncated: bool)
    | OtherLines | AfterLast | WrongLine | NotRecorded

  function DigestOf(ship: Shipment): Shipped {
    Shipped(ship.firstLine, ship.final, ship.lines)
  }

  function KeyOf(ship: Shipment): Key {
    Key(ship.number, DigestOf(ship))
  }

  function AnswerOf(log: TaskLog, accepted: nat): Answer {
    Stands(accepted, log.nextSeq, log.lines, log.truncated)
  }

  /** The log takes this chunk now: it is the next of an open log that is not cut short, and begins
      where the ones before it end. */
  predicate Takes(log: TaskLog, ship: Shipment) {
    && ship.number == log.nextSeq && log.final == 0 && !log.truncated
    && ship.firstLine == log.shippedLines + 1
  }

  function KeptOf(log: TaskLog, caps: Caps, ship: Shipment): seq<Line> {
    Capped(ship.lines, log.lines, log.bytes, caps).0
  }

  /** The key the chunk would be written at, where the log takes it and anything of it is kept. */
  function WouldWrite(log: TaskLog, caps: Caps, ship: Shipment): Option<Key> {
    if Takes(log, ship) && KeptOf(log, caps, ship) != [] then Some(KeyOf(ship)) else None
  }

  function ChunkOf(log: TaskLog, caps: Caps, ship: Shipment): Chunk {
    var kept := KeptOf(log, caps, ship);
    Chunk(ship.number, ship.firstLine, |ship.lines|, DigestOf(ship), |kept|, Bytes(kept),
          if kept != [] then Some(KeyOf(ship)) else None, kept)
  }

  function TakenOn(log: TaskLog, caps: Caps, ship: Shipment): TaskLog {
    var (kept, cut) := Capped(ship.lines, log.lines, log.bytes, caps);
    TaskLog(ship.number + 1, log.shippedLines + |ship.lines|, log.lines + |kept|, log.bytes + Bytes(kept), cut,
            if ship.final then ship.number else log.final)
  }

  /** One transaction, as it ends: one that records where the chunk would be written, one that writes
      and indexes it, and one that dies once the store has been written to. */
  datatype Move = Dry(ship: Shipment) | Write(ship: Shipment) | WriteDies(ship: Shipment)

  function Put(s: State, caps: Caps, ship: Shipment): State {
    match WouldWrite(s.log, caps, ship)
    case Some(key) => s.(objects := s.objects[key := KeptOf(s.log, caps, ship)])
    case None => s
  }

  predicate Unrecorded(s: State, caps: Caps, ship: Shipment) {
    var key := WouldWrite(s.log, caps, ship);
    key.Some? && key.value !in s.recorded
  }

  function Step(s: State, caps: Caps, m: Move): State {
    match m
    case Dry(ship) =>
      var key := WouldWrite(s.log, caps, ship);
      if key.Some? then s.(recorded := s.recorded + {key.value}) else s
    case WriteDies(ship) =>
      if Unrecorded(s, caps, ship) then s else Put(s, caps, ship)
    case Write(ship) =>
      if ship.number < s.log.nextSeq || s.log.final != 0 then s
      else if s.log.truncated then
        s.(log := s.log.(nextSeq := ship.number + 1, final := if ship.final then ship.number else s.log.final))
      else if !Takes(s.log, ship) || Unrecorded(s, caps, ship) then s
      else Put(s, caps, ship).(log := TakenOn(s.log, caps, ship), chunks := s.chunks + [ChunkOf(s.log, caps, ship)])
  }

  function Run(s: State, caps: Caps, moves: seq<Move>): State
    decreases |moves|
  {
    if moves == [] then s else Run(Step(s, caps, moves[0]), caps, moves[1..])
  }

  /** What a write answers. */
  function Says(s: State, caps: Caps, ship: Shipment): Answer {
    if ship.number < s.log.nextSeq then
      if exists c | c in s.chunks :: c.number == ship.number && c.shippedDigest != DigestOf(ship) then OtherLines
      else AnswerOf(s.log, 0)
    else if s.log.final != 0 then AfterLast
    else if s.log.truncated then AnswerOf(Step(s, caps, Write(ship)).log, 0)
    else if ship.number > s.log.nextSeq then AnswerOf(s.log, 0)
    else if ship.firstLine != s.log.shippedLines + 1 then WrongLine
    else if Unrecorded(s, caps, ship) then NotRecorded
    else AnswerOf(Step(s, caps, Write(ship)).log, |KeptOf(s.log, caps, ship)|)
  }

  /** The log as the API and the database keep it. */
  class ShippedLog {
    const caps: Caps
    var log: TaskLog
    var chunks: seq<Chunk>
    var recorded: set<Key>
    var objects: map<Key, seq<Line>>

    constructor (caps: Caps)
      ensures this.caps == caps && Held() == NEW
    {
      this.caps := caps;
      log, chunks, recorded, objects := NEW.log, [], {}, map[];
    }

    function Held(): State
      reads this
    {
      State(log, chunks, recorded, objects)
    }

    /** One transaction of a shipment, refining Step and Says. `dry` is the kind that only asks for the key; with
        `dies`, whatever came before the commit is undone except the change to `objects`. */
    method Take(ship: Shipment, dry: bool, dies: bool) returns (answer: Answer, key: Option<Key>)
      modifies this
      ensures dry ==> key == WouldWrite(old(log), caps, ship) && Held() == old(Held())
      ensures dry ==> (answer.AfterLast? <==> Says(old(Held()), caps, ship).AfterLast?) && (answer.WrongLine? <==> Says(old(Held()), caps, ship).WrongLine?)
      ensures !dry && dies ==> Held() == Step(old(Held()), caps, WriteDies(ship))
      ensures !dry && !dies ==> Held() == Step(old(Held()), caps, Write(ship)) && answer == Says(old(Held()), caps, ship)
    {
      var was := log;
      answer, key := AnswerOf(was, 0), None;
      if ship.number < was.nextSeq {
        if !dry && exists c | c in chunks :: c.number == ship.number && c.shippedDigest != DigestOf(ship) {
          answer := OtherLines;
        }
        return;
      }
      if was.final != 0 {
        return AfterLast, None;
      }
      if was.truncated {
        if dry || dies {
          return;
        }
        log := was.(nextSeq := ship.number + 1, final := if ship.final then ship.number else was.final);
        return AnswerOf(log, 0), None;
      }
      if ship.number > was.nextSeq {
        return;
      }
      if ship.firstLine != was.shippedLines + 1 {
        return WrongLine, None;
      }
      var kept, cut := Cap(ship.lines, was.lines, was.bytes, caps);
      if kept != [] {
        key := Some(KeyOf(ship));
        if dry {
          return;
        }
        if key.value !in recorded {
          return NotRecorded, None;
        }
        objects := objects[key.value := kept];
      }
      if dry || dies {
        return;
      }
      var c := Chunk(ship.number, ship.firstLine, |ship.lines|, DigestOf(ship), |kept|, Bytes(kept), key, kept);
      log := TaskLog(ship.number + 1, was.shippedLines + |ship.lines|, was.lines + c.lines, was.bytes + c.bytes, cut,
                     if ship.final then ship.number else was.final);
      chunks := chunks + [c];
      return AnswerOf(log, c.lines), None;
    }

    /** The transaction that records where a chunk would be written. */
    method Record(ship: Shipment) returns (refused: bool, answer: Answer)
      modifies this
      ensures Held() == Step(old(Held()), caps, Dry(ship))
      ensures refused <==> Says(old(Held()), caps, ship).AfterLast? || Says(old(Held()), caps, ship).WrongLine?
      ensures refused ==> answer == Says(old(Held()), caps, ship)
    {
      var key;
      answer, key := Take(ship, true, false);
      refused := answer.AfterLast? || answer.WrongLine?;
      if key.Some? {
        recorded := recorded + {key.value};
      }
    }

    /** Others' transactions, as they come between two of a shipment. */
    method Others(moves: seq<Move>)
      modifies this
      ensures Held() == Run(old(Held()), caps, moves)
    {
      RunNothing(Held(), caps);
      for i := 0 to |moves|
        invariant Held() == Run(old(Held()), caps, moves[..i])
      {
        RunOne(old(Held()), caps, moves, i);
        match moves[i] {
          case Dry(ship) =>
            var _, _ := Record(ship);
          case Write(ship) =>
            var _, _ := Take(ship, false, false);
          case WriteDies(ship) =>
            var _, _ := Take(ship, false, true);
        }
      }
      assert moves[..|moves|] == moves;
    }

    /** A shipment: it records where the chunk would be written, then writes it, and goes back where
        the key it came to write at was not recorded, three times at most, which is always enough,
        whatever others do in between. It answers what the log says where its last transaction found it. */
    method Ship(ship: Shipment, others: seq<seq<Move>>) returns (answer: Answer, ghost moves: seq<Move>)
      requires |others| == 6
      modifies this
      ensures Held() == Run(old(Held()), caps, moves)
      ensures answer != NotRecorded
      ensures moves != [] && answer == Says(Run(old(Held()), caps, moves[..|moves| - 1]), caps, ship)
      ensures answer.Stands? || answer.OtherLines? ==> moves[|moves| - 1] == Write(ship)
    {
      hide Run, Says, Step, WouldWrite, Settling, Settled;
      moves := [];
      RunNothing(Held(), caps);
      var attempt := 1;
      while true
        invariant 1 <= attempt <= 3 && Held() == Run(old(Held()), caps, moves)
        invariant attempt > 1 ==> Settling(Held(), caps, ship)
        decreases 3 - attempt
      {
        Others(others[2 * attempt - 2]);
        SettlingStays(Run(old(Held()), caps, moves), caps, ship, others[2 * attempt - 2]);
        RunConcat(old(Held()), caps, moves, others[2 * attempt - 2]);
        moves := moves + others[2 * attempt - 2];
        ghost var found := Held();
        var refused;
        refused, answer := Record(ship);
        RunOneMore(old(Held()), caps, moves, Dry(ship));
        moves := moves + [Dry(ship)];
        if refused {
          return;
        }
        ghost var recorded := Held();
        Others(others[2 * attempt - 1]);
        SettledStays(recorded, caps, ship, others[2 * attempt - 1]);
        RunConcat(old(Held()), caps, moves, others[2 * attempt - 1]);
        moves := moves + others[2 * attempt - 1];
        ghost var before := Held();
        var key;
        answer, key := Take(ship, false, false);
        RunOneMore(old(Held()), caps, moves, Write(ship));
        moves := moves + [Write(ship)];
        Attempted(found, recorded, before, caps, ship);
        if answer != NotRecorded || attempt == 3 {
          break;
        }
        attempt := attempt + 1;
      }
    }
  }

  /** A write that finds its key not recorded was the next chunk then and not before: the dry transaction
      after it records it, and that is never undone. */
  lemma Attempted(found: State, recorded: State, before: State, caps: Caps, ship: Shipment)
    requires recorded == Step(found, caps, Dry(ship)) && (Settled(recorded, ship) ==> Settled(before, ship))
    ensures Settling(found, caps, ship) ==> Says(before, caps, ship) != NotRecorded
    ensures Says(before, caps, ship) == NotRecorded ==> Settling(Step(before, caps, Write(ship)), caps, ship)
  {}

  /** The chunk has been taken, its key is recorded, or it is next to be taken. */
  predicate Settling(s: State, caps: Caps, ship: Shipment) {
    Settled(s, ship) || WouldWrite(s.log, caps, ship).Some?
  }

  predicate Settled(s: State, ship: Shipment) {
    ship.number < s.log.nextSeq || KeyOf(ship) in s.recorded
  }

  lemma {:induction false} SettlingStays(s: State, caps: Caps, ship: Shipment, moves: seq<Move>)
    ensures Settling(s, caps, ship) ==> Settling(Run(s, caps, moves), caps, ship)
    decreases |moves|
  {
    if moves != [] {
      SettlingStays(Step(s, caps, moves[0]), caps, ship, moves[1..]);
    }
  }

  lemma {:induction false} SettledStays(s: State, caps: Caps, ship: Shipment, moves: seq<Move>)
    ensures Settled(s, ship) ==> Settled(Run(s, caps, moves), ship)
    decreases |moves|
  {
    if moves != [] {
      SettledStays(Step(s, caps, moves[0]), caps, ship, moves[1..]);
    }
  }

  lemma RunNothing(s: State, caps: Caps)
    ensures Run(s, caps, []) == s
  {}

  lemma {:induction false} RunConcat(s: State, caps: Caps, a: seq<Move>, b: seq<Move>)
    ensures Run(s, caps, a + b) == Run(Run(s, caps, a), caps, b)
    decreases |a|
  {
    if a == [] {
      assert a + b == b;
    } else {
      RunConcat(Step(s, caps, a[0]), caps, a[1..], b);
      assert (a + b)[1..] == a[1..] + b;
    }
  }

  lemma RunOne(s: State, caps: Caps, moves: seq<Move>, i: nat)
    requires i < |moves|
    ensures Run(s, caps, moves[..i + 1]) == Step(Run(s, caps, moves[..i]), caps, moves[i])
  {
    assert moves[..i + 1] == moves[..i] + [moves[i]];
    RunConcat(s, caps, moves[..i], [moves[i]]);
    RunNothing(Step(Run(s, caps, moves[..i]), caps, moves[i]), caps);
  }

  lemma RunOneMore(s: State, caps: Caps, moves: seq<Move>, m: Move)
    ensures Run(s, caps, moves + [m]) == Step(Run(s, caps, moves), caps, m) && (moves + [m])[..|moves|] == moves
  {
    RunConcat(s, caps, moves, [m]);
    RunNothing(Step(Run(s, caps, moves), caps, m), caps);
  }
}
