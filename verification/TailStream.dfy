/** What the tail of a whole log stream is: the lines of its events, told without the bytes they came in. */
module TailStream {
  import opened Options
  import opened Tail

  /** What a stream sends: an event under its id, "" for none, or a comment. */
  datatype Sent = Event(id: string, kind: string, data: string) | Comment(text: string)

  predicate Written(e: Sent) {
    match e
    case Event(id, kind, data) => '\n' !in id && '\n' !in kind && '\n' !in data
    case Comment(text) => '\n' !in text
  }

  function LinesOf(e: Sent): seq<string> {
    match e
    case Event(id, kind, data) => (if id == "" then [] else ["id: " + id]) + ["event: " + kind, "data: " + data, ""]
    case Comment(text) => [": " + text, ""]
  }

  function AllLines(es: seq<Sent>): seq<string> {
    if es == [] then [] else AllLines(es[..|es| - 1]) + LinesOf(es[|es| - 1])
  }

  function Ended(lines: seq<string>): string {
    if lines == [] then [] else Ended(lines[..|lines| - 1]) + lines[|lines| - 1] + "\n"
  }

  /** The bytes of a stream. */
  function Bytes(es: seq<Sent>): string {
    Ended(AllLines(es))
  }

  /** What an event adds to a tail, where it adds a line. */
  function TextOf(a: Asked, e: Sent): Option<string> {
    if e.Comment? then None
    else if e.kind == "line" then a.textIn(e.data)
    else if e.kind == "gap" then Some(GAP)
    else None
  }

  function Texts(a: Asked, es: seq<Sent>): seq<string> {
    if es == [] then []
    else
      var before, text := Texts(a, es[..|es| - 1]), TextOf(a, es[|es| - 1]);
      if text.Some? then before + [text.value] else before
  }

  /** The key an event begins a dispatch of, where it begins one. */
  function Begins(a: Asked, e: Sent): Option<string> {
    if e.Event? && e.kind == "dispatch" then a.keyIn(e.data) else None
  }

  predicate Never(a: Asked, es: seq<Sent>) {
    forall e | e in es :: Begins(a, e) != Some(a.of)
  }

  predicate NoDispatch(a: Asked, es: seq<Sent>) {
    forall e | e in es :: Begins(a, e) == None
  }

  // ---- Bytes to lines ----

  predicate NoBreaks(lines: seq<string>) {
    forall line | line in lines :: '\n' !in line
  }

  lemma {:induction false} EndedLines(lines: seq<string>)
    requires NoBreaks(lines)
    ensures Lines(Ended(lines)) == lines && Rest(Ended(lines)) == []
  {
    hide Lines, Rest, LineEnd;
    if lines == [] {
      LinesFirst([]);
    } else {
      var before, line := lines[..|lines| - 1], lines[|lines| - 1];
      EndedLines(before);
      var b := line + "\n";
      assert Ended(lines) == Ended(before) + b && [] + b == b;
      LinesConcat(Ended(before), b);
      FirstLine(b, line);
      LinesFirst(b);
      assert b[..|line|] == line && b[|line| + 1..] == [];
      LinesFirst([]);
      assert lines == before + [line];
    }
  }

  lemma {:induction false} WrittenLines(es: seq<Sent>)
    requires forall e | e in es :: Written(e)
    ensures NoBreaks(AllLines(es))
  {
    if es != [] {
      WrittenLines(es[..|es| - 1]);
      OneEach(es[|es| - 1]);
    }
  }

  lemma OneEach(e: Sent)
    requires Written(e)
    ensures NoBreaks(LinesOf(e))
  {}

  // ---- Lines to what they keep ----

  /** What one event leaves. */
  function Took(a: Asked, s: State, e: Sent): State {
    if e.Comment? then s
    else
      var s := s.(event := e.kind);
      if e.kind == "dispatch" && a.of != "" then
        match Begins(a, e)
        case None => s
        case Some(key) => if key == a.of then s.(keeping := true, lines := []) else s.(keeping := false)
      else if (a.of == "" || s.keeping) && TextOf(a, e).Some? then s.(lines := s.lines + [TextOf(a, e).value])
      else s
  }

  lemma KindOf(text: string)
    ensures Kind("event: " + text) == EventLine(text) && Kind("data: " + text) == Data(text)
    ensures Kind("id: " + text) == Kind(": " + text) == Kind("") == Other
  {
    assert ("event: " + text)[7..] == text && ("data: " + text)[6..] == text;
    assert ("data: " + text)[0] == 'd' && ("id: " + text)[0] == 'i' && (": " + text)[0] == ':';
    assert "event: "[0] == 'e' && "data: "[0] == 'd';
  }

  lemma ReadOther(a: Asked, s: State, line: string)
    requires Kind(line) == Other
    ensures Read(a, s, line) == s
  {}

  lemma ReadPair(a: Asked, s: State, e: Sent)
    requires e.Event?
    ensures Read(a, Read(a, s, "event: " + e.kind), "data: " + e.data) == Took(a, s, e)
  {
    hide Kind;
    KindOf(e.kind);
    KindOf(e.data);
  }

  lemma ReadThree(a: Asked, s: State, x: string, y: string, z: string)
    ensures ReadAll(a, s, [x, y, z]) == Read(a, Read(a, Read(a, s, x), y), z) && ReadAll(a, s, [x, y]) == Read(a, Read(a, s, x), y)
    ensures ReadAll(a, s, [x]) == Read(a, s, x)
  {
    hide Read;
    assert [x][..0] == [];
    assert ReadAll(a, s, [x]) == Read(a, s, x);
    assert [x, y][..1] == [x];
    assert ReadAll(a, s, [x, y]) == Read(a, Read(a, s, x), y);
    assert [x, y, z][..2] == [x, y];
  }

  lemma ReadEvent(a: Asked, s: State, e: Sent)
    ensures ReadAll(a, s, LinesOf(e)) == Took(a, s, e)
  {
    hide Kind, Read, ReadAll, Took;
    KindOf("");
    match e
    case Comment(text) =>
      KindOf(text);
      ReadThree(a, s, ": " + text, "", "");
      ReadOther(a, s, ": " + text);
      ReadOther(a, s, "");
      assert Took(a, s, e) == s by { TookComment(a, s, text); }
    case Event(id, kind, data) =>
      var rest := ["event: " + kind, "data: " + data, ""];
      ReadPair(a, s, e);
      ReadThree(a, s, "event: " + kind, "data: " + data, "");
      ReadOther(a, Took(a, s, e), "");
      if id != "" {
        KindOf(id);
        ReadOther(a, s, "id: " + id);
        ReadOn(a, s, "id: " + id, rest);
      } else {
        assert LinesOf(e) == [] + rest == rest;
      }
  }

  lemma TookComment(a: Asked, s: State, text: string)
    ensures Took(a, s, Comment(text)) == s
  {}

  function TookAll(a: Asked, s: State, es: seq<Sent>): State {
    if es == [] then s else Took(a, TookAll(a, s, es[..|es| - 1]), es[|es| - 1])
  }

  lemma {:induction false} ReadStream(a: Asked, s: State, es: seq<Sent>)
    ensures ReadAll(a, s, AllLines(es)) == TookAll(a, s, es)
  {
    hide Read, Took;
    if es != [] {
      var before, last := es[..|es| - 1], es[|es| - 1];
      ReadStream(a, s, before);
      ReadEvent(a, TookAll(a, s, before), last);
      ReadAllConcat(a, s, AllLines(before), LinesOf(last));
    }
  }

  lemma {:induction false} TookConcat(a: Asked, s: State, x: seq<Sent>, y: seq<Sent>)
    ensures TookAll(a, s, x + y) == TookAll(a, TookAll(a, s, x), y)
    decreases |y|
  {
    hide Took;
    if y == [] {
      assert x + y == x;
    } else {
      TookConcat(a, s, x, y[..|y| - 1]);
      assert (x + y)[..|x + y| - 1] == x + y[..|y| - 1];
    }
  }

  /** Between two dispatches of a task asked for, every line is kept; with no task asked for, always. */
  lemma {:induction false} Collects(a: Asked, s: State, es: seq<Sent>)
    requires a.of == "" || (s.keeping && NoDispatch(a, es))
    ensures TookAll(a, s, es).lines == s.lines + Texts(a, es) && (a.of != "" ==> TookAll(a, s, es).keeping)
  {
    if es == [] {
      assert s.lines + [] == s.lines;
    } else {
      var before, last := es[..|es| - 1], es[|es| - 1];
      Collects(a, s, before);
      assert last in es;
    }
  }

  /** What is streamed of other tasks leaves what is kept as it is. */
  lemma {:induction false} Passes(a: Asked, s: State, es: seq<Sent>)
    requires a.of != "" && !s.keeping && Never(a, es)
    ensures TookAll(a, s, es).lines == s.lines && !TookAll(a, s, es).keeping
  {
    if es != [] {
      Passes(a, s, es[..|es| - 1]);
      assert es[|es| - 1] in es;
    }
  }

  const START := State([], false, [])

  /** What is kept of a stream, told from its events alone: every line where no task is asked for, and
      nothing where the key asked for is never dispatched. */
  lemma KeptOf(a: Asked, es: seq<Sent>)
    ensures a.of == "" ==> TookAll(a, START, es).lines == Texts(a, es)
    ensures a.of != "" && Never(a, es) ==> TookAll(a, START, es).lines == []
  {
    if a.of == "" {
      Collects(a, START, es);
    } else if Never(a, es) {
      Passes(a, START, es);
    }
  }

  /** And otherwise the lines between its last dispatch and the dispatch that follows that one. */
  lemma KeptLast(a: Asked, before: seq<Sent>, begun: Sent, during: seq<Sent>, after: seq<Sent>)
    requires a.of != "" && Begins(a, begun) == Some(a.of) && NoDispatch(a, during) && Never(a, after)
    requires after == [] || Begins(a, after[0]).Some?
    ensures TookAll(a, START, before + [begun] + during + after).lines == Texts(a, during)
  {
    hide Took, TookAll, Texts;
    var s := TookAll(a, START, before);
    TookConcat(a, START, before + [begun] + during, after);
    TookConcat(a, START, before + [begun], during);
    TookConcat(a, START, before, [begun]);
    TookOne(a, s, begun);
    Begun(a, s, begun);
    var d := Took(a, s, begun);
    Collects(a, d, during);
    assert [] + Texts(a, during) == Texts(a, during);
    LeavesBe(a, TookAll(a, d, during), after);
  }

  lemma TookOne(a: Asked, s: State, e: Sent)
    ensures TookAll(a, s, [e]) == Took(a, s, e)
  {
    assert [e][..0] == [];
  }

  lemma LeavesBe(a: Asked, s: State, after: seq<Sent>)
    requires a.of != "" && Never(a, after) && (after == [] || Begins(a, after[0]).Some?)
    ensures TookAll(a, s, after).lines == s.lines
  {
    hide Took;
    if after != [] {
      var first, rest := after[0], after[1..];
      assert after == [first] + rest && first in after;
      TookConcat(a, s, [first], rest);
      TookOne(a, s, first);
      Begun(a, s, first);
      Passes(a, Took(a, s, first), rest);
    }
  }

  lemma Begun(a: Asked, s: State, e: Sent)
    requires a.of != "" && Begins(a, e).Some?
    ensures var d := Took(a, s, e); d.keeping == (Begins(a, e).value == a.of) && d.lines == if d.keeping then [] else s.lines
  {}

  /** The tail of a stream written in any pieces, its lines none too long to hold: the last of what is kept. */
  method Tailed(asked: Asked, writes: seq<string>, ghost es: seq<Sent>) returns (tail: seq<string>)
    requires asked.most > 0
    ensures Fits(Concat(writes), asked.lineMost) && Concat(writes) == Bytes(es) && (forall e | e in es :: Written(e))
            ==> tail == LastLines(TookAll(asked, START, es).lines, asked.most)
  {
    hide Feed, LastLines, Fits, Took;
    var a := new TailAnswer(asked);
    for i := 0 to |writes|
      invariant a.Valid() && a.asked == asked
      invariant (a.partial, a.Has()) == FeedAll(asked, START, writes[..i])
    {
      a.Write(writes[i]);
      assert writes[..i + 1][..i] == writes[..i];
    }
    assert writes[..|writes|] == writes;
    tail := a.Lines();
    if Fits(Concat(writes), asked.lineMost) && Concat(writes) == Bytes(es) && forall e | e in es :: Written(e) {
      AnyWrites(asked, START, writes);
      WrittenLines(es);
      EndedLines(AllLines(es));
      ReadStream(asked, START, es);
    }
  }
}
