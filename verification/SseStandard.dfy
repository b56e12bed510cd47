/** The events of the parser beside those of the standard (section 9.2.6 of the WHATWG HTML Living Standard). */
module SseStandard {
  import opened Text
  import opened SseParser

  /** The standard's data, event type and last event ID buffers. */
  datatype Buffers = Buffers(data: string, event: string, lastId: string)

  datatype Message = Message(event: string, data: string, lastId: string)

  const EMPTY := Buffers("", "", "")

  predicate HasNull(s: string) { '\0' in s }

  // ---- the standard ----------------------------------------------------------------------------------------------

  function Dispatch(b: Buffers): (Buffers, seq<Message>) {
    var data := if b.data != [] && b.data[|b.data| - 1] == '\n' then b.data[..|b.data| - 1] else b.data;
    (Buffers("", "", b.lastId),
     if b.data == [] then [] else [Message(if b.event == [] then "message" else b.event, data, b.lastId)])
  }

  /** The characters before the first colon, or all. */
  function NameOf(line: string): string {
    if line == [] || line[0] == ':' then [] else [line[0]] + NameOf(line[1..])
  }

  /** The characters after the first colon, if there is one. */
  function AfterColon(line: string): Option<string> {
    if line == [] then None else if line[0] == ':' then Some(line[1..]) else AfterColon(line[1..])
  }

  /** Without one U+0020 after the colon; empty without a colon. */
  function TextOf(line: string): string {
    match AfterColon(line)
    case None => ""
    case Some(v) => if v != [] && v[0] == ' ' then v[1..] else v
  }

  function Fill(b: Buffers, field: string, value: string): Buffers {
    if field == "event" then b.(event := value)
    else if field == "data" then b.(data := b.data + value + "\n")
    else if field == "id" && !HasNull(value) then b.(lastId := value)
    else b
  }

  function Process(b: Buffers, line: string): (Buffers, seq<Message>) {
    if line == [] then Dispatch(b)
    else if line[0] == ':' then (b, [])
    else (Fill(b, NameOf(line), TextOf(line)), [])
  }

  /** The events that the standard dispatches for lines. */
  function Messages(b: Buffers, lines: seq<string>): seq<Message>
    decreases |lines|
  {
    if lines == [] then [] else Process(b, lines[0]).1 + Messages(Process(b, lines[0]).0, lines[1..])
  }

  // ---- when the two agree ----------------------------------------------------------------------------------------

  function IdText(id: Option<string>): string { if id.Some? then id.value else "" }

  function AsMessages(evs: seq<Event>): (r: seq<Message>)
    ensures |r| == |evs|
    ensures forall i | 0 <= i < |r| :: r[i] == Message(evs[i].event, evs[i].data, IdText(evs[i].id))
  {
    seq(|evs|, i requires 0 <= i < |evs| => Message(evs[i].event, evs[i].data, IdText(evs[i].id)))
  }

  /** What the lines of a block have said so far: there are data, its last `event` is empty, and, in this block or an
      earlier one, the last `id` holds U+0000. */
  datatype Said = Said(data: bool, typeless: bool, nul: bool)

  function Next(s: Said, line: string): Said {
    if line == [] then Said(false, false, s.nul)
    else if line[0] == ':' then s
    else Heard(s, NameOf(line), TextOf(line))
  }

  function Heard(s: Said, field: string, value: string): Said {
    if field == "data" then s.(data := true)
    else if field == "event" then s.(typeless := value == [])
    else if field == "id" then s.(nul := HasNull(value))
    else s
  }

  predicate Sound(s: Said, line: string) { line == [] && s.data ==> !s.typeless && !s.nul }

  /** No block with data has an empty last `event`, or follows a last `id` that holds U+0000. */
  predicate Regular(s: Said, lines: seq<string>)
    decreases |lines|
  {
    lines == [] || (Sound(s, lines[0]) && Regular(Next(s, lines[0]), lines[1..]))
  }

  /** Each value with a line feed after it. */
  function Terminated(values: seq<string>): string { if values == [] then "" else Join(values, '\n') + "\n" }

  /** The parser's state, the standard's buffers, and what was said. */
  predicate Matches(cur: Cur, b: Buffers, s: Said) {
    && b.data == Terminated(cur.data) && s.data == (cur.data != [])
    && s.typeless == (cur.event == []) && (b.event == cur.event || (b.event == [] && cur.event == "message"))
    && s.nul == HasNull(IdText(cur.id)) && !HasNull(b.lastId) && (!s.nul ==> b.lastId == IdText(cur.id))
  }

  lemma TerminatedCons(first: string, rest: seq<string>)
    ensures Terminated([first] + rest) == first + "\n" + Terminated(rest)
  {
    assert ([first] + rest)[1..] == rest;
    if rest == [] {
      assert [first] + rest == [first] && first + "\n" + "" == first + "\n";
    } else {
      Joined(first + "\n", Join(rest, '\n'), "\n");
    }
  }

  lemma {:induction false} TerminatedSnoc(values: seq<string>, v: string)
    ensures Terminated(values + [v]) == Terminated(values) + v + "\n"
    decreases |values|
  {
    if values == [] {
      assert values + [v] == [v] && "" + v + "\n" == v + "\n";
    } else {
      var first, rest := values[0], values[1..];
      TerminatedSnoc(rest, v);
      TerminatedCons(first, rest);
      TerminatedCons(first, rest + [v]);
      assert values == [first] + rest && values + [v] == [first] + (rest + [v]);
      Joined(first + "\n", Terminated(rest), v);
      Joined(first + "\n", Terminated(rest) + v, "\n");
    }
  }

  lemma {:induction false} Named(line: string)
    ensures var c := IndexOf(line, ':');
      NameOf(line) == line[..c] && AfterColon(line) == if c == |line| then None else Some(line[c + 1..])
    decreases |line|
  {
    var c := IndexOf(line, ':');
    if line != [] && line[0] != ':' {
      Named(line[1..]);
      IndexOfIs(line[1..], ':', c - 1);
      assert line[..c] == [line[0]] + line[1..][..c - 1];
    } else {
      IndexOfIs(line, ':', 0);
    }
  }

  /** The parser reads a line as the standard does. */
  lemma SameReading(line: string)
    ensures NameOf(line) == FieldOf(line) && TextOf(line) == ValueOf(line)
  {
    Named(line);
  }

  lemma MatchesField(cur: Cur, b: Buffers, s: Said, line: string)
    requires Matches(cur, b, s) && line != []
    ensures Matches(OnLine(cur, line).0, Process(b, line).0, Next(s, line))
  {
    SameReading(line);
    if line[0] != ':' { MatchesFilled(cur, b, s, FieldOf(line), ValueOf(line)); }
  }

  lemma MatchesFilled(cur: Cur, b: Buffers, s: Said, field: string, value: string)
    requires Matches(cur, b, s)
    ensures Matches(OnField(cur, field, value), Fill(b, field, value), Heard(s, field, value))
  {
    TerminatedSnoc(cur.data, value);
  }

  /** At an empty line both dispatch, or neither does; and the same exactly if the block is sound. */
  lemma SameDispatch(cur: Cur, b: Buffers, s: Said)
    requires Matches(cur, b, s)
    ensures |Dispatch(b).1| == |OnLine(cur, []).1|
    ensures Dispatch(b).1 == AsMessages(OnLine(cur, []).1) <==> Sound(s, [])
  {
    var evs := OnLine(cur, []).1;
    if cur.data != [] {
      var data := Join(cur.data, '\n');
      assert b.data == data + "\n" && b.data[..|b.data| - 1] == data;
      var m := Dispatch(b).1[0];
      assert AsMessages(evs)[0] == Message(cur.event, data, IdText(cur.id)) && m.data == data;
      assert Dispatch(b).1 == [m] && AsMessages(evs) == [AsMessages(evs)[0]];
    }
  }

  lemma BothEqual<T>(a: seq<T>, more: seq<T>, b: seq<T>, others: seq<T>)
    requires |a| == |b|
    ensures a + more == b + others <==> a == b && more == others
  {
    if a + more == b + others {
      assert (a + more)[..|a|] == a && (b + others)[..|b|] == b;
      assert (a + more)[|a|..] == more && (b + others)[|b|..] == others;
    }
  }

  lemma AsMessagesBoth(a: seq<Event>, b: seq<Event>)
    ensures AsMessages(a + b) == AsMessages(a) + AsMessages(b)
  {
  }

  /** One line and the lines after it. */
  lemma OneLineMore(cur: Cur, b: Buffers, s: Said, line: string, rest: seq<string>)
    requires Matches(cur, b, s)
    ensures Matches(OnLine(cur, line).0, Process(b, line).0, Next(s, line))
    ensures |Process(b, line).1| == |OnLine(cur, line).1|
    ensures Process(b, line).1 == AsMessages(OnLine(cur, line).1) <==> Sound(s, line)
  {
    if line == [] { SameDispatch(cur, b, s); } else { MatchesField(cur, b, s, line); }
  }

  /** From states that match, the parser gives the standard's events exactly if the lines are regular. */
  lemma {:induction false} SameEvents(cur: Cur, b: Buffers, s: Said, lines: seq<string>)
    requires Matches(cur, b, s)
    ensures Messages(b, lines) == AsMessages(Events(cur, lines)) <==> Regular(s, lines)
    decreases |lines|
  {
    if lines != [] {
      var line, rest := lines[0], lines[1..];
      OneLineMore(cur, b, s, line, rest);
      var next, evs := OnLine(cur, line).0, OnLine(cur, line).1;
      SameEvents(next, Process(b, line).0, Next(s, line), rest);
      AsMessagesBoth(evs, Events(next, rest));
      BothEqual(Process(b, line).1, Messages(Process(b, line).0, rest),
                AsMessages(evs), AsMessages(Events(next, rest)));
    }
  }

  const NOTHING := Said(false, false, false)

  /** The parser gives the standard's events for a text exactly if no block with data has an empty last `event` or
      follows a last `id` that holds U+0000. */
  lemma EventsAreTheStandards(text: string)
    ensures Messages(EMPTY, Lines(text)) == AsMessages(Events(INITIAL, Lines(text))) <==> Regular(NOTHING, Lines(text))
  {
    SameEvents(INITIAL, EMPTY, NOTHING, Lines(text));
  }

  /** An `event` without a type, or an `id` with U+0000. */
  predicate Odd(line: string) {
    && line != [] && line[0] != ':'
    && ((NameOf(line) == "event" && TextOf(line) == []) || (NameOf(line) == "id" && HasNull(TextOf(line))))
  }

  /** Where there is no such line at all, the lines are regular. */
  lemma {:induction false} WithoutOddLines(s: Said, lines: seq<string>)
    requires !s.typeless && !s.nul && forall line | line in lines :: !Odd(line)
    ensures Regular(s, lines)
    decreases |lines|
  {
    if lines != [] {
      assert !Odd(lines[0]) && forall line | line in lines[1..] :: line in lines;
      WithoutOddLines(Next(s, lines[0]), lines[1..]);
    }
  }

  lemma FieldAt(field: string, value: string)
    requires ':' !in field && (value != [] ==> value[0] != ' ')
    ensures NameOf(field + ":" + value) == field && TextOf(field + ":" + value) == value
  {
    var line := field + ":" + value;
    Named(line);
    IndexOfIs(line, ':', |field|);
    assert line[..|field|] == field && line[|field| + 1..] == value;
  }

  // ---- a block of one line of data -------------------------------------------------------------------------------

  /** A line and an empty one. */
  lemma OneBlock(line: string)
    requires line != [] && forall c | c in line :: !Break(c)
    ensures Lines(line + "\n\n") == [line, ""]
  {
    var buf := line + "\n\n";
    BreakIs(buf, 0, |line|);
    assert buf[..|line|] == line && AfterLine(buf) == "\n";
    BreakIs("\n", 0, 0);
    assert Line("\n") == "" && AfterLine("\n") == "";
    assert BreakFrom("", 0) == 0 && Lines("") == [];
    assert [""] + [] == [""];
  }

  lemma EventsOfTwo(line: string, v: string)
    requires line != [] && line[0] != ':' && FieldOf(line) == "data" && ValueOf(line) == v
    ensures Events(INITIAL, [line, ""]) == [Event("message", v, None)]
  {
    assert [line, ""][1..] == [""] && [""][1..] == [];
    assert [] + [v] == [v];
  }

  lemma DataFields(v: string)
    ensures FieldOf("data: " + v) == "data" && ValueOf("data: " + v) == v
    ensures (v == [] || v[0] != ' ') ==> FieldOf("data:" + v) == "data" && ValueOf("data:" + v) == v
  {
    var spaced, close := "data: " + v, "data:" + v;
    assert spaced[4] == ':' && spaced[5] == ' ' && close[4] == ':';
    IndexOfIs(spaced, ':', 4);
    IndexOfIs(close, ':', 4);
    assert spaced[..4] == "data" && spaced[6..] == v && close[..4] == "data" && close[5..] == v;
  }

  /** Data are what follows the colon and one space, or the colon alone. */
  lemma DataIsRead(v: string)
    requires forall c | c in v :: !Break(c)
    ensures Events(INITIAL, Lines("data: " + v + "\n\n")) == [Event("message", v, None)]
    ensures (v == [] || v[0] != ' ') ==> Events(INITIAL, Lines("data:" + v + "\n\n")) == [Event("message", v, None)]
  {
    DataFields(v);
    assert forall c | c in "data: " :: !Break(c);
    assert forall c | c in "data:" :: !Break(c);
    OneBlock("data: " + v);
    OneBlock("data:" + v);
    assert ("data: " + v)[0] == 'd' && ("data:" + v)[0] == 'd';
    EventsOfTwo("data: " + v, v);
    if v == [] || v[0] != ' ' { EventsOfTwo("data:" + v, v); }
  }


  /** The failing cases: an empty type is kept, and an id with U+0000 is taken. */
  lemma OddLineShows(odd: string)
    requires Odd(odd)
    ensures var lines := ["data:x", odd, ""]; Messages(EMPTY, lines) != AsMessages(Events(INITIAL, lines))
  {
    var lines := ["data:x", odd, ""];
    FieldAt("data", "x");
    assert "data:x" == "data" + ":" + "x";
    var s := Next(NOTHING, lines[0]);
    assert s == Said(true, false, false);
    assert lines[1..] == [odd, ""] && lines[1..][1..] == [""];
    OddIsUnsound(s, odd);
    SameEvents(INITIAL, EMPTY, NOTHING, lines);
  }

  lemma OddIsUnsound(s: Said, odd: string)
    requires s.data && Odd(odd)
    ensures !Regular(Next(s, odd), [""])
  {
  }

  lemma SomeLinesAreOdd()
    ensures Odd("event:") && Odd("id:\0")
  {
    FieldAt("event", "");
    FieldAt("id", "\0");
    assert "event:" == "event" + ":" + "" && "id:\0" == "id" + ":" + "\0";
    assert "\0"[0] == '\0';
  }
}
