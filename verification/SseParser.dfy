/** The incremental parser of server-sent events (sections 9.2.5 and 9.2.6 of the WHATWG HTML Living Standard). */
module SseParser {
  import opened Text

  /** The event being collected. */
  datatype Cur = Cur(event: string, data: seq<string>, id: Option<string>)

  datatype Event = Event(event: string, data: string, id: Option<string>)

  const INITIAL := Cur("message", [], None)

  predicate Break(c: char) { c == '\n' || c == '\r' }

  function BreakFrom(s: string, from: nat): (i: nat)
    requires from <= |s|
    ensures from <= i <= |s|
    ensures i < |s| ==> Break(s[i])
    ensures forall k | from <= k < i :: !Break(s[k])
    decreases |s| - from
  {
    if from == |s| || Break(s[from]) then from else BreakFrom(s, from + 1)
  }

  /** The length of the line break at `i`. */
  function Width(s: string, i: nat): nat
    requires i < |s|
  {
    if s[i] == '\r' && i + 1 < |s| && s[i + 1] == '\n' then 2 else 1
  }

  /** The buffer starts with a whole line: one whose break cannot be the first half of CR LF. */
  predicate HasLine(buf: string) {
    var i := BreakFrom(buf, 0);
    i < |buf| && !(buf[i] == '\r' && i + 1 == |buf|)
  }

  function Line(buf: string): string { buf[..BreakFrom(buf, 0)] }

  function AfterLine(buf: string): (r: string)
    requires HasLine(buf)
    ensures |r| < |buf|
  {
    var i := BreakFrom(buf, 0);
    buf[i + Width(buf, i)..]
  }

  // ---- one line --------------------------------------------------------------------------------------------------

  function FieldOf(line: string): string { line[..IndexOf(line, ':')] }

  function ValueOf(line: string): string {
    var c := IndexOf(line, ':');
    if c == |line| then ""
    else if c + 1 < |line| && line[c + 1] == ' ' then line[c + 2..]
    else line[c + 1..]
  }

  function OnField(cur: Cur, field: string, value: string): Cur {
    if field == "data" then cur.(data := cur.data + [value])
    else if field == "event" then cur.(event := value)
    else if field == "id" then cur.(id := Some(value))
    else cur
  }

  function OnLine(cur: Cur, line: string): (Cur, seq<Event>) {
    if line == [] then
      (Cur("message", [], cur.id), if cur.data != [] then [Event(cur.event, Join(cur.data, '\n'), cur.id)] else [])
    else if line[0] == ':' then (cur, [])
    else (OnField(cur, FieldOf(line), ValueOf(line)), [])
  }

  // ---- a buffer --------------------------------------------------------------------------------------------------

  /** The lines taken from a buffer, and what stays in it. */
  function Lines(buf: string): seq<string>
    decreases |buf|
  {
    if HasLine(buf) then [Line(buf)] + Lines(AfterLine(buf)) else []
  }

  function Rest(buf: string): string
    decreases |buf|
  {
    if HasLine(buf) then Rest(AfterLine(buf)) else buf
  }

  function CurAfter(cur: Cur, lines: seq<string>): Cur
    decreases |lines|
  {
    if lines == [] then cur else CurAfter(OnLine(cur, lines[0]).0, lines[1..])
  }

  function Events(cur: Cur, lines: seq<string>): seq<Event>
    decreases |lines|
  {
    if lines == [] then [] else OnLine(cur, lines[0]).1 + Events(OnLine(cur, lines[0]).0, lines[1..])
  }

  method Step(cur: Cur, line: string) returns (next: Cur, evs: seq<Event>)
    ensures (next, evs) == OnLine(cur, line)
  {
    if line == [] {
      evs := if cur.data != [] then [Event(cur.event, Join(cur.data, '\n'), cur.id)] else [];
      return Cur("message", [], cur.id), evs;
    }
    if line[0] == ':' { return cur, []; }
    var c := IndexOf(line, ':');
    var field := if c == |line| then line else line[..c];
    var value := if c == |line| then "" else line[c + 1..];
    if value != [] && value[0] == ' ' { value := value[1..]; }
    next, evs := cur, [];
    if field == "data" {
      next := cur.(data := cur.data + [value]);
    } else if field == "event" {
      next := cur.(event := value);
    } else if field == "id" {
      next := cur.(id := Some(value));
    }
  }

  class SSEParser {
    var buf: string
    var cur: Cur

    constructor ()
      ensures buf == "" && cur == INITIAL
    {
      buf, cur := "", INITIAL;
    }

    method Feed(chunk: string) returns (out: seq<Event>)
      modifies this
      ensures var lines := Lines(old(buf) + chunk);
        out == Events(old(cur), lines) && cur == CurAfter(old(cur), lines) && buf == Rest(old(buf) + chunk)
    {
      buf := buf + chunk;
      out := [];
      ghost var whole, start := buf, cur;
      var idx := BreakFrom(buf, 0);
      while idx < |buf| && !(buf[idx] == '\r' && idx + 1 == |buf|)
        invariant idx == BreakFrom(buf, 0)
        invariant Rest(buf) == Rest(whole)
        invariant CurAfter(cur, Lines(buf)) == CurAfter(start, Lines(whole))
        invariant out + Events(cur, Lines(buf)) == Events(start, Lines(whole))
        decreases |buf|
      {
        var line := buf[..idx];
        FirstLine(cur, buf, out);
        buf := buf[idx + Width(buf, idx)..];
        var next, evs := Step(cur, line);
        cur, out := next, out + evs;
        idx := BreakFrom(buf, 0);
      }
      assert Lines(buf) == [] && Events(cur, []) == [];
    }

  }

  /** Taking the first line of a buffer. */
  lemma FirstLine(cur: Cur, buf: string, out: seq<Event>)
    requires HasLine(buf)
    ensures var (next, evs) := OnLine(cur, Line(buf));
      && CurAfter(cur, Lines(buf)) == CurAfter(next, Lines(AfterLine(buf)))
      && out + Events(cur, Lines(buf)) == out + evs + Events(next, Lines(AfterLine(buf)))
      && Rest(buf) == Rest(AfterLine(buf))
  {
    var (next, evs) := OnLine(cur, Line(buf));
    var rest := Lines(AfterLine(buf));
    assert ([Line(buf)] + rest)[1..] == rest;
    assert out + (evs + Events(next, rest)) == out + evs + Events(next, rest);
  }

  lemma {:induction false} LinesAppend(cur: Cur, a: seq<string>, b: seq<string>)
    ensures CurAfter(cur, a + b) == CurAfter(CurAfter(cur, a), b)
    ensures Events(cur, a + b) == Events(cur, a) + Events(CurAfter(cur, a), b)
    decreases |a|
  {
    if a == [] {
      assert a + b == b;
    } else {
      var (next, evs) := OnLine(cur, a[0]);
      assert (a + b)[1..] == a[1..] + b;
      LinesAppend(next, a[1..], b);
      assert evs + (Events(next, a[1..]) + Events(CurAfter(next, a[1..]), b)) ==
             evs + Events(next, a[1..]) + Events(CurAfter(next, a[1..]), b);
    }
  }

  // ---- chunking --------------------------------------------------------------------------------------------------

  lemma {:induction false} BreakIs(s: string, from: nat, i: nat)
    requires from <= i < |s| && Break(s[i]) && forall k | from <= k < i :: !Break(s[k])
    ensures BreakFrom(s, from) == i
    decreases i - from
  {
    if from < i { BreakIs(s, from + 1, i); }
  }

  /** A whole line stays the first line whatever follows. */
  lemma LineStays(buf: string, more: string)
    requires HasLine(buf)
    ensures HasLine(buf + more) && Line(buf + more) == Line(buf) && AfterLine(buf + more) == AfterLine(buf) + more
  {
    var i := BreakFrom(buf, 0);
    BreakIs(buf + more, 0, i);
    assert (buf + more)[..i] == buf[..i];
    var j := i + Width(buf, i);
    assert (buf + more)[j..] == buf[j..] + more;
  }

  /** Two chunks give the lines of their concatenation, wherever the cut falls. */
  lemma {:induction false} CutAnywhere(buf: string, more: string)
    ensures Lines(buf + more) == Lines(buf) + Lines(Rest(buf) + more)
    ensures Rest(buf + more) == Rest(Rest(buf) + more)
    decreases |buf|
  {
    if HasLine(buf) {
      LineStays(buf, more);
      CutAnywhere(AfterLine(buf), more);
    } else {
      assert [] + Lines(buf + more) == Lines(buf + more);
    }
  }

  function Concat(chunks: seq<string>): string { if chunks == [] then "" else chunks[0] + Concat(chunks[1..]) }

  /** What a parser holding `buf` and `cur` gives for chunks fed one after the other. */
  function FeedAll(buf: string, cur: Cur, chunks: seq<string>): (seq<Event>, string, Cur)
    decreases |chunks|
  {
    if chunks == [] then ([], buf, cur)
    else
      var lines := Lines(buf + chunks[0]);
      var (evs, b, c) := FeedAll(Rest(buf + chunks[0]), CurAfter(cur, lines), chunks[1..]);
      (Events(cur, lines) + evs, b, c)
  }

  /** What is kept back holds no whole line. */
  lemma {:induction false} NothingLeft(buf: string)
    ensures !HasLine(Rest(buf))
    decreases |buf|
  {
    if HasLine(buf) { NothingLeft(AfterLine(buf)); }
  }

  /** One more chunk. */
  lemma OneMoreChunk(first: string, rest: string, cur: Cur)
    ensures var lines := Lines(first); var mid, more := CurAfter(cur, lines), Lines(Rest(first) + rest);
      && Events(cur, Lines(first + rest)) == Events(cur, lines) + Events(mid, more)
      && CurAfter(cur, Lines(first + rest)) == CurAfter(mid, more)
      && Rest(first + rest) == Rest(Rest(first) + rest)
  {
    CutAnywhere(first, rest);
    LinesAppend(cur, Lines(first), Lines(Rest(first) + rest));
  }

  /** One chunk, and then the others. */
  lemma FeedCons(buf: string, cur: Cur, chunk: string, tail: seq<string>)
    ensures var lines := Lines(buf + chunk); var fed := FeedAll(Rest(buf + chunk), CurAfter(cur, lines), tail);
      FeedAll(buf, cur, [chunk] + tail) == (Events(cur, lines) + fed.0, fed.1, fed.2)
    ensures buf + Concat([chunk] + tail) == (buf + chunk) + Concat(tail)
  {
    assert ([chunk] + tail)[1..] == tail;
  }

  /** The chunking does not matter: events, buffer and current event are those of the whole text fed at once. */
  lemma {:induction false} ChunkingIsInvisible(buf: string, cur: Cur, chunks: seq<string>)
    requires !HasLine(buf)
    ensures var whole := buf + Concat(chunks);
      FeedAll(buf, cur, chunks) == (Events(cur, Lines(whole)), Rest(whole), CurAfter(cur, Lines(whole)))
    decreases |chunks|
  {
    if chunks == [] {
      assert buf + "" == buf;
    } else {
      var first, tail := buf + chunks[0], chunks[1..];
      assert chunks == [chunks[0]] + tail;
      NothingLeft(first);
      ChunkingIsInvisible(Rest(first), CurAfter(cur, Lines(first)), tail);
      OneMoreChunk(first, Concat(tail), cur);
      FeedCons(buf, cur, chunks[0], tail);
    }
  }

  // ---- lines, character by character -----------------------------------------------------------------------------

  /** The reference: a CR or an LF ends the line, but an LF right after a CR belongs to it. */
  function Scan(text: string, acc: string, cr: bool): (seq<string>, string)
    decreases |text|
  {
    if text == [] then ([], acc)
    else if text[0] == '\n' && cr then Scan(text[1..], acc, false)
    else if Break(text[0]) then
      var (ls, last) := Scan(text[1..], "", text[0] == '\r');
      ([acc] + ls, last)
    else Scan(text[1..], acc + [text[0]], false)
  }

  lemma {:induction false} ScanLine(line: string, acc: string, text: string)
    requires forall c | c in line :: !Break(c)
    ensures Scan(line + text, acc, false) == Scan(text, acc + line, false)
    decreases |line|
  {
    if line == [] {
      assert line + text == text && acc + line == acc;
    } else {
      assert (line + text)[1..] == line[1..] + text;
      assert acc + [line[0]] + line[1..] == acc + line;
      ScanLine(line[1..], acc + [line[0]], text);
    }
  }

  /** The parser's lines are those of the reference, except that a line ended by a CR at the very end is still held. */
  predicate Scanned(text: string) {
    var (ls, last) := Scan(text, "", false);
    if text != [] && text[|text| - 1] == '\r'
    then ls != [] && ls[..|ls| - 1] == Lines(text) && Rest(text) == ls[|ls| - 1] + ['\r'] && last == ""
    else ls == Lines(text) && last == Rest(text)
  }

  lemma {:induction false} LinesAreScanned(text: string)
    ensures Scanned(text)
    decreases |text|
  {
    var i := BreakFrom(text, 0);
    var line := text[..i];
    assert text == line + text[i..] && "" + line == line;
    ScanLine(line, "", text[i..]);
    if HasLine(text) {
      ScanBreak(text, i);
      LinesAreScanned(AfterLine(text));
      OneMore(text, line, AfterLine(text));
    } else if i < |text| {
      assert text[i..] == ['\r'] && text[i..][1..] == [];
      assert Scan(text, "", false) == ([line] + [], "");
    }
  }

  lemma OneMore(text: string, line: string, rest: string)
    requires HasLine(text) && line == Line(text) && rest == AfterLine(text) && Scanned(rest)
    requires var (ls, last) := Scan(rest, "", false); Scan(text, "", false) == ([line] + ls, last)
    requires rest == [] ==> text[|text| - 1] == '\n'
    ensures Scanned(text)
  {
    var ls := Scan(rest, "", false).0;
    if rest != [] { assert rest[|rest| - 1] == text[|text| - 1]; }
    if ls != [] { assert ([line] + ls)[..|ls|] == [line] + ls[..|ls| - 1]; }
  }

  /** A CR that no LF follows might as well not have been. */
  lemma ScanAfterCr(text: string, acc: string)
    requires text != [] && text[0] != '\n'
    ensures Scan(text, acc, true) == Scan(text, acc, false)
  {
  }

  /** A line break at the start of `t` ends the line `acc`. */
  lemma ScanEnds(t: string, acc: string)
    requires t != [] && Break(t[0]) && (t[0] == '\r' ==> |t| > 1)
    ensures var (ls, last) := Scan(t[Width(t, 0)..], "", false); Scan(t, acc, false) == ([acc] + ls, last)
  {
    if t[0] == '\r' {
      var more := t[1..];
      assert Scan(t, acc, false) == ([acc] + Scan(more, "", true).0, Scan(more, "", true).1);
      if more[0] == '\n' { assert more[1..] == t[2..]; } else { ScanAfterCr(more, ""); }
    }
  }

  lemma ScanBreak(text: string, i: nat)
    requires HasLine(text) && i == BreakFrom(text, 0)
    ensures var (ls, last) := Scan(AfterLine(text), "", false);
      Scan(text[i..], text[..i], false) == ([text[..i]] + ls, last)
    ensures AfterLine(text) == [] ==> text[|text| - 1] == '\n'
  {
    var t := text[i..];
    assert Width(t, 0) == Width(text, i) && t[Width(t, 0)..] == AfterLine(text);
    ScanEnds(t, text[..i]);
  }
}
