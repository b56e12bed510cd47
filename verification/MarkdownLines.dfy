/** Which lines the patterns of the Markdown renderer recognise, and what they take from them. */
module MarkdownLines {
  import opened Text
  import opened DotenvSyntax
  import opened MarkdownSyntax
  import M = Markdown

  function Rep(c: char, n: nat): (s: string)
    ensures |s| == n && forall k | 0 <= k < n :: s[k] == c
  {
    seq(n, _ => c)
  }

  // ---- runs and white space --------------------------------------------------------------------------------------

  lemma {:induction false} RunIs(line: string, c: char, from: nat, n: nat)
    requires from + n <= |line| && (forall k | from <= k < from + n :: line[k] == c)
    requires from + n < |line| ==> line[from + n] != c
    ensures RunOf(line, c, from) == n
    decreases n
  {
    if n > 0 { RunIs(line, c, from + 1, n - 1); }
  }

  lemma {:induction false} SkipsTo(s: string, from: nat, i: nat)
    requires from <= i <= |s| && (forall k | from <= k < i :: WebSpace(s[k])) && (i < |s| ==> !WebSpace(s[i]))
    ensures SkipFrom(WebSpace, s, from) == i
    decreases i - from
  {
    if from < i { SkipsTo(s, from + 1, i); }
  }

  /** A line after `pad` spaces. */
  lemma Padded(pad: nat, rest: string)
    requires rest != [] && !WebSpace(rest[0])
    ensures var line := Rep(' ', pad) + rest; Indent(line) == pad && line[pad..] == rest && line[pad] == rest[0]
  {
    SkipsTo(Rep(' ', pad) + rest, 0, pad);
  }

  // ---- fences ----------------------------------------------------------------------------------------------------

  lemma {:induction false} LangIs(s: string, from: nat)
    requires from <= |s| && forall k | from <= k < |s| :: LangChar(s[k])
    ensures LangEnd(s, from) == |s|
    decreases |s| - from
  {
    if from < |s| { LangIs(s, from + 1); }
  }

  predicate FenceChar(c: char) { c == '`' || c == '~' }

  lemma FenceLang(pad: nat, mark: string, lang: string)
    requires mark != [] && FenceChar(mark[0]) && forall k | 0 <= k < |lang| :: LangChar(lang[k])
    ensures FenceOf(Parts(pad, mark, lang)) == if pad <= 3 && |mark| >= 3 then Some(FenceLine(mark, lang)) else None
  {
    SkipsTo(lang, 0, 0);
    LangIs(lang, 0);
    assert lang[..|lang|] == lang && lang[|lang|..] == [] && Blank([]);
  }

  /** A run of a character after some spaces. */
  lemma PartsRead(pad: nat, c: char, m: nat, rest: string)
    requires m >= 1 && !WebSpace(c) && (rest == [] || rest[0] != c)
    ensures PartsOf(Rep(' ', pad) + (Rep(c, m) + rest)) == Parts(pad, Rep(c, m), rest)
  {
    var mark := Rep(c, m);
    var line := Rep(' ', pad) + (mark + rest);
    Padded(pad, mark + rest);
    Sliced(pad, mark, rest);
    RunIs(line, c, pad, m);
  }

  /** A fence: at most three spaces, three fence characters or more, and a language. */
  lemma FenceReads(pad: nat, c: char, m: nat, lang: string)
    requires FenceChar(c) && m >= 1 && forall k | 0 <= k < |lang| :: LangChar(lang[k])
    ensures Fence(Rep(' ', pad) + (Rep(c, m) + lang)) ==
            if pad <= 3 && m >= 3 then Some(FenceLine(Rep(c, m), lang)) else None
  {
    PartsRead(pad, c, m, lang);
    FenceLang(pad, Rep(c, m), lang);
  }

  /** The parts of a line after `pad` spaces. */
  lemma Sliced(pad: nat, a: string, b: string)
    ensures var line := Rep(' ', pad) + (a + b);
      && line[pad..pad + |a|] == a && line[pad + |a|..] == b
      && (forall k | pad <= k < pad + |a| :: line[k] == a[k - pad])
      && (b != [] ==> line[pad + |a|] == b[0])
  {
  }

  /** The closing fence is a mark at least as long, with white space around it or not. */
  lemma ClosesReads(pad: nat, c: char, m: nat, n: nat)
    requires FenceChar(c) && m >= 1
    ensures Closes(Rep(' ', pad) + Rep(c, m), Rep(c, n)) <==> n <= m
  {
    var line, t := Rep(' ', pad) + Rep(c, m), Rep(c, m);
    Padded(pad, t);
    assert TrimStart(WebSpace, line) == t;
    TrimmedIsFixed(WebSpace, t);
    SkipsTo(t, 0, 0);
    if n <= m { assert Rep(c, n) == t[..n]; }
  }

  // ---- headings and rules ----------------------------------------------------------------------------------------

  lemma NoClosing(s: string, from: nat)
    requires from <= |s| && s != [] && !WebSpace(s[|s| - 1]) && s[|s| - 1] != '#'
    ensures ClosingHashes(s, from) ==> from == |s|
  {
    if from < |s| {
      var n := SkipFrom(WebSpace, s, from);
      var m := n + RunOf(s, '#', n);
      assert m < |s| && SkipFrom(WebSpace, s, m) < |s|;
    }
  }

  lemma HeadingEndIs(s: string)
    requires s != [] && !WebSpace(s[|s| - 1]) && s[|s| - 1] != '#'
    ensures HeadingEnd(s, 0) == |s|
  {
    NoClosing(s, HeadingEnd(s, 0));
  }

  lemma HeadingText(pad: nat, mark: string, rest: string, text: string)
    requires mark != [] && mark[0] == '#' && rest != [] && WebSpace(rest[0]) && TrimStart(WebSpace, rest) == text
    requires text != [] && !WebSpace(text[|text| - 1]) && text[|text| - 1] != '#' && OneLine(text)
    ensures HeadingOf(Parts(pad, mark, rest)) ==
            if pad <= 3 && |mark| <= 6 then Some(HeadingLine(|mark|, text)) else None
  {
    HeadingEndIs(text);
    assert text[..|text|] == text;
  }

  /** A heading: one to six hashes, white space, and a text. */
  lemma HeadingReads(pad: nat, m: nat, text: string)
    requires m >= 1 && text != [] && Trimmed(WebSpace, text) && text[|text| - 1] != '#' && OneLine(text)
    ensures Heading(Rep(' ', pad) + (Rep('#', m) + (" " + text))) ==
            if pad <= 3 && m <= 6 then Some(HeadingLine(m, text)) else None
  {
    PartsRead(pad, '#', m, " " + text);
    AfterSpace(" " + text, 0, text);
    HeadingText(pad, Rep('#', m), " " + text, text);
  }

  /** A space and a text. */
  lemma AfterSpace(line: string, k: nat, text: string)
    requires k <= |line| && line[k..] == " " + text && (text == [] || !WebSpace(text[0]))
    ensures TrimStart(WebSpace, line[k..]) == text
  {
    SkipsTo(" " + text, 0, 1);
    assert (" " + text)[1..] == text;
  }

  lemma {:induction false} CountRep(c: char, m: nat)
    ensures Count(Rep(c, m), c) == m
    decreases m
  {
    if m > 0 {
      assert Rep(c, m)[1..] == Rep(c, m - 1);
      CountRep(c, m - 1);
    }
  }

  /** A rule: three marks of a kind or more. */
  lemma RuleReads(pad: nat, c: char, m: nat)
    requires (c == '-' || c == '*' || c == '_') && m >= 1
    ensures Rule(Rep(' ', pad) + Rep(c, m)) <==> pad <= 3 && m >= 3
  {
    Padded(pad, Rep(c, m));
    CountRep(c, m);
  }

  // ---- quotes and items ------------------------------------------------------------------------------------------

  /** A quoted line: what follows the mark and one white space character. */
  lemma QuoteReads(pad: nat, text: string)
    requires OneLine(text)
    ensures Quote(Rep(' ', pad) + "> " + text) == if pad <= 3 then Some(text) else None
    ensures text == [] || !WebSpace(text[0]) ==>
      Quote(Rep(' ', pad) + ">" + text) == if pad <= 3 then Some(text) else None
  {
    var spaced, close := Rep(' ', pad) + "> " + text, Rep(' ', pad) + ">" + text;
    assert spaced == Rep(' ', pad) + ("> " + text) && close == Rep(' ', pad) + (">" + text);
    Padded(pad, "> " + text);
    Padded(pad, ">" + text);
    assert spaced[pad + 1] == ' ' && spaced[pad + 2..] == text && close[pad + 1..] == text;
  }

  predicate Bullet(marker: string) { marker == "-" || marker == "*" || marker == "+" }

  predicate Number(marker: string) {
    && 2 <= |marker| <= 10 && (marker[|marker| - 1] == '.' || marker[|marker| - 1] == ')')
    && forall k | 0 <= k < |marker| - 1 :: Digit(marker[k])
  }

  lemma {:induction false} DigitsIs(s: string, from: nat, n: nat)
    requires from <= n <= |s| && (forall k | from <= k < n :: Digit(s[k])) && (n < |s| ==> !Digit(s[n]))
    ensures DigitsEnd(s, from) == n
    decreases n - from
  {
    if from < n { DigitsIs(s, from + 1, n); }
  }

  lemma MarkerIs(line: string, pad: nat, marker: string)
    requires pad + |marker| <= |line| && line[pad..pad + |marker|] == marker && (Bullet(marker) || Number(marker))
    ensures MarkerEnd(line, pad) == pad + |marker| && Digit(line[pad]) == Number(marker)
  {
    assert forall k | 0 <= k < |marker| :: line[pad + k] == line[pad..pad + |marker|][k] == marker[k];
    if Number(marker) { DigitsIs(line, pad, pad + |marker| - 1); }
  }

  lemma ItemFrom(line: string, pad: nat, e: nat, ordered: bool, text: string)
    requires Indent(line) == pad < e < |line| && MarkerEnd(line, pad) == e && WebSpace(line[e])
    requires Digit(line[pad]) == ordered && TrimStart(WebSpace, line[e..]) == text && OneLine(text)
    ensures Item(line) == Some(ItemLine(pad, ordered, text))
  {
  }

  /** An item: a bullet, or a number of one to nine digits, white space and a text; it is as deep as it is indented. */
  lemma ItemReads(pad: nat, marker: string, text: string)
    requires (Bullet(marker) || Number(marker)) && OneLine(text) && (text == [] || !WebSpace(text[0]))
    ensures Item(Rep(' ', pad) + (marker + (" " + text))) == Some(ItemLine(pad, Number(marker), text))
  {
    var line := Rep(' ', pad) + (marker + (" " + text));
    var e := pad + |marker|;
    MarkerStarts(marker);
    Padded(pad, marker + (" " + text));
    Sliced(pad, marker, " " + text);
    MarkerIs(line, pad, marker);
    AfterSpace(line, e, text);
    ItemFrom(line, pad, e, Number(marker), text);
  }

  lemma MarkerStarts(marker: string)
    requires Bullet(marker) || Number(marker)
    ensures marker != [] && !WebSpace(marker[0])
  {
    if Number(marker) { assert Digit(marker[0]); }
  }

  // ---- the kind of a line ----------------------------------------------------------------------------------------

  /** Each pattern asks for other characters at the start, but a rule may read as an item. */
  lemma StartsApart(line: string)
    requires Indent(line) < |line|
    ensures var c := line[Indent(line)];
      && (Fence(line).Some? ==> FenceChar(c)) && (Heading(line).Some? ==> c == '#')
      && (Rule(line) ==> c == '-' || c == '*' || c == '_') && (Quote(line).Some? ==> c == '>')
      && (Item(line).Some? ==> c == '-' || c == '*' || c == '+' || Digit(c))
  {
    var n := Indent(line);
    var p := PartsOf(line);
    if p.mark != [] { assert p.mark[0] == line[n]; }
  }

  lemma BlankHasNoKind(line: string)
    requires Indent(line) == |line|
    ensures Fence(line).None? && Heading(line).None? && !Rule(line) && Quote(line).None? && Item(line).None?
  {
    assert PartsOf(line).mark == [];
  }

  /** The kind of a line is the pattern it matches; one that is a rule and an item is a rule. */
  lemma KindIs(line: string)
    ensures KindOf(line).FenceKind? <==> Fence(line).Some?
    ensures KindOf(line).HeadingKind? <==> Heading(line).Some?
    ensures KindOf(line).RuleKind? <==> Rule(line)
    ensures KindOf(line).QuoteKind? <==> Quote(line).Some?
    ensures KindOf(line).ItemKind? <==> Item(line).Some? && !Rule(line)
  {
    if Indent(line) == |line| { BlankHasNoKind(line); } else { StartsApart(line); }
  }

  // ---- table rows ------------------------------------------------------------------------------------------------

  /** A cell that is read as it is written. */
  predicate PlainCell(cell: string) { Trimmed(WebSpace, cell) && '|' !in cell && '\\' !in cell }

  /** The cells with a bar after each. */
  function Barred(cells: seq<string>): string
    decreases |cells|
  {
    if cells == [] then "" else (" " + cells[0] + " ") + ("|" + Barred(cells[1..]))
  }

  /** The pieces between the bars, with a space on either side. */
  function Spaced(cells: seq<string>): (r: seq<string>)
    ensures |r| == |cells| && forall k | 0 <= k < |r| :: r[k] == " " + cells[k] + " "
  {
    seq(|cells|, k requires 0 <= k < |cells| => " " + cells[k] + " ")
  }

  /** Without a backslash, the cells are the pieces between the bars. */
  lemma {:induction false} CellsAreSplit(s: string, from: nat)
    requires from <= |s| && '\\' !in s
    ensures Cells(s, from) == Split(s[from..], '|')
    decreases |s| - from
  {
    var i := BarFrom(s, from);
    if i == |s| {
      LastCell(s, from);
    } else {
      CellsAreSplit(s, i + 1);
      NextCell(s, from, i, Cells(s, i + 1));
    }
  }

  lemma LastCell(s: string, from: nat)
    requires from <= |s| && '\\' !in s && BarFrom(s, from) == |s|
    ensures Cells(s, from) == Split(s[from..], '|')
  {
    NoBarBefore(s, from);
    assert s[from..|s|] == s[from..];
    SplitNone(s[from..], '|');
  }

  lemma NextCell(s: string, from: nat, i: nat, rest: seq<string>)
    requires from <= |s| && '\\' !in s && BarFrom(s, from) == i < |s| && rest == Split(s[i + 1..], '|')
    requires rest == Cells(s, i + 1)
    ensures Cells(s, from) == Split(s[from..], '|')
  {
    SplitFrom(s, from, i, s[from..i], s[i + 1..]);
  }

  lemma SplitFrom(s: string, from: nat, i: nat, piece: string, more: string)
    requires from <= |s| && '\\' !in s && BarFrom(s, from) == i < |s| && piece == s[from..i] && more == s[i + 1..]
    ensures Split(s[from..], '|') == [piece] + Split(more, '|')
  {
    NoBarBefore(s, from);
    assert s[from..] == piece + ['|'] + more;
    SplitAt(piece, '|', more);
  }

  lemma NoBarBefore(s: string, from: nat)
    requires from <= |s| && '\\' !in s
    ensures '|' !in s[from..BarFrom(s, from)]
  {
    var i := BarFrom(s, from);
    forall k: nat | from <= k < i ensures s[k] != '|' { assert !IsBar(s, k); }
  }

  lemma BarredCons(cells: seq<string>)
    requires cells != []
    ensures Barred(cells) == (" " + cells[0] + " ") + ("|" + Barred(cells[1..]))
    ensures cells[1..] == [] <==> Barred(cells[1..]) == []
  {
  }

  lemma SpacedCons(cells: seq<string>)
    requires cells != []
    ensures Spaced(cells) == [" " + cells[0] + " "] + Spaced(cells[1..])
    ensures |cells| == 1 ==> Spaced(cells) == [" " + cells[0] + " "]
  {
  }

  lemma SplitPiece(piece: string, rest: string)
    requires '|' !in piece
    ensures Split(piece + ("|" + rest), '|') == [piece] + Split(rest, '|')
  {
    assert piece + ("|" + rest) == piece + ['|'] + rest;
    SplitAt(piece, '|', rest);
  }

  lemma {:induction false} SplitBarred(cells: seq<string>)
    requires cells != [] && forall c | c in cells :: PlainCell(c)
    ensures Split(Barred(cells), '|') == Spaced(cells) + [""]
    decreases |cells|
  {
    assert cells[0] in cells && forall c | c in cells[1..] :: c in cells;
    var piece := " " + cells[0] + " ";
    BarredCons(cells);
    SplitPiece(piece, Barred(cells[1..]));
    SpacedCons(cells);
    if cells[1..] == [] {
      SplitNone("", '|');
    } else {
      SplitBarred(cells[1..]);
      Consed(piece, Spaced(cells[1..]), [""]);
    }
  }

  lemma Consed(x: string, xs: seq<string>, ys: seq<string>)
    ensures [x] + (xs + ys) == [x] + xs + ys
  {
  }

  lemma SplitFront(u: string, pieces: seq<string>)
    requires Split(u + "|", '|') == pieces + [""]
    ensures Split(u, '|') == pieces
  {
    assert u + "|" == u + ['|'] + "";
    SplitAppend(u, "", '|');
    SplitNone("", '|');
    assert (Split(u, '|') + [""])[..|pieces|] == (pieces + [""])[..|pieces|];
  }

  lemma {:induction false} BarredIsPlain(cells: seq<string>)
    requires forall c | c in cells :: PlainCell(c)
    ensures '\\' !in Barred(cells)
    decreases |cells|
  {
    if cells != [] {
      assert cells[0] in cells && forall c | c in cells[1..] :: c in cells;
      BarredIsPlain(cells[1..]);
    }
  }

  lemma WithoutBar(cells: seq<string>) returns (u: string)
    requires cells != []
    ensures u + "|" == Barred(cells) && "|" + u + "|" == "|" + Barred(cells) && u != [] && u[|u| - 1] == ' '
  {
    var b := Barred(cells);
    BarredEnds(cells);
    u := b[..|b| - 1];
    assert u + "|" == b;
  }

  /** The row without the bars at its ends: its pieces, by either way of cutting. */
  lemma CutsAtBars(cells: seq<string>) returns (u: string)
    requires cells != [] && forall c | c in cells :: PlainCell(c)
    ensures "|" + u + "|" == "|" + Barred(cells) && u != [] && u[|u| - 1] == ' '
    ensures Split(u, '|') == Spaced(cells) && Cells(u, 0) == Spaced(cells)
  {
    u := WithoutBar(cells);
    SplitBarred(cells);
    SplitFront(u, Spaced(cells));
    BarredIsPlain(cells);
    assert u[0..] == u && forall c | c in u :: c in u + "|";
    CellsAreSplit(u, 0);
  }

  lemma {:induction false} NothingEscaped(s: string)
    requires '\\' !in s
    ensures Unescaped(s) == s
    decreases |s|
  {
    if |s| >= 2 { NothingEscaped(s[1..]); }
  }

  lemma TrimmedCell(cell: string)
    requires PlainCell(cell)
    ensures Trim(WebSpace, " " + cell + " ") == cell
  {
    var s := " " + cell + " ";
    if cell == [] {
      SkipsTo(s, 0, 2);
    } else {
      SkipsTo(s, 0, 1);
      assert s[1..] == cell + " ";
      BackIs(cell);
    }
  }

  lemma SpacesTrimmed(cell: string)
    requires PlainCell(cell)
    ensures Unescaped(Trim(WebSpace, " " + cell + " ")) == cell
  {
    NothingEscaped(cell);
    TrimmedCell(cell);
  }

  lemma BackIs(cell: string)
    requires cell != [] && !WebSpace(cell[|cell| - 1])
    ensures TrimEnd(WebSpace, cell + " ") == cell
  {
    var t := cell + " ";
    var k := SkipBack(WebSpace, t, |t|);
    assert k <= |t| - 1 by { assert WebSpace(t[|t| - 1]); }
    assert k >= |cell| by { assert t[|cell| - 1] == cell[|cell| - 1]; }
    assert t[..|cell|] == cell;
  }

  lemma {:induction false} BarredEnds(cells: seq<string>)
    requires cells != []
    ensures var b := Barred(cells); |b| >= 3 && b[|b| - 1] == '|' && b[|b| - 2] == ' ' && b[0] == ' '
    decreases |cells|
  {
    BarredCons(cells);
    if cells[1..] != [] { BarredEnds(cells[1..]); }
    PieceEnds(" " + cells[0] + " ", Barred(cells[1..]));
  }

  lemma PieceEnds(piece: string, more: string)
    requires |piece| >= 2 && piece[0] == ' ' && piece[|piece| - 1] == ' '
    requires more == [] || (|more| >= 3 && more[|more| - 1] == '|' && more[|more| - 2] == ' ')
    ensures var b := piece + ("|" + more); |b| >= 3 && b[|b| - 1] == '|' && b[|b| - 2] == ' ' && b[0] == ' '
  {
  }

  lemma BarsOff(u: string)
    requires u != [] && u[|u| - 1] == ' '
    ensures Between("|" + u + "|") == u && Trim(WebSpace, "|" + u + "|") == "|" + u + "|"
  {
    var line := "|" + u + "|";
    TrimmedIsFixed(WebSpace, line);
    assert line[1..] == u + "|" && (u + "|")[..|u|] == u;
  }

  lemma ReadSpaced(cells: seq<string>)
    requires forall c | c in cells :: PlainCell(c)
    ensures Read(Spaced(cells)) == cells
  {
    forall k | 0 <= k < |cells| ensures Read(Spaced(cells))[k] == cells[k] {
      assert cells[k] in cells;
      SpacesTrimmed(cells[k]);
    }
  }

  lemma RowFrom(line: string, u: string, pieces: seq<string>)
    requires Trim(WebSpace, line) == line && Between(line) == u && Cells(u, 0) == pieces
    ensures Row(line) == Read(pieces)
  {
  }

  /** A row between bars gives back its cells. */
  lemma RowReads(cells: seq<string>)
    requires cells != [] && forall c | c in cells :: PlainCell(c)
    ensures Row("|" + Barred(cells)) == cells
  {
    var u := CutsAtBars(cells);
    BarsOff(u);
    RowFrom("|" + u + "|", u, Spaced(cells));
    ReadSpaced(cells);
  }

  /** A row between bars is a separator exactly if every cell is one of dashes. */
  lemma SeparatorReads(cells: seq<string>)
    requires cells != [] && forall c | c in cells :: PlainCell(c)
    ensures Separator("|" + Barred(cells)) <==> forall c | c in cells :: Dashes(c)
  {
    var u := CutsAtBars(cells);
    BarsOff(u);
    Unbars(u);
    var pieces := Spaced(cells);
    forall k | 0 <= k < |cells| ensures Trim(WebSpace, pieces[k]) == cells[k] {
      assert cells[k] in cells;
      TrimmedCell(cells[k]);
    }
    SeparatorOf("|" + u + "|", u, pieces, cells);
  }

  lemma Unbars(u: string)
    ensures Unbarred("|" + u + "|") == u
  {
    var line := "|" + u + "|";
    assert line[1..] == u + "|" && (u + "|")[..|u|] == u;
  }

  lemma SeparatorOf(line: string, u: string, pieces: seq<string>, cells: seq<string>)
    requires Trim(WebSpace, line) == line && Unbarred(line) == u && Split(u, '|') == pieces && |pieces| == |cells|
    requires forall k | 0 <= k < |cells| :: Trim(WebSpace, pieces[k]) == cells[k]
    ensures Separator(line) <==> forall c | c in cells :: Dashes(c)
  {
    if forall c | c in cells :: Dashes(c) {
      forall p | p in pieces ensures Dashes(Trim(WebSpace, p)) {
        var k :| 0 <= k < |pieces| && pieces[k] == p;
        assert cells[k] in cells;
      }
    }
    if Separator(line) {
      forall c | c in cells ensures Dashes(c) {
        var k :| 0 <= k < |cells| && cells[k] == c;
        assert pieces[k] in pieces;
      }
    }
  }

  /** An escaped bar is one, and does not end a cell. */
  lemma EscapedBar(a: string, b: string)
    requires '\\' !in a && '\\' !in b && '|' !in a && '|' !in b
    ensures BarFrom(a + "\\|" + b, 0) == |a + "\\|" + b|
    ensures Unescaped(a + "\\|" + b) == a + "|" + b
  {
    var s := a + "\\|" + b;
    assert s[|a|] == '\\' && s[|a| + 1] == '|';
    EscapedPast(s, 0, |a| + 1);
    EscapedRead(a, b);
  }

  lemma {:induction false} EscapedPast(s: string, from: nat, bar: nat)
    requires from <= |s| && 0 < bar < |s| && s[bar - 1] == '\\'
    requires forall k | 0 <= k < |s| && k != bar :: s[k] != '|'
    ensures BarFrom(s, from) == |s|
    decreases |s| - from
  {
    if from < |s| { EscapedPast(s, from + 1, bar); }
  }

  lemma {:induction false} EscapedRead(a: string, b: string)
    requires '\\' !in a && '\\' !in b
    ensures Unescaped(a + "\\|" + b) == a + "|" + b
    decreases |a|
  {
    var s := a + "\\|" + b;
    if a == [] {
      assert s[2..] == b && s[0] == '\\' && s[1] == '|';
      NothingEscaped(b);
      assert a + "|" + b == ['|'] + b;
    } else {
      assert s[1..] == a[1..] + "\\|" + b && s[0] == a[0];
      EscapedRead(a[1..], b);
      assert a + "|" + b == [a[0]] + (a[1..] + "|" + b);
    }
  }

  /** The alignment that a cell of the separator asks for. */
  lemma AlignReads(n: nat)
    requires n >= 1
    ensures AlignOf(Rep('-', n)) == Left && AlignOf(":" + Rep('-', n)) == Left
    ensures AlignOf(Rep('-', n) + ":") == Right && AlignOf(":" + Rep('-', n) + ":") == Center
  {
    var s := ":" + Rep('-', n) + ":";
    assert s[1..|s| - 1] == Rep('-', n);
    var t := Rep('-', n) + ":";
    assert t[|t| - 2] == '-' && t[0] == '-';
  }

  /** A cell of the separator: two dashes or more, with colons or not. */
  lemma DashesReads(n: nat)
    requires n >= 1
    ensures Dashes(Rep('-', n)) <==> n >= 2
    ensures Dashes(":" + Rep('-', n)) <==> n >= 2
    ensures Dashes(Rep('-', n) + ":") <==> n >= 2
    ensures Dashes(":" + Rep('-', n) + ":") <==> n >= 2
  {
    var d := Rep('-', n);
    assert (":" + d)[1..] == d && (d + ":")[..n] == d && (":" + d + ":")[1..] == d + ":";
  }

  // ---- lines under an item ---------------------------------------------------------------------------------------

  lemma {:induction false} SkipsPast(s: string, from: nat, n: nat)
    requires from <= n <= |s| && forall k | from <= k < n :: WebSpace(s[k])
    ensures SkipFrom(WebSpace, s, from) >= n
    decreases n - from
  {
    if from < n { SkipsPast(s, from + 1, n); }
  }

  lemma Indented(n: nat, base: nat, line: string)
    requires n <= base + 2 && (n < base + 2 ==> line != [] && !WebSpace(line[0]))
    ensures var deep := Rep(' ', n) + line; deep[M.Cut(Patterns(), deep, base)..] == line
  {
    var deep := Rep(' ', n) + line;
    SkipsPast(deep, 0, n);
    if n < base + 2 { SkipsTo(deep, 0, n); }
    assert Patterns().indent(deep) == Indent(deep);
    assert deep[n..] == line;
  }

  /** Lines written two deeper than their item are read under it as they were, and lines less deep than that from
      where they start. */
  lemma UnderItem(lines: seq<string>, i: nat, j: nat, base: nat, inner: seq<string>, depth: seq<nat>)
    requires i <= j <= |lines| && |inner| == |depth| == j - i
    requires forall k | 0 <= k < |inner| :: lines[i + k] == Rep(' ', depth[k]) + inner[k]
    requires forall k | 0 <= k < |inner| :: depth[k] <= base + 2
    requires forall k | 0 <= k < |inner| && depth[k] < base + 2 :: inner[k] != [] && !WebSpace(inner[k][0])
    ensures M.Dedented(Patterns(), lines, i, j, base) == inner
  {
    var q := M.Dedented(Patterns(), lines, i, j, base);
    forall k | 0 <= k < |q| ensures q[k] == inner[k] {
      Indented(depth[k], base, inner[k]);
      assert q[k] == lines[i + k][M.Cut(Patterns(), lines[i + k], base)..];
    }
  }
}
