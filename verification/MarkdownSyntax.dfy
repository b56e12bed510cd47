/** The lines of the Markdown renderer: the patterns that classify a line, as predicates and the parts they capture,
    the cells of a table row, and the escaping of text. */
module MarkdownSyntax {
  import opened Text
  import opened DotenvSyntax

  predicate Blank(line: string) { Trim(WebSpace, line) == [] }

  /** The length of the leading white space. */
  function Indent(line: string): (n: nat)
    ensures n <= |line|
    ensures n < |line| ==> !WebSpace(line[n])
    ensures forall k | 0 <= k < n :: WebSpace(line[k])
  {
    SkipFrom(WebSpace, line, 0)
  }

  /** The length of the run of `c` at `from`. */
  function RunOf(line: string, c: char, from: nat): (n: nat)
    requires from <= |line|
    ensures from + n <= |line|
    ensures forall k | from <= k < from + n :: line[k] == c
    ensures from + n < |line| ==> line[from + n] != c
    decreases |line| - from
  {
    if from < |line| && line[from] == c then 1 + RunOf(line, c, from + 1) else 0
  }

  predicate WordChar(c: char) { 'a' <= c <= 'z' || 'A' <= c <= 'Z' || '0' <= c <= '9' || c == '_' }

  predicate LangChar(c: char) { WordChar(c) || c == '+' || c == '#' || c == '.' || c == '-' }

  function LangEnd(s: string, from: nat): (n: nat)
    requires from <= |s|
    ensures from <= n <= |s|
    ensures forall k | from <= k < n :: LangChar(s[k])
    ensures n < |s| ==> !LangChar(s[n])
    decreases |s| - from
  {
    if from < |s| && LangChar(s[from]) then LangEnd(s, from + 1) else from
  }

  // ---- the patterns ----------------------------------------------------------------------------------------------

  datatype FenceLine = FenceLine(mark: string, lang: string)

  /** A line that starts with a run of one character after white space: the white space, the run, and the rest. */
  datatype Parts = Parts(indent: nat, mark: string, rest: string)

  function PartsOf(line: string): (p: Parts)
    ensures p.indent + |p.mark| + |p.rest| == |line|
  {
    var n := Indent(line);
    var m := if n == |line| then 0 else RunOf(line, line[n], n);
    Parts(n, line[n..n + m], line[n + m..])
  }

  /** What follows the mark of a fence. */
  function FenceOf(p: Parts): Option<FenceLine> {
    var rest := TrimStart(WebSpace, p.rest);
    var k := LangEnd(rest, 0);
    if p.indent <= 3 && |p.mark| >= 3 && (p.mark[0] == '`' || p.mark[0] == '~') && Blank(rest[k..]) then
      Some(FenceLine(p.mark, rest[..k]))
    else None
  }

  function Fence(line: string): Option<FenceLine> { FenceOf(PartsOf(line)) }

  /** From `from` on: white space, then hashes, then white space. */
  predicate ClosingHashes(s: string, from: nat)
    requires from <= |s|
  {
    var n := SkipFrom(WebSpace, s, from);
    SkipFrom(WebSpace, s, n + RunOf(s, '#', n)) == |s|
  }

  /** The least start of closing hashes. */
  function HeadingEnd(s: string, from: nat): (n: nat)
    requires from <= |s|
    ensures from <= n <= |s|
    ensures ClosingHashes(s, n)
    ensures forall k | from <= k < n :: !ClosingHashes(s, k)
    decreases |s| - from
  {
    if from == |s| || ClosingHashes(s, from) then from else HeadingEnd(s, from + 1)
  }

  datatype HeadingLine = HeadingLine(level: nat, text: string)

  /** What follows the hashes of a heading. */
  function HeadingOf(p: Parts): (r: Option<HeadingLine>)
    ensures r.Some? ==> 1 <= r.value.level <= 6
  {
    if p.indent > 3 || !(1 <= |p.mark| <= 6) || p.mark[0] != '#' || p.rest == [] || !WebSpace(p.rest[0]) then None
    else
      var rest := TrimStart(WebSpace, p.rest);
      var text := rest[..HeadingEnd(rest, 0)];
      if OneLine(text) then Some(HeadingLine(|p.mark|, text)) else None
  }

  function Heading(line: string): (r: Option<HeadingLine>)
    ensures r.Some? ==> 1 <= r.value.level <= 6
  {
    HeadingOf(PartsOf(line))
  }

  function Count(s: string, c: char): nat { if s == [] then 0 else (if s[0] == c then 1 else 0) + Count(s[1..], c) }

  predicate Rule(line: string) {
    var n := Indent(line);
    && n <= 3 && n < |line| && (line[n] == '-' || line[n] == '*' || line[n] == '_')
    && (forall c | c in line[n..] :: c == line[n] || WebSpace(c))
    && Count(line[n..], line[n]) >= 3
  }

  /** What follows the mark of a quoted line. */
  function Quote(line: string): (r: Option<string>)
    ensures r.Some? ==> |r.value| < |line|
  {
    var n := Indent(line);
    if n > 3 || n == |line| || line[n] != '>' then None
    else
      var rest := if n + 1 < |line| && WebSpace(line[n + 1]) then line[n + 2..] else line[n + 1..];
      if OneLine(rest) then Some(rest) else None
  }

  datatype ItemLine = ItemLine(indent: nat, ordered: bool, text: string)

  predicate Digit(c: char) { '0' <= c <= '9' }

  function DigitsEnd(s: string, from: nat): (n: nat)
    requires from <= |s|
    ensures from <= n <= |s|
    ensures forall k | from <= k < n :: Digit(s[k])
    ensures n < |s| ==> !Digit(s[n])
    decreases |s| - from
  {
    if from < |s| && Digit(s[from]) then DigitsEnd(s, from + 1) else from
  }

  /** Where the marker at `n` ends, or `n` when there is none. */
  function MarkerEnd(line: string, n: nat): (e: nat)
    requires n <= |line|
    ensures n <= e <= |line|
  {
    var d := DigitsEnd(line, n);
    if n < |line| && (line[n] == '-' || line[n] == '*' || line[n] == '+') then n + 1
    else if 1 <= d - n <= 9 && d < |line| && (line[d] == '.' || line[d] == ')') then d + 1
    else n
  }

  function Item(line: string): (r: Option<ItemLine>)
    ensures r.Some? ==> r.value.indent == Indent(line) && |r.value.text| < |line|
  {
    var n := Indent(line);
    var e := MarkerEnd(line, n);
    if e == n || e == |line| || !WebSpace(line[e]) then None
    else
      var text := TrimStart(WebSpace, line[e..]);
      if OneLine(text) then Some(ItemLine(n, Digit(line[n]), text)) else None
  }

  /** The first pattern that a line matches, in the order in which they are tried. */
  datatype Kind =
    | FenceKind(mark: string, lang: string)
    | HeadingKind(level: nat, text: string)
    | RuleKind
    | QuoteKind
    | ItemKind(indent: nat, ordered: bool)
    | PlainKind

  function KindOf(line: string): (k: Kind)
    ensures k.QuoteKind? ==> Quote(line).Some?
    ensures k.ItemKind? ==>
      Item(line).Some? && Item(line).value.indent == k.indent && Item(line).value.ordered == k.ordered
  {
    if Fence(line).Some? then FenceKind(Fence(line).value.mark, Fence(line).value.lang)
    else if Heading(line).Some? then HeadingKind(Heading(line).value.level, Heading(line).value.text)
    else if Rule(line) then RuleKind
    else if Quote(line).Some? then QuoteKind
    else if Item(line).Some? then ItemKind(Item(line).value.indent, Item(line).value.ordered)
    else PlainKind
  }

  /** The closing line of a fence: only fence characters, and it starts with the opening mark. */
  predicate Closes(line: string, mark: string) {
    var t := Trim(WebSpace, line);
    mark <= t && forall c | c in t :: c == '`' || c == '~'
  }

  // ---- tables ----------------------------------------------------------------------------------------------------

  predicate OnlyDashes(s: string) { forall c | c in s :: c == '-' }

  /** One cell of a separator: dashes, at least two, with a colon at either end or not. */
  predicate Dashes(cell: string) {
    var s := if cell != [] && cell[0] == ':' then cell[1..] else cell;
    var t := if s != [] && s[|s| - 1] == ':' then s[..|s| - 1] else s;
    |t| >= 2 && OnlyDashes(t)
  }

  function Unbarred(s: string): string {
    var t := if s != [] && s[0] == '|' then s[1..] else s;
    if t != [] && t[|t| - 1] == '|' then t[..|t| - 1] else t
  }

  predicate Separator(line: string) {
    forall cell | cell in Split(Unbarred(Trim(WebSpace, line)), '|') :: Dashes(Trim(WebSpace, cell))
  }

  /** A bar that is not escaped. */
  predicate IsBar(s: string, k: nat)
    requires k < |s|
  {
    s[k] == '|' && (k == 0 || s[k - 1] != '\\')
  }

  /** The first bar at or after `from` that is not escaped. */
  function BarFrom(s: string, from: nat): (i: nat)
    requires from <= |s|
    ensures from <= i <= |s|
    ensures i < |s| ==> IsBar(s, i)
    ensures forall k | from <= k < i :: !IsBar(s, k)
    decreases |s| - from
  {
    if from == |s| || IsBar(s, from) then from else BarFrom(s, from + 1)
  }

  function Cells(s: string, from: nat): (r: seq<string>)
    requires from <= |s|
    ensures r != []
    decreases |s| - from
  {
    var i := BarFrom(s, from);
    if i == |s| then [s[from..]] else [s[from..i]] + Cells(s, i + 1)
  }

  /** Every escaped bar becomes a bar. */
  function Unescaped(s: string): string
    decreases |s|
  {
    if |s| < 2 then s
    else if s[0] == '\\' && s[1] == '|' then ['|'] + Unescaped(s[2..])
    else [s[0]] + Unescaped(s[1..])
  }

  /** A row without the bars at its ends. */
  function Between(s: string): string {
    var t := if s != [] && s[0] == '|' then s[1..] else s;
    if t != [] && t[|t| - 1] == '|' && !(|t| > 1 && t[|t| - 2] == '\\') then t[..|t| - 1] else t
  }

  function Read(cells: seq<string>): (r: seq<string>)
    ensures |r| == |cells| && forall k | 0 <= k < |r| :: r[k] == Unescaped(Trim(WebSpace, cells[k]))
  {
    seq(|cells|, k requires 0 <= k < |cells| => Unescaped(Trim(WebSpace, cells[k])))
  }

  function Row(line: string): (r: seq<string>)
    ensures r != []
  {
    Read(Cells(Between(Trim(WebSpace, line)), 0))
  }

  datatype Align = Left | Right | Center

  function AlignOf(cell: string): Align {
    if cell != [] && cell[|cell| - 1] == ':' && |cell| > 1 && cell[|cell| - 2] == '-' then
      if |cell| > 2 && cell[0] == ':' && OnlyDashes(cell[1..|cell| - 1]) then Center else Right
    else Left
  }

  function Aligns(line: string): seq<Align> {
    var cells := Row(line);
    seq(|cells|, k requires 0 <= k < |cells| => AlignOf(cells[k]))
  }

  // ---- the line grammar ------------------------------------------------------------------------------------------

  /** What the block parser asks of a line, as functions, so that blocks are a matter of these answers alone. */
  datatype Rules = Rules(
    kind: string -> Kind, blank: string -> bool, indent: string -> nat, closes: (string, string) -> bool,
    quote: string -> Option<string>, item: string -> Option<ItemLine>,
    separator: string -> bool, row: string -> seq<string>, aligns: string -> seq<Align>)

  /** The answers fit together: what is inside a line is shorter, kinds agree with the patterns, and an item is not
      blank. */
  ghost predicate Consistent(r: Rules) {
    && (forall l :: r.indent(l) <= |l|)
    && (forall l :: r.quote(l).Some? ==> |r.quote(l).value| < |l|)
    && (forall l :: r.kind(l).QuoteKind? ==> r.quote(l).Some?)
    && (forall l :: r.kind(l).ItemKind? ==>
          r.item(l).Some? && r.item(l).value.indent == r.kind(l).indent && r.item(l).value.ordered == r.kind(l).ordered)
    && (forall l :: r.item(l).Some? ==> !r.blank(l))
  }

  type Grammar = r: Rules | Consistent(r)
    ghost witness Rules(l => PlainKind, l => true, l => 0, (l, m) => true, l => None, l => None, l => true, l => [l],
                        l => [Left])

  lemma ItemNotBlank(line: string)
    requires Item(line).Some?
    ensures !Blank(line)
  {
    var n := Indent(line);
    assert TrimStart(WebSpace, line) == line[n..] && line[n..][0] == line[n];
  }

  function PatternRules(): Rules { Rules(KindOf, Blank, Indent, Closes, Quote, Item, Separator, Row, Aligns) }

  lemma PatternsConsistent()
    ensures Consistent(PatternRules())
  {
    forall l | Item(l).Some? ensures !Blank(l) { ItemNotBlank(l); }
  }

  /** The grammar of the renderer: the patterns above. */
  function Patterns(): Grammar {
    PatternsConsistent();
    PatternRules()
  }

  // ---- escaping --------------------------------------------------------------------------------------------------

  /** The replaces made one after the other. */
  function EscapeHtml(s: string): string {
    Replace(Replace(Replace(Replace(Replace(s, '&', "&amp;"), '<', "&lt;"), '>', "&gt;"), '"', "&quot;"), '\'', "&#39;")
  }

  function Entity(c: char): string {
    match c
    case '&' => "&amp;"
    case '<' => "&lt;"
    case '>' => "&gt;"
    case '"' => "&quot;"
    case '\'' => "&#39;"
    case _ => [c]
  }

  function Entities(s: string): string { if s == [] then [] else Entity(s[0]) + Entities(s[1..]) }

  lemma EscapeAppend(a: string, b: string)
    ensures EscapeHtml(a + b) == EscapeHtml(a) + EscapeHtml(b)
  {
    ReplaceAppend(a, b, '&', "&amp;");
    var a1, b1 := Replace(a, '&', "&amp;"), Replace(b, '&', "&amp;");
    ReplaceAppend(a1, b1, '<', "&lt;");
    var a2, b2 := Replace(a1, '<', "&lt;"), Replace(b1, '<', "&lt;");
    ReplaceAppend(a2, b2, '>', "&gt;");
    var a3, b3 := Replace(a2, '>', "&gt;"), Replace(b2, '>', "&gt;");
    ReplaceAppend(a3, b3, '"', "&quot;");
    ReplaceAppend(Replace(a3, '"', "&quot;"), Replace(b3, '"', "&quot;"), '\'', "&#39;");
  }

  /** The later replaces leave alone what an earlier one wrote. */
  lemma LaterLeaves(e: string)
    requires '"' !in e && '\'' !in e
    ensures Replace(Replace(e, '"', "&quot;"), '\'', "&#39;") == e
    ensures '>' !in e ==> Replace(e, '>', "&gt;") == e
    ensures '<' !in e ==> Replace(e, '<', "&lt;") == e
  {
    ReplaceNone(e, '"', "&quot;");
    ReplaceNone(e, '\'', "&#39;");
    if '>' !in e { ReplaceNone(e, '>', "&gt;"); }
    if '<' !in e { ReplaceNone(e, '<', "&lt;"); }
  }

  lemma EscapeOne(x: char)
    ensures EscapeHtml([x]) == Entity(x)
  {
    ReplaceOne(x, '&', "&amp;");
    if x == '&' { LaterLeaves("&amp;"); } else { EscapeAngle(x); }
  }

  lemma EscapeAngle(x: char)
    requires x != '&'
    ensures Replace(Replace(Replace(Replace([x], '<', "&lt;"), '>', "&gt;"), '"', "&quot;"), '\'', "&#39;") == Entity(x)
  {
    ReplaceOne(x, '<', "&lt;");
    if x == '<' {
      LaterLeaves("&lt;");
    } else {
      ReplaceOne(x, '>', "&gt;");
      if x == '>' { LaterLeaves("&gt;"); } else { EscapeQuote(x); }
    }
  }

  lemma EscapeQuote(x: char)
    ensures Replace(Replace([x], '"', "&quot;"), '\'', "&#39;") ==
      if x == '"' then "&quot;" else if x == '\'' then "&#39;" else [x]
  {
    ReplaceOne(x, '"', "&quot;");
    if x == '"' { ReplaceNone("&quot;", '\'', "&#39;"); } else { ReplaceOne(x, '\'', "&#39;"); }
  }

  /** The chain of replaces is one entity per character. */
  lemma {:induction false} EscapeIsPerCharacter(s: string)
    ensures EscapeHtml(s) == Entities(s)
  {
    if s != [] {
      EscapeIsPerCharacter(s[1..]);
      assert s == [s[0]] + s[1..];
      EscapeAppend([s[0]], s[1..]);
      EscapeOne(s[0]);
    }
  }

  /** What a browser shows for text with the five entities. */
  function Shown(s: string): string
    decreases |s|
  {
    if s == [] then []
    else if "&amp;" <= s then ['&'] + Shown(s[5..])
    else if "&lt;" <= s then ['<'] + Shown(s[4..])
    else if "&gt;" <= s then ['>'] + Shown(s[4..])
    else if "&quot;" <= s then ['"'] + Shown(s[6..])
    else if "&#39;" <= s then ['\''] + Shown(s[5..])
    else [s[0]] + Shown(s[1..])
  }

  lemma ShownEntity(c: char, rest: string)
    requires c == '&' || c == '<' || c == '>' || c == '"' || c == '\''
    ensures Shown(Entity(c) + rest) == [c] + Shown(rest)
  {
    var w := Entity(c);
    var s := w + rest;
    assert w <= s && s[|w|..] == rest && s[1] == w[1] && s[2] == w[2];
  }

  lemma ShownOne(x: char, rest: string)
    ensures Shown(Entity(x) + rest) == [x] + Shown(rest)
  {
    if Entity(x) == [x] {
      var s := [x] + rest;
      assert s[0] == x && s[1..] == rest;
    } else {
      ShownEntity(x, rest);
    }
  }

  predicate Safe(s: string) { '<' !in s && '>' !in s && '"' !in s && '\'' !in s }

  lemma {:induction false} EntitiesAreShown(s: string)
    ensures Shown(Entities(s)) == s
  {
    if s != [] {
      EntitiesAreShown(s[1..]);
      ShownOne(s[0], Entities(s[1..]));
    }
  }

  lemma {:induction false} EntitiesAreSafe(s: string)
    ensures Safe(Entities(s))
  {
    if s != [] {
      EntitiesAreSafe(s[1..]);
      BothSafe(Entity(s[0]), Entities(s[1..]));
    }
  }

  lemma BothSafe(a: string, b: string)
    ensures Safe(a) && Safe(b) ==> Safe(a + b)
  {
  }

  /** Escaped text is shown as it was and cannot open a tag, close one or end an attribute. */
  lemma EscapedIsShown(s: string)
    ensures Shown(EscapeHtml(s)) == s && Safe(EscapeHtml(s))
  {
    EscapeIsPerCharacter(s);
    EntitiesAreShown(s);
    EntitiesAreSafe(s);
  }
}
