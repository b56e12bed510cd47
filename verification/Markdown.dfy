/** The block parser of the Markdown renderer. The text inside a block is opaque here: a token names the source it
    comes from. */
module Markdown {
  import opened Text
  import opened MarkdownSyntax

  // ---- blocks ----------------------------------------------------------------------------------------------------

  datatype Block =
    | Code(lang: string, body: seq<string>)
    | Title(level: nat, text: string)
    | Line
    | Quoted(inner: seq<Block>)
    | Table(head: seq<string>, aligns: seq<Align>, rows: seq<seq<string>>)
    | List(ordered: bool, items: seq<ListItem>)
    | Para(lines: seq<string>)

  datatype ListItem = ListItem(text: string, sub: seq<Block>)

  /** The line starts a block other than a paragraph. */
  predicate StartsBlock(g: Grammar, line: string) { !g.kind(line).PlainKind? }

  /** What keeps a block going from line to line. */
  datatype Test = InFence(mark: string) | InQuote | InTable | InItem(base: nat) | InPara

  predicate Holds(g: Grammar, t: Test, line: string) {
    match t
    case InFence(mark) => !g.closes(line, mark)
    case InQuote => g.quote(line).Some?
    case InTable => !g.blank(line) && '|' in line
    case InItem(base) => !g.blank(line) && g.indent(line) > base
    case InPara => !g.blank(line) && !StartsBlock(g, line)
  }

  /** Where the lines of which it holds, from line `i` on, end. */
  function RunFrom(g: Grammar, lines: seq<string>, i: nat, t: Test): (j: nat)
    requires i <= |lines|
    ensures i <= j <= |lines|
    ensures forall k | i <= k < j :: Holds(g, t, lines[k])
    ensures j < |lines| ==> !Holds(g, t, lines[j])
    decreases |lines| - i
  {
    if i < |lines| && Holds(g, t, lines[i]) then RunFrom(g, lines, i + 1, t) else i
  }

  /** The characters of the lines `i..j`, and one for each line. */
  function SizeIn(lines: seq<string>, i: nat, j: nat): nat
    requires j <= |lines|
    decreases j - i
  {
    if i >= j then 0 else |lines[i]| + 1 + SizeIn(lines, i + 1, j)
  }

  function Size(lines: seq<string>): nat { SizeIn(lines, 0, |lines|) }

  lemma {:induction false} SizeOfPart(lines: seq<string>, i: nat, j: nat)
    requires i <= j <= |lines|
    ensures SizeIn(lines, i, j) <= SizeIn(lines, i, |lines|) <= Size(lines)
    decreases |lines| - i, i
  {
    SizeGrows(lines, i, j);
    SizeTail(lines, 0, i);
  }

  lemma {:induction false} SizeGrows(lines: seq<string>, i: nat, j: nat)
    requires i <= j <= |lines|
    ensures SizeIn(lines, i, j) <= SizeIn(lines, i, |lines|)
    decreases j - i
  {
    if i < j { SizeGrows(lines, i + 1, j); }
  }

  lemma {:induction false} SizeTail(lines: seq<string>, k: nat, i: nat)
    requires k <= i <= |lines|
    ensures SizeIn(lines, i, |lines|) <= SizeIn(lines, k, |lines|)
    decreases i - k
  {
    if k < i { SizeTail(lines, k + 1, i); }
  }

  /** Lines made shorter, one by one, are smaller. */
  lemma {:induction false} Shrinks(q: seq<string>, lines: seq<string>, i: nat, k: nat)
    requires k <= |q| && i + |q| <= |lines| && forall n | 0 <= n < |q| :: |q[n]| < |lines[i + n]|
    ensures SizeIn(q, k, |q|) + (|q| - k) <= SizeIn(lines, i + k, i + |q|)
    decreases |q| - k
  {
    if k < |q| { Shrinks(q, lines, i, k + 1); }
  }

  /** What is inside the quoted lines `i..j`. */
  function Inner(g: Grammar, lines: seq<string>, i: nat, j: nat): (q: seq<string>)
    requires i <= j <= |lines| && forall k | i <= k < j :: g.quote(lines[k]).Some?
    ensures |q| == j - i && forall k | 0 <= k < |q| :: Some(q[k]) == g.quote(lines[i + k])
    decreases j - i
  {
    if i == j then [] else Inner(g, lines, i, j - 1) + [g.quote(lines[j - 1]).value]
  }

  lemma InnerShrinks(g: Grammar, lines: seq<string>, i: nat, j: nat)
    requires i < j <= |lines| && forall k | i <= k < j :: g.quote(lines[k]).Some?
    ensures Size(Inner(g, lines, i, j)) < Size(lines)
  {
    var q := Inner(g, lines, i, j);
    assert forall n | 0 <= n < |q| :: |q[n]| < |lines[i + n]|;
    Shrinks(q, lines, i, 0);
    SizeOfPart(lines, i, j);
  }

  function Cut(g: Grammar, line: string, base: nat): (n: nat)
    ensures n <= g.indent(line) && (g.indent(line) > base ==> n > 0)
  {
    if base + 2 <= g.indent(line) then base + 2 else g.indent(line)
  }

  /** The lines `i..j` under an item, without the item's indentation and two more, as far as they have it. */
  function Dedented(g: Grammar, lines: seq<string>, i: nat, j: nat, base: nat): (q: seq<string>)
    requires i <= j <= |lines|
    ensures |q| == j - i && forall k | 0 <= k < |q| :: q[k] == lines[i + k][Cut(g, lines[i + k], base)..]
    decreases j - i
  {
    if i == j then [] else Dedented(g, lines, i, j - 1, base) + [lines[j - 1][Cut(g, lines[j - 1], base)..]]
  }

  lemma DedentedShrinks(g: Grammar, lines: seq<string>, i: nat, j: nat, base: nat)
    requires 0 < i <= j <= |lines| && forall k | i <= k < j :: g.indent(lines[k]) > base
    ensures Size(Dedented(g, lines, i, j, base)) < Size(lines)
  {
    var q := Dedented(g, lines, i, j, base);
    forall n | 0 <= n < |q| ensures |q[n]| < |lines[i + n]| { assert g.indent(lines[i + n]) > base; }
    Shrinks(q, lines, i, 0);
    SizeOfPart(lines, i - 1, j);
  }

  predicate SameItem(g: Grammar, line: string, base: nat, ordered: bool) {
    var im := g.item(line);
    im.Some? && im.value.indent == base && im.value.ordered == ordered
  }

  predicate HasTable(g: Grammar, lines: seq<string>, i: nat)
    requires i < |lines|
  {
    i + 1 < |lines| && '|' in lines[i] && g.separator(lines[i + 1]) && '-' in lines[i + 1]
  }

  /** Where the next item starts: after a blank line between two items of the same indentation, if there is one. */
  function PastGap(g: Grammar, lines: seq<string>, i: nat, base: nat): (j: nat)
    requires i <= |lines|
    ensures i <= j <= |lines|
  {
    if i + 1 < |lines| && g.blank(lines[i]) && g.item(lines[i + 1]).Some? && g.item(lines[i + 1]).value.indent == base
    then i + 1 else i
  }

  /** The items of a list from line `i` on, and where they end. */
  function ItemsFrom(g: Grammar, lines: seq<string>, i: nat, base: nat, ordered: bool): (r: (seq<ListItem>, nat))
    requires i <= |lines|
    ensures i <= r.1 <= |lines|
    ensures i < |lines| && SameItem(g, lines[i], base, ordered) ==> i < r.1
    decreases Size(lines), |lines| - i, 0
  {
    if i == |lines| || !SameItem(g, lines[i], base, ordered) then ([], i)
    else
      var k := RunFrom(g, lines, i + 1, InItem(base));
      DedentedShrinks(g, lines, i + 1, k, base);
      var sub := Parse(g, Dedented(g, lines, i + 1, k, base), 0);
      var (more, j) := ItemsFrom(g, lines, PastGap(g, lines, k, base), base, ordered);
      ([ListItem(g.item(lines[i]).value.text, sub)] + more, j)
  }

  function CodeAt(g: Grammar, lines: seq<string>, i: nat, lang: string, mark: string): (r: (Block, nat))
    requires i < |lines|
    ensures i < r.1 <= |lines|
  {
    var k := RunFrom(g, lines, i + 1, InFence(mark));
    (Code(lang, lines[i + 1..k]), if k < |lines| then k + 1 else k)
  }

  function TableAt(g: Grammar, lines: seq<string>, i: nat): (r: (Block, nat))
    requires i < |lines| && HasTable(g, lines, i)
    ensures i < r.1 <= |lines|
  {
    var k := RunFrom(g, lines, i + 2, InTable);
    (Table(g.row(lines[i]), g.aligns(lines[i + 1]), Rows(g, lines, i + 2, k)), k)
  }

  function ParaAt(g: Grammar, lines: seq<string>, i: nat): (r: (Block, nat))
    requires i < |lines|
    ensures i < r.1 <= |lines|
  {
    var k := RunFrom(g, lines, i + 1, InPara);
    (Para(lines[i..k]), k)
  }

  /** The block that starts at line `i`, and where it ends. */
  function BlockAt(g: Grammar, lines: seq<string>, i: nat): (r: (Block, nat))
    requires i < |lines|
    ensures i < r.1 <= |lines|
    decreases Size(lines), |lines| - i, 1
  {
    match g.kind(lines[i])
    case FenceKind(mark, lang) => CodeAt(g, lines, i, lang, mark)
    case HeadingKind(level, text) => (Title(level, text), i + 1)
    case RuleKind => (Line, i + 1)
    case QuoteKind =>
      var k := RunFrom(g, lines, i, InQuote);
      InnerShrinks(g, lines, i, k);
      (Quoted(Parse(g, Inner(g, lines, i, k), 0)), k)
    case ItemKind(base, ordered) =>
      if HasTable(g, lines, i) then TableAt(g, lines, i)
      else
        var (items, j) := ItemsFrom(g, lines, i, base, ordered);
        (List(ordered, items), j)
    case PlainKind => if HasTable(g, lines, i) then TableAt(g, lines, i) else ParaAt(g, lines, i)
  }

  /** The rows of the lines `i..j`. */
  function Rows(g: Grammar, lines: seq<string>, i: nat, j: nat): (r: seq<seq<string>>)
    requires i <= j <= |lines|
    ensures |r| == j - i && forall k | 0 <= k < |r| :: r[k] == g.row(lines[i + k])
    decreases j - i
  {
    if i == j then [] else Rows(g, lines, i, j - 1) + [g.row(lines[j - 1])]
  }

  /** The blocks from line `i` on. */
  function Parse(g: Grammar, lines: seq<string>, i: nat): seq<Block>
    requires i <= |lines|
    decreases Size(lines), |lines| - i, 2
  {
    if i == |lines| then []
    else if g.blank(lines[i]) then Parse(g, lines, i + 1)
    else
      var (b, j) := BlockAt(g, lines, i);
      [b] + Parse(g, lines, j)
  }

  // ---- tokens ----------------------------------------------------------------------------------------------------

  datatype Tag =
    | CodeBox | CodeHead | Label | CopyButton | Pre | CodeText | H(level: nat) | BlockQuote | TableWrap | TableTag
    | Thead | Tbody | Tr | Th | Td | Ol | Ul | Li | P

  /** Opening and closing tags, the two that are never closed, and text: escaped, or the opaque result for its
      source. */
  datatype Tok =
    | Open(tag: Tag)
    | OpenCell(tag: Tag, align: Align)
    | Close(tag: Tag)
    | Hr
    | Br
    | Escaped(text: string)
    | CopyLabel
    | Inline(source: string)

  function Wrap(tag: Tag, inside: seq<Tok>): seq<Tok> { [Open(tag)] + inside + [Close(tag)] }

  /** The lines with a newline between them. */
  function Lines(body: seq<string>): string { Join(body, '\n') }

  function CodeToks(lang: string, body: seq<string>): seq<Tok> {
    Wrap(CodeBox,
         Wrap(CodeHead, Wrap(Label, [Escaped(if lang == [] then "text" else lang)]) + Wrap(CopyButton, [CopyLabel])) +
         Wrap(Pre, Wrap(CodeText, [Escaped(Lines(body))])))
  }

  /** The cells of a row, one for each cell of the head: missing cells are empty, more are left out. */
  function RowToks(tag: Tag, cells: seq<string>, width: nat, aligns: seq<Align>): seq<Tok> {
    if width == 0 then []
    else
      var k := width - 1;
      var cell := if k < |cells| then cells[k] else "";
      var align := if k < |aligns| then aligns[k] else Left;
      RowToks(tag, cells, k, aligns) + [OpenCell(tag, align), Inline(cell), Close(tag)]
  }

  function RowsToks(rows: seq<seq<string>>, width: nat, aligns: seq<Align>): seq<Tok>
    decreases |rows|
  {
    if rows == [] then [] else Wrap(Tr, RowToks(Td, rows[0], width, aligns)) + RowsToks(rows[1..], width, aligns)
  }

  function TableToks(head: seq<string>, aligns: seq<Align>, rows: seq<seq<string>>): seq<Tok> {
    Wrap(TableWrap,
         Wrap(TableTag, Wrap(Thead, Wrap(Tr, RowToks(Th, head, |head|, aligns))) +
                        Wrap(Tbody, RowsToks(rows, |head|, aligns))))
  }

  function ParaToks(lines: seq<string>): seq<Tok> {
    if lines == [] then []
    else if |lines| == 1 then [Inline(lines[0])]
    else [Inline(lines[0]), Br] + ParaToks(lines[1..])
  }

  function Render(b: Block): seq<Tok>
    decreases b, 0
  {
    match b
    case Code(lang, body) => CodeToks(lang, body)
    case Title(level, text) => Wrap(H(level + 2), [Inline(text)])
    case Line => [Hr]
    case Quoted(inner) => Wrap(BlockQuote, RenderAll(inner))
    case Table(head, aligns, rows) => TableToks(head, aligns, rows)
    case List(ordered, items) => Wrap(if ordered then Ol else Ul, RenderItems(items))
    case Para(lines) => Wrap(P, ParaToks(lines))
  }

  function RenderAll(bs: seq<Block>): seq<Tok>
    decreases bs, 1
  {
    if bs == [] then [] else Render(bs[0]) + RenderAll(bs[1..])
  }

  function RenderItems(items: seq<ListItem>): seq<Tok>
    decreases items, 1
  {
    if items == [] then []
    else Wrap(Li, [Inline(items[0].text)] + RenderAll(items[0].sub)) + RenderItems(items[1..])
  }

  // ---- the parser ------------------------------------------------------------------------------------------------

  lemma {:induction false} RunIs(g: Grammar, lines: seq<string>, i: nat, t: Test, j: nat)
    requires i <= j <= |lines| && (forall k | i <= k < j :: Holds(g, t, lines[k]))
    requires j < |lines| ==> !Holds(g, t, lines[j])
    ensures RunFrom(g, lines, i, t) == j
  {
  }

  /** Where the lines from `i` stop holding. */
  method Skip(g: Grammar, lines: seq<string>, i: nat, t: Test) returns (j: nat)
    requires i <= |lines|
    ensures j == RunFrom(g, lines, i, t)
  {
    j := i;
    while j < |lines| && Holds(g, t, lines[j])
      invariant i <= j <= |lines| && forall k | i <= k < j :: Holds(g, t, lines[k])
    {
      j := j + 1;
    }
    RunIs(g, lines, i, t, j);
  }

  method InnerLines(g: Grammar, lines: seq<string>, i: nat) returns (q: seq<string>, j: nat)
    requires i < |lines| && g.quote(lines[i]).Some?
    ensures j == RunFrom(g, lines, i, InQuote) > i && q == Inner(g, lines, i, j)
  {
    q, j := [], i;
    while j < |lines| && Holds(g, InQuote, lines[j])
      invariant i <= j <= |lines|
      invariant forall k | i <= k < j :: Holds(g, InQuote, lines[k])
      invariant q == Inner(g, lines, i, j)
    {
      q, j := q + [g.quote(lines[j]).value], j + 1;
    }
    RunIs(g, lines, i, InQuote, j);
  }

  method UnderItem(g: Grammar, lines: seq<string>, i: nat, base: nat) returns (sub: seq<string>, j: nat)
    requires 0 < i <= |lines|
    ensures j == RunFrom(g, lines, i, InItem(base)) && sub == Dedented(g, lines, i, j, base)
  {
    sub, j := [], i;
    while j < |lines| && Holds(g, InItem(base), lines[j])
      invariant i <= j <= |lines|
      invariant forall k | i <= k < j :: Holds(g, InItem(base), lines[k])
      invariant sub == Dedented(g, lines, i, j, base)
    {
      sub, j := sub + [lines[j][Cut(g, lines[j], base)..]], j + 1;
    }
    RunIs(g, lines, i, InItem(base), j);
  }

  method RowsFrom(g: Grammar, lines: seq<string>, i: nat) returns (rows: seq<seq<string>>, j: nat)
    requires i <= |lines|
    ensures j == RunFrom(g, lines, i, InTable) && rows == Rows(g, lines, i, j)
  {
    rows, j := [], i;
    while j < |lines| && Holds(g, InTable, lines[j])
      invariant i <= j <= |lines|
      invariant forall k | i <= k < j :: Holds(g, InTable, lines[k])
      invariant rows == Rows(g, lines, i, j)
    {
      rows, j := rows + [g.row(lines[j])], j + 1;
    }
    RunIs(g, lines, i, InTable, j);
  }

  method SkipGap(g: Grammar, lines: seq<string>, i: nat, base: nat) returns (j: nat)
    requires i <= |lines|
    ensures j == PastGap(g, lines, i, base)
  {
    j := i;
    while j + 1 < |lines| && g.blank(lines[j])
      && g.item(lines[j + 1]).Some? && g.item(lines[j + 1]).value.indent == base
      invariant i <= j <= |lines| && (j == i || j == PastGap(g, lines, i, base))
      invariant j > i ==> j < |lines| && g.item(lines[j]).Some?
    {
      j := j + 1;
    }
  }

  lemma ItemToks(lis: seq<Tok>, text: string, sub: seq<Block>, more: seq<ListItem>)
    ensures lis + RenderItems([ListItem(text, sub)] + more) ==
            lis + Wrap(Li, [Inline(text)] + RenderAll(sub)) + RenderItems(more)
  {
    assert ([ListItem(text, sub)] + more)[1..] == more;
  }

  lemma ItemIs(g: Grammar, lines: seq<string>, i: nat, base: nat, ordered: bool, k: nat, sub: seq<Block>, next: nat,
               more: seq<ListItem>, j: nat)
    requires i < |lines| && SameItem(g, lines[i], base, ordered) && k == RunFrom(g, lines, i + 1, InItem(base))
    requires sub == Parse(g, Dedented(g, lines, i + 1, k, base), 0) && next == PastGap(g, lines, k, base)
    requires (more, j) == ItemsFrom(g, lines, next, base, ordered)
    ensures ItemsFrom(g, lines, i, base, ordered) == ([ListItem(g.item(lines[i]).value.text, sub)] + more, j)
  {
  }

  /** One item of a list, at line `i`. */
  method ItemAt(g: Grammar, lines: seq<string>, i: nat, base: nat, text: string)
    returns (li: seq<Tok>, next: nat, ghost k: nat, ghost sub: seq<Block>)
    requires i < |lines|
    ensures k == RunFrom(g, lines, i + 1, InItem(base)) && next == PastGap(g, lines, k, base)
    ensures sub == Parse(g, Dedented(g, lines, i + 1, k, base), 0)
    ensures li == Wrap(Li, [Inline(text)] + RenderAll(sub))
    decreases Size(lines), 0
  {
    var under, end := UnderItem(g, lines, i + 1, base);
    DedentedShrinks(g, lines, i + 1, end, base);
    var toks := BlocksOf(g, under);
    next := SkipGap(g, lines, end, base);
    li := Wrap(Li, [Inline(text)] + toks);
    k, sub := end, Parse(g, under, 0);
  }

  /** The items of a list from line `i` on. */
  method ItemsOf(g: Grammar, lines: seq<string>, i: nat, base: nat, ordered: bool)
    returns (lis: seq<Tok>, j: nat, ghost items: seq<ListItem>)
    requires i <= |lines|
    ensures (items, j) == ItemsFrom(g, lines, i, base, ordered) && lis == RenderItems(items)
    decreases Size(lines), 1
  {
    lis, j := [], i;
    ghost var todo, end := ItemsFrom(g, lines, i, base, ordered).0, ItemsFrom(g, lines, i, base, ordered).1;
    items := todo;
    while j < |lines| && SameItem(g, lines[j], base, ordered)
      invariant i <= j <= |lines| && (todo, end) == ItemsFrom(g, lines, j, base, ordered)
      invariant lis + RenderItems(todo) == RenderItems(items)
      decreases |lines| - j
    {
      var text := g.item(lines[j]).value.text;
      ghost var k, sub;
      var li, next;
      li, next, k, sub := ItemAt(g, lines, j, base, text);
      ghost var more := ItemsFrom(g, lines, next, base, ordered).0;
      ItemIs(g, lines, j, base, ordered, k, sub, next, more, end);
      ItemToks(lis, text, sub, more);
      lis, j, todo := lis + li, next, more;
    }
  }

  /** A block without blocks inside, at line `i`. */
  method LeafAt(g: Grammar, lines: seq<string>, i: nat) returns (b: Block, j: nat)
    requires i < |lines| && !g.kind(lines[i]).QuoteKind? && (g.kind(lines[i]).ItemKind? ==> HasTable(g, lines, i))
    ensures (b, j) == BlockAt(g, lines, i)
  {
    var kind := g.kind(lines[i]);
    if kind.FenceKind? {
      j := Skip(g, lines, i + 1, InFence(kind.mark));
      b := Code(kind.lang, lines[i + 1..j]);
      if j < |lines| { j := j + 1; }
    } else if kind.HeadingKind? {
      b, j := Title(kind.level, kind.text), i + 1;
    } else if kind.RuleKind? {
      b, j := Line, i + 1;
    } else if HasTable(g, lines, i) {
      var rows;
      rows, j := RowsFrom(g, lines, i + 2);
      b := Table(g.row(lines[i]), g.aligns(lines[i + 1]), rows);
    } else {
      j := Skip(g, lines, i + 1, InPara);
      b := Para(lines[i..j]);
    }
  }

  lemma QuoteIs(g: Grammar, lines: seq<string>, i: nat, k: nat, inner: seq<Block>)
    requires i < |lines| && g.kind(lines[i]).QuoteKind? && k == RunFrom(g, lines, i, InQuote)
    requires inner == Parse(g, Inner(g, lines, i, k), 0)
    ensures BlockAt(g, lines, i) == (Quoted(inner), k)
  {
  }

  lemma ListIs(g: Grammar, lines: seq<string>, i: nat, base: nat, ordered: bool, items: seq<ListItem>, j: nat)
    requires i < |lines| && g.kind(lines[i]) == ItemKind(base, ordered) && !HasTable(g, lines, i)
    requires (items, j) == ItemsFrom(g, lines, i, base, ordered)
    ensures BlockAt(g, lines, i) == (List(ordered, items), j)
  {
  }

  method QuoteBlock(g: Grammar, lines: seq<string>, i: nat) returns (toks: seq<Tok>, j: nat, ghost b: Block)
    requires i < |lines| && g.kind(lines[i]).QuoteKind?
    ensures (b, j) == BlockAt(g, lines, i) && toks == Render(b)
    decreases Size(lines), 2
  {
    var q;
    q, j := InnerLines(g, lines, i);
    InnerShrinks(g, lines, i, j);
    toks := BlocksOf(g, q);
    ghost var inner := Parse(g, q, 0);
    QuoteIs(g, lines, i, j, inner);
    toks, b := Wrap(BlockQuote, toks), Quoted(inner);
  }

  lemma ListToks(ordered: bool, items: seq<ListItem>, lis: seq<Tok>)
    requires lis == RenderItems(items)
    ensures Render(List(ordered, items)) == Wrap(if ordered then Ol else Ul, lis)
  {
  }

  method ListBlock(g: Grammar, lines: seq<string>, i: nat, base: nat, ordered: bool)
    returns (toks: seq<Tok>, j: nat, ghost b: Block)
    requires i < |lines| && g.kind(lines[i]) == ItemKind(base, ordered) && !HasTable(g, lines, i)
    ensures (b, j) == BlockAt(g, lines, i) && toks == Render(b)
    decreases Size(lines), 2
  {
    ghost var items;
    toks, j, items := ItemsOf(g, lines, i, base, ordered);
    ListIs(g, lines, i, base, ordered, items, j);
    ListToks(ordered, items, toks);
    toks, b := Wrap(if ordered then Ol else Ul, toks), List(ordered, items);
  }

  /** The block at line `i`. */
  method OneBlock(g: Grammar, lines: seq<string>, i: nat) returns (toks: seq<Tok>, j: nat, ghost b: Block)
    requires i < |lines|
    ensures (b, j) == BlockAt(g, lines, i) && toks == Render(b)
    decreases Size(lines), 3
  {
    var kind := g.kind(lines[i]);
    if kind.QuoteKind? {
      toks, j, b := QuoteBlock(g, lines, i);
    } else if kind.ItemKind? && !HasTable(g, lines, i) {
      toks, j, b := ListBlock(g, lines, i, kind.indent, kind.ordered);
    } else {
      var leaf;
      leaf, j := LeafAt(g, lines, i);
      toks, b := Render(leaf), leaf;
    }
  }

  lemma BlockToks(out: seq<Tok>, b: Block, bs: seq<Block>)
    ensures out + RenderAll([b] + bs) == out + Render(b) + RenderAll(bs)
  {
    assert ([b] + bs)[1..] == bs;
  }

  /** The tokens of the blocks of `lines`. */
  method BlocksOf(g: Grammar, lines: seq<string>) returns (out: seq<Tok>)
    ensures out == RenderAll(Parse(g, lines, 0))
    decreases Size(lines), 4
  {
    out := [];
    var i := 0;
    ghost var all := RenderAll(Parse(g, lines, 0));
    while i < |lines|
      invariant i <= |lines| && out + RenderAll(Parse(g, lines, i)) == all
    {
      if g.blank(lines[i]) {
        i := i + 1;
      } else {
        ghost var b;
        var toks, j;
        toks, j, b := OneBlock(g, lines, i);
        BlockToks(out, b, Parse(g, lines, j));
        out, i := out + toks, j;
      }
    }
  }

  /** The renderer: the blocks by its own patterns. */
  method RenderLines(lines: seq<string>) returns (out: seq<Tok>)
    ensures out == RenderAll(Parse(Patterns(), lines, 0))
  {
    out := BlocksOf(Patterns(), lines);
  }
}
