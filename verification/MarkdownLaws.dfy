/** What the Markdown renderer promises: its tags are properly nested, and every line that is not blank belongs to
    one block. */
module MarkdownLaws {
  import opened Text
  import opened MarkdownSyntax
  import opened Markdown
  import opened MarkdownContent

  // ---- nesting ---------------------------------------------------------------------------------------------------

  predicate Flow(stack: seq<Tag>) {
    stack == [] || stack[|stack| - 1] == BlockQuote || stack[|stack| - 1] == Li
  }

  /** Where a tag may be opened. */
  predicate MayOpen(stack: seq<Tag>, tag: Tag) {
    if tag.CodeBox? || tag.H? || tag.BlockQuote? || tag.TableWrap? || tag.Ol? || tag.Ul? || tag.P? then Flow(stack)
    else
      stack != [] &&
      var top := stack[|stack| - 1];
      match tag
      case CodeHead => top == CodeBox
      case Pre => top == CodeBox
      case Label => top == CodeHead
      case CopyButton => top == CodeHead
      case CodeText => top == Pre
      case TableTag => top == TableWrap
      case Thead => top == TableTag
      case Tbody => top == TableTag
      case Tr => top == Thead || top == Tbody
      case Th => top == Tr
      case Td => top == Tr
      case Li => top == Ol || top == Ul
      case _ => false
  }

  /** Where a token without a tag may stand. */
  predicate MayStand(stack: seq<Tag>, tok: Tok) {
    if tok.Hr? then Flow(stack)
    else
      stack != [] &&
      var top := stack[|stack| - 1];
      match tok
      case Br => top == P
      case Escaped(_) => top == Label || top == CodeText
      case CopyLabel => top == CopyButton
      case Inline(_) => top.H? || top == P || top == Th || top == Td || top == Li
      case _ => false
  }

  /** The tags that are open after a token, if it is in its place. */
  function Push(stack: seq<Tag>, tok: Tok): Option<seq<Tag>> {
    match tok
    case Open(tag) => if MayOpen(stack, tag) then Some(stack + [tag]) else None
    case OpenCell(tag, _) => if MayOpen(stack, tag) then Some(stack + [tag]) else None
    case Close(tag) => if stack != [] && stack[|stack| - 1] == tag then Some(stack[..|stack| - 1]) else None
    case _ => if MayStand(stack, tok) then Some(stack) else None
  }

  function Nest(toks: seq<Tok>, stack: seq<Tag>): Option<seq<Tag>>
    decreases |toks|
  {
    if toks == [] then Some(stack)
    else
      match Push(stack, toks[0])
      case None => None
      case Some(s) => Nest(toks[1..], s)
  }

  lemma {:induction false} NestAppend(a: seq<Tok>, b: seq<Tok>, stack: seq<Tag>, mid: seq<Tag>)
    requires Nest(a, stack) == Some(mid)
    ensures Nest(a + b, stack) == Nest(b, mid)
    decreases |a|
  {
    if a == [] {
      assert a + b == b;
    } else {
      assert (a + b)[1..] == a[1..] + b;
      NestAppend(a[1..], b, Push(stack, a[0]).value, mid);
    }
  }

  lemma NestOne(tok: Tok, stack: seq<Tag>)
    ensures Nest([tok], stack) == Push(stack, tok)
  {
    assert [tok][1..] == [];
  }

  /** The tokens leave the stack as it was. */
  predicate Fits(toks: seq<Tok>, stack: seq<Tag>) { Nest(toks, stack) == Some(stack) }

  lemma FitBoth(a: seq<Tok>, b: seq<Tok>, stack: seq<Tag>)
    requires Fits(a, stack) && Fits(b, stack)
    ensures Fits(a + b, stack)
  {
    NestAppend(a, b, stack, stack);
  }

  lemma FitWrapped(open: Tok, tag: Tag, inside: seq<Tok>, stack: seq<Tag>)
    requires open == Open(tag) || (open.OpenCell? && open.tag == tag)
    requires MayOpen(stack, tag) && Fits(inside, stack + [tag])
    ensures Fits([open] + inside + [Close(tag)], stack)
  {
    var s := stack + [tag];
    NestOne(open, stack);
    NestAppend([open], inside, stack, s);
    NestAppend([open] + inside, [Close(tag)], stack, s);
    NestOne(Close(tag), s);
    assert s[..|s| - 1] == stack;
  }

  lemma FitWrap(tag: Tag, inside: seq<Tok>, stack: seq<Tag>)
    requires MayOpen(stack, tag) && Fits(inside, stack + [tag])
    ensures Fits(Wrap(tag, inside), stack)
  {
    FitWrapped(Open(tag), tag, inside, stack);
  }

  lemma FitText(tok: Tok, stack: seq<Tag>)
    requires MayStand(stack, tok) && (tok.Hr? || tok.Br? || tok.Escaped? || tok.CopyLabel? || tok.Inline?)
    ensures Fits([tok], stack)
  {
    NestOne(tok, stack);
  }

  lemma CodeFits(lang: string, body: seq<string>, stack: seq<Tag>)
    requires Flow(stack)
    ensures Fits(CodeToks(lang, body), stack)
  {
    var box := stack + [CodeBox];
    var head, pre := box + [CodeHead], box + [Pre];
    var name := [Escaped(if lang == [] then "text" else lang)];
    FitText(name[0], head + [Label]);
    FitWrap(Label, name, head);
    FitText(CopyLabel, head + [CopyButton]);
    FitWrap(CopyButton, [CopyLabel], head);
    FitBoth(Wrap(Label, name), Wrap(CopyButton, [CopyLabel]), head);
    FitWrap(CodeHead, Wrap(Label, name) + Wrap(CopyButton, [CopyLabel]), box);
    FitText(Escaped(Lines(body)), pre + [CodeText]);
    FitWrap(CodeText, [Escaped(Lines(body))], pre);
    FitWrap(Pre, Wrap(CodeText, [Escaped(Lines(body))]), box);
    FitBoth(Wrap(CodeHead, Wrap(Label, name) + Wrap(CopyButton, [CopyLabel])),
            Wrap(Pre, Wrap(CodeText, [Escaped(Lines(body))])), box);
    FitWrap(CodeBox, Wrap(CodeHead, Wrap(Label, name) + Wrap(CopyButton, [CopyLabel])) +
                     Wrap(Pre, Wrap(CodeText, [Escaped(Lines(body))])), stack);
  }

  lemma {:induction false} RowFits(tag: Tag, cells: seq<string>, width: nat, aligns: seq<Align>, stack: seq<Tag>)
    requires (tag == Th || tag == Td) && stack != [] && stack[|stack| - 1] == Tr
    ensures Fits(RowToks(tag, cells, width, aligns), stack)
    decreases width
  {
    if width > 0 {
      var k := width - 1;
      RowFits(tag, cells, k, aligns, stack);
      var cell := Inline(if k < |cells| then cells[k] else "");
      var open := OpenCell(tag, if k < |aligns| then aligns[k] else Left);
      FitText(cell, stack + [tag]);
      FitWrapped(open, tag, [cell], stack);
      assert [open] + [cell] + [Close(tag)] == [open, cell, Close(tag)];
      FitBoth(RowToks(tag, cells, k, aligns), [open, cell, Close(tag)], stack);
    }
  }

  lemma {:induction false} RowsFit(rows: seq<seq<string>>, width: nat, aligns: seq<Align>, stack: seq<Tag>)
    requires stack != [] && stack[|stack| - 1] == Tbody
    ensures Fits(RowsToks(rows, width, aligns), stack)
    decreases |rows|
  {
    if rows != [] {
      RowFits(Td, rows[0], width, aligns, stack + [Tr]);
      FitWrap(Tr, RowToks(Td, rows[0], width, aligns), stack);
      RowsFit(rows[1..], width, aligns, stack);
      FitBoth(Wrap(Tr, RowToks(Td, rows[0], width, aligns)), RowsToks(rows[1..], width, aligns), stack);
    }
  }

  lemma TableFits(head: seq<string>, aligns: seq<Align>, rows: seq<seq<string>>, stack: seq<Tag>)
    requires Flow(stack)
    ensures Fits(TableToks(head, aligns, rows), stack)
  {
    var table := stack + [TableWrap] + [TableTag];
    var top, body := RowToks(Th, head, |head|, aligns), RowsToks(rows, |head|, aligns);
    RowFits(Th, head, |head|, aligns, table + [Thead] + [Tr]);
    FitWrap(Tr, top, table + [Thead]);
    FitWrap(Thead, Wrap(Tr, top), table);
    RowsFit(rows, |head|, aligns, table + [Tbody]);
    FitWrap(Tbody, body, table);
    FitBoth(Wrap(Thead, Wrap(Tr, top)), Wrap(Tbody, body), table);
    FitWrap(TableTag, Wrap(Thead, Wrap(Tr, top)) + Wrap(Tbody, body), stack + [TableWrap]);
    FitWrap(TableWrap, Wrap(TableTag, Wrap(Thead, Wrap(Tr, top)) + Wrap(Tbody, body)), stack);
  }

  lemma {:induction false} ParaFits(lines: seq<string>, stack: seq<Tag>)
    requires stack != [] && stack[|stack| - 1] == P
    ensures Fits(ParaToks(lines), stack)
    decreases |lines|
  {
    if |lines| == 1 {
      FitText(Inline(lines[0]), stack);
    } else if |lines| > 1 {
      FitText(Inline(lines[0]), stack);
      FitText(Br, stack);
      FitBoth([Inline(lines[0])], [Br], stack);
      assert [Inline(lines[0])] + [Br] == [Inline(lines[0]), Br];
      ParaFits(lines[1..], stack);
      FitBoth([Inline(lines[0]), Br], ParaToks(lines[1..]), stack);
    }
  }

  lemma {:induction false} BlockFits(b: Block, stack: seq<Tag>)
    requires Flow(stack)
    ensures Fits(Render(b), stack)
    decreases b, 0
  {
    match b
    case Code(lang, body) => CodeFits(lang, body, stack);
    case Title(level, text) =>
      FitText(Inline(text), stack + [H(level + 2)]);
      FitWrap(H(level + 2), [Inline(text)], stack);
    case Line => FitText(Hr, stack);
    case Quoted(inner) =>
      BlocksFit(inner, stack + [BlockQuote]);
      FitWrap(BlockQuote, RenderAll(inner), stack);
    case Table(head, aligns, rows) => TableFits(head, aligns, rows, stack);
    case List(ordered, items) =>
      var tag := if ordered then Ol else Ul;
      ItemsFit(items, stack + [tag]);
      FitWrap(tag, RenderItems(items), stack);
    case Para(lines) =>
      ParaFits(lines, stack + [P]);
      FitWrap(P, ParaToks(lines), stack);
  }

  lemma {:induction false} BlocksFit(bs: seq<Block>, stack: seq<Tag>)
    requires Flow(stack)
    ensures Fits(RenderAll(bs), stack)
    decreases bs, 1
  {
    if bs != [] {
      BlockFits(bs[0], stack);
      BlocksFit(bs[1..], stack);
      FitBoth(Render(bs[0]), RenderAll(bs[1..]), stack);
    }
  }

  lemma {:induction false} ItemsFit(items: seq<ListItem>, stack: seq<Tag>)
    requires stack != [] && (stack[|stack| - 1] == Ol || stack[|stack| - 1] == Ul)
    ensures Fits(RenderItems(items), stack)
    decreases items, 1
  {
    if items != [] {
      var s := stack + [Li];
      FitText(Inline(items[0].text), s);
      BlocksFit(items[0].sub, s);
      FitBoth([Inline(items[0].text)], RenderAll(items[0].sub), s);
      FitWrap(Li, [Inline(items[0].text)] + RenderAll(items[0].sub), stack);
      ItemsFit(items[1..], stack);
      FitBoth(Wrap(Li, [Inline(items[0].text)] + RenderAll(items[0].sub)), RenderItems(items[1..]), stack);
    }
  }

  /** Whatever the lines, every tag is closed, in the right order and in a place where it may stand. */
  lemma TagsAreNested(g: Grammar, lines: seq<string>)
    ensures Nest(RenderAll(Parse(g, lines, 0)), []) == Some([])
  {
    BlocksFit(Parse(g, lines, 0), []);
  }

  /** A row of a table has one cell for each cell of the head. */
  lemma {:induction false} RowWidth(tag: Tag, cells: seq<string>, width: nat, aligns: seq<Align>)
    ensures |RowToks(tag, cells, width, aligns)| == 3 * width
    decreases width
  {
    if width > 0 { RowWidth(tag, cells, width - 1, aligns); }
  }

  // ---- every line in one block -----------------------------------------------------------------------------------

  /** The lines `from..to` and their block. */
  datatype Span = Span(from: nat, to: nat, block: Block)

  function Spans(g: Grammar, lines: seq<string>, i: nat): seq<Span>
    requires i <= |lines|
    decreases |lines| - i
  {
    if i == |lines| then []
    else if g.blank(lines[i]) then Spans(g, lines, i + 1)
    else
      var (b, j) := BlockAt(g, lines, i);
      [Span(i, j, b)] + Spans(g, lines, j)
  }

  /** The spans from line `i` on, one after the other, each with the block that holds its lines, and with nothing but
      blank lines before, between and after them. */
  predicate Tiles(g: Grammar, lines: seq<string>, i: nat, spans: seq<Span>)
    decreases |spans|
  {
    i <= |lines| &&
    if spans == [] then forall k | i <= k < |lines| :: g.blank(lines[k])
    else
      && i <= spans[0].from < spans[0].to <= |lines|
      && (forall k | i <= k < spans[0].from :: g.blank(lines[k]))
      && !g.blank(lines[spans[0].from])
      && Covers(g, spans[0].block, lines, spans[0].from, spans[0].to)
      && Tiles(g, lines, spans[0].to, spans[1..])
  }

  function BlocksIn(spans: seq<Span>): seq<Block>
    decreases |spans|
  {
    if spans == [] then [] else [spans[0].block] + BlocksIn(spans[1..])
  }

  /** The parser's blocks are those of the spans, and the spans tile the lines. */
  lemma {:induction false} SpansTile(g: Grammar, lines: seq<string>, i: nat)
    requires i <= |lines|
    ensures Tiles(g, lines, i, Spans(g, lines, i)) && BlocksIn(Spans(g, lines, i)) == Parse(g, lines, i)
    decreases |lines| - i
  {
    if i < |lines| {
      if g.blank(lines[i]) {
        SpansTile(g, lines, i + 1);
        TilesEarlier(g, lines, i, Spans(g, lines, i + 1));
      } else {
        var (b, j) := BlockAt(g, lines, i);
        BlockHeld(g, lines, i, b, j);
        SpansTile(g, lines, j);
        OneMoreSpan(g, lines, i, j, b, Spans(g, lines, j));
      }
    }
  }

  lemma TilesEarlier(g: Grammar, lines: seq<string>, i: nat, spans: seq<Span>)
    requires i < |lines| && g.blank(lines[i]) && Tiles(g, lines, i + 1, spans)
    ensures Tiles(g, lines, i, spans)
  {
  }

  lemma OneMoreSpan(g: Grammar, lines: seq<string>, i: nat, j: nat, b: Block, spans: seq<Span>)
    requires i < j <= |lines| && !g.blank(lines[i]) && Covers(g, b, lines, i, j) && Tiles(g, lines, j, spans)
    ensures Tiles(g, lines, i, [Span(i, j, b)] + spans)
    ensures BlocksIn([Span(i, j, b)] + spans) == [b] + BlocksIn(spans)
  {
    assert ([Span(i, j, b)] + spans)[1..] == spans;
  }

  predicate Holding(s: Span, k: nat) { s.from <= k < s.to }

  /** A tiling holds every line that is not blank exactly once. */
  lemma {:induction false} TiledOnce(g: Grammar, lines: seq<string>, i: nat, spans: seq<Span>, k: nat) returns (n: nat)
    requires Tiles(g, lines, i, spans) && i <= k < |lines| && !g.blank(lines[k])
    ensures n < |spans| && Holding(spans[n], k) && spans[n].to <= |lines|
    ensures Covers(g, spans[n].block, lines, spans[n].from, spans[n].to)
    ensures forall m | 0 <= m < |spans| && Holding(spans[m], k) :: m == n
    decreases |spans|
  {
    if Holding(spans[0], k) {
      n := 0;
      Later(g, lines, spans[0].to, spans[1..], k);
    } else {
      n := TiledOnce(g, lines, spans[0].to, spans[1..], k);
      n := n + 1;
    }
  }

  lemma {:induction false} Later(g: Grammar, lines: seq<string>, i: nat, spans: seq<Span>, k: nat)
    requires Tiles(g, lines, i, spans) && k < i
    ensures forall m | 0 <= m < |spans| :: !Holding(spans[m], k)
    decreases |spans|
  {
    if spans != [] { Later(g, lines, spans[0].to, spans[1..], k); }
  }

  /** Every line that is not blank belongs to exactly one of the blocks, which come in the order of their lines; and
      that block holds the lines of its span, read as its kind says, down to the lines of quotes and lists. */
  lemma EveryLineOnce(g: Grammar, lines: seq<string>, k: nat) returns (spans: seq<Span>, n: nat)
    requires k < |lines| && !g.blank(lines[k])
    ensures Tiles(g, lines, 0, spans) && BlocksIn(spans) == Parse(g, lines, 0)
    ensures n < |spans| && Holding(spans[n], k) && spans[n].to <= |lines|
    ensures Covers(g, spans[n].block, lines, spans[n].from, spans[n].to)
    ensures forall m | 0 <= m < |spans| && Holding(spans[m], k) :: m == n
  {
    spans := Spans(g, lines, 0);
    SpansTile(g, lines, 0);
    n := TiledOnce(g, lines, 0, spans, k);
  }
}
