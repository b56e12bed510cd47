/** What the tokens of the Markdown renderer show: the texts of the blocks, all of them, in order, each in its
    element. */
module MarkdownShown {
  import opened Text
  import opened MarkdownSyntax
  import opened Markdown

  /** Something shown, and the tags that are open around it, the outermost first. */
  datatype Shown = Shown(path: seq<Tok>, tok: Tok)

  // ---- what tokens show ------------------------------------------------------------------------------------------

  function PathAfter(toks: seq<Tok>, path: seq<Tok>): seq<Tok>
    decreases |toks|
  {
    if toks == [] then path
    else
      match toks[0]
      case Open(_) => PathAfter(toks[1..], path + [toks[0]])
      case OpenCell(_, _) => PathAfter(toks[1..], path + [toks[0]])
      case Close(_) => PathAfter(toks[1..], if path == [] then [] else path[..|path| - 1])
      case _ => PathAfter(toks[1..], path)
  }

  function Outline(toks: seq<Tok>, path: seq<Tok>): seq<Shown>
    decreases |toks|
  {
    if toks == [] then []
    else
      match toks[0]
      case Open(_) => Outline(toks[1..], path + [toks[0]])
      case OpenCell(_, _) => Outline(toks[1..], path + [toks[0]])
      case Close(_) => Outline(toks[1..], if path == [] then [] else path[..|path| - 1])
      case _ => [Shown(path, toks[0])] + Outline(toks[1..], path)
  }

  // ---- what blocks have to show ----------------------------------------------------------------------------------

  function CellAt(cells: seq<string>, k: nat): string { if k < |cells| then cells[k] else "" }

  function AlignAt(aligns: seq<Align>, k: nat): Align { if k < |aligns| then aligns[k] else Left }

  /** A row of `width` cells. */
  function RowShown(tag: Tag, cells: seq<string>, width: nat, aligns: seq<Align>, path: seq<Tok>): seq<Shown> {
    seq(width, k requires 0 <= k < width =>
      Shown(path + [Open(Tr), OpenCell(tag, AlignAt(aligns, k))], Inline(CellAt(cells, k))))
  }

  function RowsShown(rows: seq<seq<string>>, width: nat, aligns: seq<Align>, path: seq<Tok>): seq<Shown>
    decreases |rows|
  {
    if rows == [] then [] else RowShown(Td, rows[0], width, aligns, path) + RowsShown(rows[1..], width, aligns, path)
  }

  /** Lines with breaks between them: an even place is a line, an odd one a break. */
  function ParaShown(lines: seq<string>, path: seq<Tok>): seq<Shown> {
    seq(if lines == [] then 0 else 2 * |lines| - 1,
        k requires 0 <= k < 2 * |lines| - 1 => Shown(path, if k % 2 == 0 then Inline(lines[k / 2]) else Br))
  }

  function BlockShown(b: Block, path: seq<Tok>): seq<Shown>
    decreases b, 0
  {
    match b
    case Code(lang, body) =>
      var box := path + [Open(CodeBox)];
      [Shown(box + [Open(CodeHead), Open(Label)], Escaped(if lang == [] then "text" else lang)),
       Shown(box + [Open(CodeHead), Open(CopyButton)], CopyLabel),
       Shown(box + [Open(Pre), Open(CodeText)], Escaped(Join(body, '\n')))]
    case Title(level, text) => [Shown(path + [Open(H(level + 2))], Inline(text))]
    case Line => [Shown(path, Hr)]
    case Quoted(inner) => AllShown(inner, path + [Open(BlockQuote)])
    case Table(head, aligns, rows) =>
      var table := path + [Open(TableWrap), Open(TableTag)];
      RowShown(Th, head, |head|, aligns, table + [Open(Thead)]) +
      RowsShown(rows, |head|, aligns, table + [Open(Tbody)])
    case List(ordered, items) => ItemsShown(items, path + [Open(if ordered then Ol else Ul)])
    case Para(lines) => ParaShown(lines, path + [Open(P)])
  }

  function AllShown(bs: seq<Block>, path: seq<Tok>): seq<Shown>
    decreases bs, 1
  {
    if bs == [] then [] else BlockShown(bs[0], path) + AllShown(bs[1..], path)
  }

  function ItemsShown(items: seq<ListItem>, path: seq<Tok>): seq<Shown>
    decreases items, 1
  {
    if items == [] then []
    else
      var li := path + [Open(Li)];
      [Shown(li, Inline(items[0].text))] + AllShown(items[0].sub, li) + ItemsShown(items[1..], path)
  }

  // ---- putting tokens together -----------------------------------------------------------------------------------

  /** The tokens show `out` and close what they open. */
  predicate Shows(toks: seq<Tok>, path: seq<Tok>, out: seq<Shown>) {
    Outline(toks, path) == out && PathAfter(toks, path) == path
  }

  lemma {:induction false} OutlineAppend(a: seq<Tok>, b: seq<Tok>, path: seq<Tok>)
    ensures PathAfter(a + b, path) == PathAfter(b, PathAfter(a, path))
    ensures Outline(a + b, path) == Outline(a, path) + Outline(b, PathAfter(a, path))
    decreases |a|
  {
    if a == [] {
      assert a + b == b;
    } else {
      assert (a + b)[1..] == a[1..] + b;
      match a[0]
      case Open(_) => OutlineAppend(a[1..], b, path + [a[0]]);
      case OpenCell(_, _) => OutlineAppend(a[1..], b, path + [a[0]]);
      case Close(_) => OutlineAppend(a[1..], b, if path == [] then [] else path[..|path| - 1]);
      case _ => OutlineAppend(a[1..], b, path);
    }
  }

  lemma ShowsBoth(a: seq<Tok>, b: seq<Tok>, path: seq<Tok>, x: seq<Shown>, y: seq<Shown>)
    requires Shows(a, path, x) && Shows(b, path, y)
    ensures Shows(a + b, path, x + y)
  {
    OutlineAppend(a, b, path);
  }

  lemma ShowsIn(open: Tok, tag: Tag, inside: seq<Tok>, path: seq<Tok>, x: seq<Shown>)
    requires (open.Open? || open.OpenCell?) && Shows(inside, path + [open], x)
    ensures Shows([open] + inside + [Close(tag)], path, x)
  {
    assert [open] + inside + [Close(tag)] == [open] + (inside + [Close(tag)]);
    assert ([open] + (inside + [Close(tag)]))[1..] == inside + [Close(tag)];
    OutlineAppend(inside, [Close(tag)], path + [open]);
    assert [Close(tag)][1..] == [] && (path + [open])[..|path|] == path;
  }

  lemma ShowsWrap(tag: Tag, inside: seq<Tok>, path: seq<Tok>, x: seq<Shown>)
    requires Shows(inside, path + [Open(tag)], x)
    ensures Shows(Wrap(tag, inside), path, x)
  {
    ShowsIn(Open(tag), tag, inside, path, x);
  }

  lemma ShowsOne(tok: Tok, path: seq<Tok>)
    requires !tok.Open? && !tok.OpenCell? && !tok.Close?
    ensures Shows([tok], path, [Shown(path, tok)])
  {
    assert [tok][1..] == [];
  }

  // ---- the blocks ------------------------------------------------------------------------------------------------

  lemma CodeShows(lang: string, body: seq<string>, path: seq<Tok>)
    ensures Shows(CodeToks(lang, body), path, BlockShown(Code(lang, body), path))
  {
    var name, text := Escaped(if lang == [] then "text" else lang), Escaped(Join(body, '\n'));
    var box := path + [Open(CodeBox)];
    var head, pre := box + [Open(CodeHead)], box + [Open(Pre)];
    ShowsOne(name, head + [Open(Label)]);
    ShowsOne(CopyLabel, head + [Open(CopyButton)]);
    ShowsOne(text, pre + [Open(CodeText)]);
    var a := Shown(head + [Open(Label)], name);
    var b, c := Shown(head + [Open(CopyButton)], CopyLabel), Shown(pre + [Open(CodeText)], text);
    ShowsWrap(Label, [name], head, [a]);
    ShowsWrap(CopyButton, [CopyLabel], head, [b]);
    ShowsBoth(Wrap(Label, [name]), Wrap(CopyButton, [CopyLabel]), head, [a], [b]);
    ShowsWrap(CodeHead, Wrap(Label, [name]) + Wrap(CopyButton, [CopyLabel]), box, [a] + [b]);
    ShowsWrap(CodeText, [text], pre, [c]);
    ShowsWrap(Pre, Wrap(CodeText, [text]), box, [c]);
    var top, bottom := Wrap(CodeHead, Wrap(Label, [name]) + Wrap(CopyButton, [CopyLabel])),
                       Wrap(Pre, Wrap(CodeText, [text]));
    ShowsBoth(top, bottom, box, [a] + [b], [c]);
    ShowsWrap(CodeBox, top + bottom, path, [a] + [b] + [c]);
    assert head + [Open(Label)] == box + [Open(CodeHead), Open(Label)];
    assert head + [Open(CopyButton)] == box + [Open(CodeHead), Open(CopyButton)];
    assert pre + [Open(CodeText)] == box + [Open(Pre), Open(CodeText)];
    assert [a] + [b] + [c] == BlockShown(Code(lang, body), path);
  }

  lemma CellShows(tag: Tag, align: Align, text: string, path: seq<Tok>)
    ensures Shows([OpenCell(tag, align), Inline(text), Close(tag)], path,
                  [Shown(path + [OpenCell(tag, align)], Inline(text))])
  {
    ShowsOne(Inline(text), path + [OpenCell(tag, align)]);
    ShowsIn(OpenCell(tag, align), tag, [Inline(text)], path, [Shown(path + [OpenCell(tag, align)], Inline(text))]);
    assert [OpenCell(tag, align)] + [Inline(text)] + [Close(tag)] == [OpenCell(tag, align), Inline(text), Close(tag)];
  }

  lemma {:induction false} CellsShow(tag: Tag, cells: seq<string>, width: nat, aligns: seq<Align>, path: seq<Tok>)
    ensures Shows(RowToks(tag, cells, width, aligns), path + [Open(Tr)], RowShown(tag, cells, width, aligns, path))
    decreases width
  {
    var tr := path + [Open(Tr)];
    if width > 0 {
      var k := width - 1;
      CellsShow(tag, cells, k, aligns, path);
      CellShows(tag, AlignAt(aligns, k), CellAt(cells, k), tr);
      var last := Shown(tr + [OpenCell(tag, AlignAt(aligns, k))], Inline(CellAt(cells, k)));
      ShowsBoth(RowToks(tag, cells, k, aligns),
                [OpenCell(tag, AlignAt(aligns, k)), Inline(CellAt(cells, k)), Close(tag)], tr,
                RowShown(tag, cells, k, aligns, path), [last]);
      assert tr + [OpenCell(tag, AlignAt(aligns, k))] == path + [Open(Tr), OpenCell(tag, AlignAt(aligns, k))];
      assert RowShown(tag, cells, width, aligns, path) == RowShown(tag, cells, k, aligns, path) + [last];
    } else {
      assert RowShown(tag, cells, width, aligns, path) == [];
    }
  }

  lemma RowShows(tag: Tag, cells: seq<string>, width: nat, aligns: seq<Align>, path: seq<Tok>)
    ensures Shows(Wrap(Tr, RowToks(tag, cells, width, aligns)), path, RowShown(tag, cells, width, aligns, path))
  {
    CellsShow(tag, cells, width, aligns, path);
    ShowsWrap(Tr, RowToks(tag, cells, width, aligns), path, RowShown(tag, cells, width, aligns, path));
  }

  lemma {:induction false} RowsShow(rows: seq<seq<string>>, width: nat, aligns: seq<Align>, path: seq<Tok>)
    ensures Shows(RowsToks(rows, width, aligns), path, RowsShown(rows, width, aligns, path))
    decreases |rows|
  {
    if rows != [] {
      RowShows(Td, rows[0], width, aligns, path);
      RowsShow(rows[1..], width, aligns, path);
      ShowsBoth(Wrap(Tr, RowToks(Td, rows[0], width, aligns)), RowsToks(rows[1..], width, aligns), path,
                RowShown(Td, rows[0], width, aligns, path), RowsShown(rows[1..], width, aligns, path));
    }
  }

  lemma TableShows(head: seq<string>, aligns: seq<Align>, rows: seq<seq<string>>, path: seq<Tok>)
    ensures Shows(TableToks(head, aligns, rows), path, BlockShown(Table(head, aligns, rows), path))
  {
    var wrap := path + [Open(TableWrap)];
    var table := wrap + [Open(TableTag)];
    assert table == path + [Open(TableWrap), Open(TableTag)];
    var top, bottom := Wrap(Tr, RowToks(Th, head, |head|, aligns)), RowsToks(rows, |head|, aligns);
    var x := RowShown(Th, head, |head|, aligns, table + [Open(Thead)]);
    var y := RowsShown(rows, |head|, aligns, table + [Open(Tbody)]);
    RowShows(Th, head, |head|, aligns, table + [Open(Thead)]);
    RowsShow(rows, |head|, aligns, table + [Open(Tbody)]);
    ShowsWrap(Thead, top, table, x);
    ShowsWrap(Tbody, bottom, table, y);
    ShowsBoth(Wrap(Thead, top), Wrap(Tbody, bottom), table, x, y);
    ShowsWrap(TableTag, Wrap(Thead, top) + Wrap(Tbody, bottom), wrap, x + y);
    ShowsWrap(TableWrap, Wrap(TableTag, Wrap(Thead, top) + Wrap(Tbody, bottom)), path, x + y);
  }

  lemma {:induction false} ParaShows(lines: seq<string>, path: seq<Tok>)
    ensures Shows(ParaToks(lines), path, ParaShown(lines, path))
    decreases |lines|
  {
    if lines == [] {
      assert ParaShown(lines, path) == [];
    } else {
      ShowsOne(Inline(lines[0]), path);
      var first := Shown(path, Inline(lines[0]));
      if |lines| == 1 {
        assert ParaShown(lines, path) == [first];
      } else {
        var rest := lines[1..];
        ParaShows(rest, path);
        ShowsOne(Br, path);
        ShowsBoth([Inline(lines[0])], [Br], path, [first], [Shown(path, Br)]);
        assert [Inline(lines[0])] + [Br] == [Inline(lines[0]), Br];
        ShowsBoth([Inline(lines[0]), Br], ParaToks(rest), path, [first] + [Shown(path, Br)], ParaShown(rest, path));
        ParaCons(lines, path);
      }
    }
  }

  lemma ParaCons(lines: seq<string>, path: seq<Tok>)
    requires |lines| > 1
    ensures ParaShown(lines, path) ==
            [Shown(path, Inline(lines[0]))] + [Shown(path, Br)] + ParaShown(lines[1..], path)
  {
    var all, rest := ParaShown(lines, path), ParaShown(lines[1..], path);
    forall k | 2 <= k < |all| ensures all[k] == rest[k - 2] {
      assert lines[k / 2] == lines[1..][(k - 2) / 2];
    }
  }

  lemma {:induction false} BlockShows(b: Block, path: seq<Tok>)
    ensures Shows(Render(b), path, BlockShown(b, path))
    decreases b, 0
  {
    match b
    case Code(lang, body) => CodeShows(lang, body, path);
    case Title(level, text) =>
      ShowsOne(Inline(text), path + [Open(H(level + 2))]);
      ShowsWrap(H(level + 2), [Inline(text)], path, BlockShown(b, path));
    case Line => ShowsOne(Hr, path);
    case Quoted(inner) =>
      AllShow(inner, path + [Open(BlockQuote)]);
      ShowsWrap(BlockQuote, RenderAll(inner), path, BlockShown(b, path));
    case Table(head, aligns, rows) => TableShows(head, aligns, rows, path);
    case List(ordered, items) =>
      var tag := if ordered then Ol else Ul;
      ItemsShow(items, path + [Open(tag)]);
      ShowsWrap(tag, RenderItems(items), path, BlockShown(b, path));
    case Para(lines) =>
      ParaShows(lines, path + [Open(P)]);
      ShowsWrap(P, ParaToks(lines), path, BlockShown(b, path));
  }

  /** The tokens of blocks show their texts, all of them, in order, and each in the elements it belongs to. */
  lemma {:induction false} AllShow(bs: seq<Block>, path: seq<Tok>)
    ensures Shows(RenderAll(bs), path, AllShown(bs, path))
    decreases bs, 1
  {
    if bs != [] {
      BlockShows(bs[0], path);
      AllShow(bs[1..], path);
      ShowsBoth(Render(bs[0]), RenderAll(bs[1..]), path, BlockShown(bs[0], path), AllShown(bs[1..], path));
    }
  }

  lemma {:induction false} ItemsShow(items: seq<ListItem>, path: seq<Tok>)
    ensures Shows(RenderItems(items), path, ItemsShown(items, path))
    decreases items, 1
  {
    if items != [] {
      var item, li := items[0], path + [Open(Li)];
      ShowsOne(Inline(item.text), li);
      AllShow(item.sub, li);
      var inside := [Inline(item.text)] + RenderAll(item.sub);
      var x := [Shown(li, Inline(item.text))] + AllShown(item.sub, li);
      ShowsBoth([Inline(item.text)], RenderAll(item.sub), li, [Shown(li, Inline(item.text))], AllShown(item.sub, li));
      ShowsWrap(Li, inside, path, x);
      ItemsShow(items[1..], path);
      ShowsBoth(Wrap(Li, inside), RenderItems(items[1..]), path, x, ItemsShown(items[1..], path));
    }
  }
}
