/** What the blocks of the Markdown renderer hold: their lines, all of them, read as their kind says, and nothing
    else. */
module MarkdownContent {
  import opened Text
  import opened MarkdownSyntax
  import opened Markdown

  // ---- one block -------------------------------------------------------------------------------------------------

  /** A fence at line `i`, the body, and the closing fence, unless the lines end first. */
  predicate CodeCovers(g: Grammar, lang: string, body: seq<string>, lines: seq<string>, i: nat, j: nat)
    requires i < j <= |lines|
  {
    var kind := g.kind(lines[i]);
    && kind.FenceKind? && kind.lang == lang && i + 1 + |body| <= j && body == lines[i + 1..][..|body|]
    && (forall l | l in body :: !g.closes(l, kind.mark))
    && if j == i + 1 + |body| then j == |lines| else j == i + 2 + |body| && g.closes(lines[j - 1], kind.mark)
  }

  /** A line with a bar, above a separator with a dash. */
  predicate OverDashes(g: Grammar, lines: seq<string>, i: nat)
    requires i < |lines|
  {
    i + 1 < |lines| && '|' in lines[i] && g.separator(lines[i + 1]) && '-' in lines[i + 1]
  }

  /** The head, the separator and the rows, up to a line that is blank or has no bar. */
  predicate TableCovers(g: Grammar, b: Block, lines: seq<string>, i: nat, j: nat)
    requires b.Table? && i < j <= |lines|
  {
    && OverDashes(g, lines, i) && j == i + 2 + |b.rows|
    && b.head == g.row(lines[i]) && b.aligns == g.aligns(lines[i + 1])
    && (forall k | i + 2 <= k < j :: b.rows[k - (i + 2)] == g.row(lines[k]) && !g.blank(lines[k]) && '|' in lines[k])
    && (j < |lines| ==> g.blank(lines[j]) || '|' !in lines[j])
  }

  /** The lines of a paragraph, up to a blank one or one of another kind. */
  predicate ParaCovers(g: Grammar, para: seq<string>, lines: seq<string>, i: nat, j: nat)
    requires i < j <= |lines|
  {
    && para == lines[i..j]
    && (forall k | i < k < j :: !g.blank(lines[k]) && g.kind(lines[k]).PlainKind?)
    && (j < |lines| ==> g.blank(lines[j]) || !g.kind(lines[j]).PlainKind?)
  }

  /** Quoted lines, up to the first without a mark. */
  predicate QuoteRun(g: Grammar, lines: seq<string>, i: nat, j: nat)
    requires i <= j <= |lines|
  {
    (forall k | i <= k < j :: g.quote(lines[k]).Some?) && (j < |lines| ==> g.quote(lines[j]).None?)
  }

  /** A line that belongs under an item of that indentation. */
  predicate Deeper(g: Grammar, line: string, base: nat) { !g.blank(line) && g.indent(line) > base }

  predicate DeeperRun(g: Grammar, lines: seq<string>, i: nat, j: nat, base: nat)
    requires i <= j <= |lines|
  {
    (forall k | i <= k < j :: Deeper(g, lines[k], base)) && (j < |lines| ==> !Deeper(g, lines[j], base))
  }

  /** An item of that kind and indentation. */
  predicate ItemAs(g: Grammar, line: string, base: nat, ordered: bool) {
    match g.item(line)
    case Some(ItemLine(indent, number, _)) => indent == base && number == ordered
    case None => false
  }

  /** From `k` the items go on at `next`: past a blank line exactly if another item of that indentation follows it. */
  predicate GoesOn(g: Grammar, lines: seq<string>, k: nat, next: nat, base: nat)
    requires k <= |lines|
  {
    var gap := k + 1 < |lines| && g.blank(lines[k]) &&
               match g.item(lines[k + 1]) case Some(it) => it.indent == base case None => false;
    next == if gap then k + 1 else k
  }

  // ---- blocks, inside out ----------------------------------------------------------------------------------------

  /** The block holds the lines `i..j`, and could not hold more. */
  predicate Covers(g: Grammar, b: Block, lines: seq<string>, i: nat, j: nat)
    requires i < j <= |lines|
    decreases b, 0, 0
  {
    match b
    case Code(lang, body) => CodeCovers(g, lang, body, lines, i, j)
    case Title(level, text) => j == i + 1 && g.kind(lines[i]) == HeadingKind(level, text)
    case Line => j == i + 1 && g.kind(lines[i]).RuleKind?
    case Quoted(inner) =>
      g.kind(lines[i]).QuoteKind? && QuoteRun(g, lines, i, j) && CoversAll(g, inner, Inner(g, lines, i, j), 0)
    case Table(_, _, _) =>
      (g.kind(lines[i]).ItemKind? || g.kind(lines[i]).PlainKind?) && TableCovers(g, b, lines, i, j)
    case List(ordered, items) =>
      var kind := g.kind(lines[i]);
      && kind.ItemKind? && kind.ordered == ordered && !OverDashes(g, lines, i)
      && CoversItems(g, items, lines, i, j, kind.indent, ordered)
    case Para(para) => g.kind(lines[i]).PlainKind? && !OverDashes(g, lines, i) && ParaCovers(g, para, lines, i, j)
  }

  /** The blocks hold the lines from `i` on, one after the other, but for blank lines before, between and after them. */
  predicate CoversAll(g: Grammar, bs: seq<Block>, lines: seq<string>, i: nat)
    requires i <= |lines|
    decreases bs, 1, |lines| - i
  {
    if i == |lines| then bs == []
    else if g.blank(lines[i]) then CoversAll(g, bs, lines, i + 1)
    else bs != [] && exists j | i < j <= |lines| :: Covers(g, bs[0], lines, i, j) && CoversAll(g, bs[1..], lines, j)
  }

  /** The items hold the lines `i..j`: each its own, the deeper ones under it, read without the indentation, and a
      blank one before the next item; and the line after them is not such an item. */
  predicate CoversItems(g: Grammar, items: seq<ListItem>, lines: seq<string>, i: nat, j: nat, base: nat, ordered: bool)
    requires i <= j <= |lines|
    decreases items, 1, 0
  {
    if items == [] then i == j && (i == |lines| || !ItemAs(g, lines[i], base, ordered))
    else
      && i < j && ItemAs(g, lines[i], base, ordered) && items[0].text == g.item(lines[i]).value.text
      && exists k, next | i < k <= next <= j :: CoversItem(g, items, lines, i, k, next, j, base, ordered)
  }

  /** The first item has the lines `i + 1..k` under it. */
  predicate CoversItem(g: Grammar, items: seq<ListItem>, lines: seq<string>, i: nat, k: nat, next: nat, j: nat,
                       base: nat, ordered: bool)
    requires items != [] && i < k <= next <= j <= |lines|
    decreases items, 0, 0
  {
    && DeeperRun(g, lines, i + 1, k, base) && GoesOn(g, lines, k, next, base)
    && CoversAll(g, items[0].sub, Dedented(g, lines, i + 1, k, base), 0)
    && CoversItems(g, items[1..], lines, next, j, base, ordered)
  }

  // ---- the parser's blocks ---------------------------------------------------------------------------------------

  lemma CodeHeld(g: Grammar, lines: seq<string>, i: nat, lang: string, mark: string)
    requires i < |lines| && g.kind(lines[i]) == FenceKind(mark, lang)
    ensures var (b, j) := CodeAt(g, lines, i, lang, mark); Covers(g, b, lines, i, j)
  {
    var k := RunFrom(g, lines, i + 1, InFence(mark));
    var body := lines[i + 1..k];
    assert body == lines[i + 1..][..|body|];
    forall n | 0 <= n < |body| ensures !g.closes(body[n], mark) { assert Holds(g, InFence(mark), lines[i + 1 + n]); }
  }

  lemma TableHeld(g: Grammar, lines: seq<string>, i: nat)
    requires i < |lines| && HasTable(g, lines, i) && (g.kind(lines[i]).ItemKind? || g.kind(lines[i]).PlainKind?)
    ensures var (b, j) := TableAt(g, lines, i); Covers(g, b, lines, i, j)
  {
    var (b, j) := TableAt(g, lines, i);
    forall k | i + 2 <= k < j
      ensures b.rows[k - (i + 2)] == g.row(lines[k]) && !g.blank(lines[k]) && '|' in lines[k]
    {
      assert Holds(g, InTable, lines[k]) && lines[i + 2 + (k - (i + 2))] == lines[k];
    }
  }

  lemma ParaHeld(g: Grammar, lines: seq<string>, i: nat)
    requires i < |lines| && g.kind(lines[i]).PlainKind? && !HasTable(g, lines, i)
    ensures var (b, j) := ParaAt(g, lines, i); Covers(g, b, lines, i, j)
  {
    var j := RunFrom(g, lines, i + 1, InPara);
    assert forall k | i < k < j :: Holds(g, InPara, lines[k]);
  }

  lemma QuoteHeld(g: Grammar, lines: seq<string>, i: nat, j: nat, inner: seq<Block>)
    requires i < |lines| && g.kind(lines[i]).QuoteKind? && j == RunFrom(g, lines, i, InQuote)
    requires CoversAll(g, inner, Inner(g, lines, i, j), 0)
    ensures Covers(g, Quoted(inner), lines, i, j)
  {
    assert forall k | i <= k < j :: Holds(g, InQuote, lines[k]);
  }

  lemma ListHeld(g: Grammar, lines: seq<string>, i: nat, j: nat, base: nat, ordered: bool, items: seq<ListItem>)
    requires i < j <= |lines| && g.kind(lines[i]) == ItemKind(base, ordered) && !HasTable(g, lines, i)
    requires CoversItems(g, items, lines, i, j, base, ordered)
    ensures Covers(g, List(ordered, items), lines, i, j)
  {
  }

  /** One more item before a list. */
  lemma ItemHeld(g: Grammar, item: ListItem, more: seq<ListItem>, lines: seq<string>, i: nat, k: nat, j: nat, base: nat,
                 ordered: bool)
    requires i < k <= |lines| && k == RunFrom(g, lines, i + 1, InItem(base))
    requires PastGap(g, lines, k, base) <= j <= |lines|
    requires SameItem(g, lines[i], base, ordered) && item.text == g.item(lines[i]).value.text
    requires CoversAll(g, item.sub, Dedented(g, lines, i + 1, k, base), 0)
    requires CoversItems(g, more, lines, PastGap(g, lines, k, base), j, base, ordered)
    ensures CoversItems(g, [item] + more, lines, i, j, base, ordered)
  {
    var items := [item] + more;
    assert items[0] == item && items[1..] == more;
    assert forall n | i + 1 <= n < k :: Holds(g, InItem(base), lines[n]);
    GoesOnIs(g, lines, k, PastGap(g, lines, k, base), base);
    ItemAsIs(g, lines[i], base, ordered);
    assert CoversItem(g, items, lines, i, k, PastGap(g, lines, k, base), j, base, ordered);
  }

  lemma ItemAsIs(g: Grammar, line: string, base: nat, ordered: bool)
    ensures ItemAs(g, line, base, ordered) == SameItem(g, line, base, ordered)
  {
  }

  lemma GoesOnIs(g: Grammar, lines: seq<string>, k: nat, next: nat, base: nat)
    requires k <= |lines|
    ensures GoesOn(g, lines, k, next, base) <==> next == PastGap(g, lines, k, base)
  {
  }

  lemma NoItemHeld(g: Grammar, lines: seq<string>, i: nat, base: nat, ordered: bool)
    requires i <= |lines| && (i == |lines| || !SameItem(g, lines[i], base, ordered))
    ensures CoversItems(g, [], lines, i, i, base, ordered) && ItemsFrom(g, lines, i, base, ordered) == ([], i)
  {
    if i < |lines| { ItemAsIs(g, lines[i], base, ordered); }
  }

  /** The parts of the parser's first item. */
  lemma ItemParts(g: Grammar, lines: seq<string>, i: nat, base: nat, ordered: bool, items: seq<ListItem>, j: nat)
    returns (k: nat, next: nat, under: seq<string>, item: ListItem, more: seq<ListItem>)
    requires i < |lines| && SameItem(g, lines[i], base, ordered)
    requires (items, j) == ItemsFrom(g, lines, i, base, ordered)
    ensures i < k <= next <= j <= |lines| && k == RunFrom(g, lines, i + 1, InItem(base))
    ensures next == PastGap(g, lines, k, base) && under == Dedented(g, lines, i + 1, k, base)
    ensures Size(under) < Size(lines) && item == ListItem(g.item(lines[i]).value.text, Parse(g, under, 0))
    ensures items == [item] + more && (more, j) == ItemsFrom(g, lines, next, base, ordered)
  {
    k := RunFrom(g, lines, i + 1, InItem(base));
    next, under := PastGap(g, lines, k, base), Dedented(g, lines, i + 1, k, base);
    DedentedShrinks(g, lines, i + 1, k, base);
    item := ListItem(g.item(lines[i]).value.text, Parse(g, under, 0));
    more := ItemsFrom(g, lines, next, base, ordered).0;
    ItemIs(g, lines, i, base, ordered, k, item.sub, next, more, j);
  }

  lemma {:induction false} ItemsHeld(g: Grammar, lines: seq<string>, i: nat, base: nat, ordered: bool,
                                     items: seq<ListItem>, j: nat)
    requires i <= |lines| && (items, j) == ItemsFrom(g, lines, i, base, ordered)
    ensures CoversItems(g, items, lines, i, j, base, ordered)
    decreases Size(lines), |lines| - i, 0
  {
    if i < |lines| && SameItem(g, lines[i], base, ordered) {
      var k, next, under, item, more := ItemParts(g, lines, i, base, ordered, items, j);
      BlocksHeld(g, under, 0, item.sub);
      ItemsHeld(g, lines, next, base, ordered, more, j);
      ItemHeld(g, item, more, lines, i, k, j, base, ordered);
    } else {
      NoItemHeld(g, lines, i, base, ordered);
    }
  }

  lemma LeafHeld(g: Grammar, lines: seq<string>, i: nat)
    requires i < |lines| && !g.kind(lines[i]).QuoteKind? && (g.kind(lines[i]).ItemKind? ==> HasTable(g, lines, i))
    ensures var (b, j) := BlockAt(g, lines, i); Covers(g, b, lines, i, j)
  {
    var kind := g.kind(lines[i]);
    if kind.FenceKind? {
      CodeHeld(g, lines, i, kind.lang, kind.mark);
    } else if kind.ItemKind? || kind.PlainKind? {
      if HasTable(g, lines, i) { TableHeld(g, lines, i); } else { ParaHeld(g, lines, i); }
    }
  }

  lemma {:induction false} BlockHeld(g: Grammar, lines: seq<string>, i: nat, b: Block, j: nat)
    requires i < |lines| && (b, j) == BlockAt(g, lines, i)
    ensures Covers(g, b, lines, i, j)
    decreases Size(lines), |lines| - i, 1
  {
    var kind := g.kind(lines[i]);
    if kind.QuoteKind? {
      var k := RunFrom(g, lines, i, InQuote);
      InnerShrinks(g, lines, i, k);
      var q := Inner(g, lines, i, k);
      var inner := Parse(g, q, 0);
      QuoteIs(g, lines, i, k, inner);
      BlocksHeld(g, q, 0, inner);
      QuoteHeld(g, lines, i, k, inner);
    } else if kind.ItemKind? && !HasTable(g, lines, i) {
      var (items, end) := ItemsFrom(g, lines, i, kind.indent, kind.ordered);
      ListIs(g, lines, i, kind.indent, kind.ordered, items, end);
      ItemsHeld(g, lines, i, kind.indent, kind.ordered, items, end);
      ListHeld(g, lines, i, end, kind.indent, kind.ordered, items);
    } else {
      LeafHeld(g, lines, i);
    }
  }

  /** Whatever the lines, the parser's blocks hold them, down to every quote and every list. */
  lemma {:induction false} BlocksHeld(g: Grammar, lines: seq<string>, i: nat, bs: seq<Block>)
    requires i <= |lines| && bs == Parse(g, lines, i)
    ensures CoversAll(g, bs, lines, i)
    decreases Size(lines), |lines| - i, 2
  {
    if i < |lines| {
      if g.blank(lines[i]) {
        BlocksHeld(g, lines, i + 1, bs);
      } else {
        var (b, j) := BlockAt(g, lines, i);
        var more := Parse(g, lines, j);
        BlockHeld(g, lines, i, b, j);
        BlocksHeld(g, lines, j, more);
        assert ([b] + more)[1..] == more;
      }
    }
  }

  /** Nothing is left to choose: blocks that hold the same lines are the same. */
  lemma {:induction false} ContentIsUnique(g: Grammar, lines: seq<string>, i: nat, bs: seq<Block>)
    requires i <= |lines| && CoversAll(g, bs, lines, i)
    ensures bs == Parse(g, lines, i)
    decreases Size(lines), |lines| - i, 2
  {
    if i < |lines| {
      if g.blank(lines[i]) {
        ContentIsUnique(g, lines, i + 1, bs);
      } else {
        var j :| i < j <= |lines| && Covers(g, bs[0], lines, i, j) && CoversAll(g, bs[1..], lines, j);
        BlockIsUnique(g, lines, i, j, bs[0]);
        ContentIsUnique(g, lines, j, bs[1..]);
      }
    }
  }

  lemma CodeIsUnique(g: Grammar, lines: seq<string>, i: nat, j: nat, lang: string, body: seq<string>)
    requires i < j <= |lines| && CodeCovers(g, lang, body, lines, i, j)
    ensures (Code(lang, body), j) == CodeAt(g, lines, i, lang, g.kind(lines[i]).mark)
  {
    var mark, k := g.kind(lines[i]).mark, i + 1 + |body|;
    forall n | i + 1 <= n < k ensures Holds(g, InFence(mark), lines[n]) { assert body[n - (i + 1)] == lines[n]; }
    RunIs(g, lines, i + 1, InFence(mark), k);
    assert body == lines[i + 1..k];
  }

  lemma TableIsUnique(g: Grammar, lines: seq<string>, i: nat, j: nat, b: Block)
    requires b.Table? && i < j <= |lines| && TableCovers(g, b, lines, i, j)
    ensures (b, j) == TableAt(g, lines, i)
  {
    RunIs(g, lines, i + 2, InTable, j);
    var rows := Rows(g, lines, i + 2, j);
    forall n | 0 <= n < |rows| ensures b.rows[n] == rows[n] {
      var k := n + i + 2;
      assert b.rows[k - (i + 2)] == g.row(lines[k]);
    }
    assert b.rows == rows;
  }

  lemma LeafIsUnique(g: Grammar, lines: seq<string>, i: nat, j: nat, b: Block)
    requires i < j <= |lines| && Covers(g, b, lines, i, j) && !b.Quoted? && !b.List?
    ensures (b, j) == BlockAt(g, lines, i)
  {
    match b
    case Code(lang, body) => CodeIsUnique(g, lines, i, j, lang, body);
    case Table(_, _, _) => TableIsUnique(g, lines, i, j, b);
    case Para(_) => RunIs(g, lines, i + 1, InPara, j);
    case _ =>
  }

  lemma {:induction false} BlockIsUnique(g: Grammar, lines: seq<string>, i: nat, j: nat, b: Block)
    requires i < j <= |lines| && Covers(g, b, lines, i, j)
    ensures (b, j) == BlockAt(g, lines, i)
    decreases Size(lines), |lines| - i, 1
  {
    match b
    case Quoted(inner) =>
      RunIs(g, lines, i, InQuote, j);
      InnerShrinks(g, lines, i, j);
      ContentIsUnique(g, Inner(g, lines, i, j), 0, inner);
      QuoteIs(g, lines, i, j, inner);
    case List(ordered, items) =>
      var base := g.kind(lines[i]).indent;
      ItemsAreUnique(g, lines, i, j, base, ordered, items);
      ListIs(g, lines, i, base, ordered, items, j);
    case _ => LeafIsUnique(g, lines, i, j, b);
  }

  lemma FirstCovers(g: Grammar, lines: seq<string>, i: nat, j: nat, base: nat, ordered: bool, items: seq<ListItem>)
    returns (k: nat, next: nat)
    requires i <= j <= |lines| && items != [] && CoversItems(g, items, lines, i, j, base, ordered)
    ensures i < k <= next <= j && CoversItem(g, items, lines, i, k, next, j, base, ordered)
    ensures ItemAs(g, lines[i], base, ordered) && items[0].text == g.item(lines[i]).value.text
  {
    k, next :| i < k <= next <= j && CoversItem(g, items, lines, i, k, next, j, base, ordered);
  }

  lemma DeeperIs(g: Grammar, lines: seq<string>, i: nat, k: nat, base: nat)
    requires i <= k <= |lines| && DeeperRun(g, lines, i, k, base)
    ensures k == RunFrom(g, lines, i, InItem(base))
  {
    RunIs(g, lines, i, InItem(base), k);
  }

  /** What the first of some items holds. */
  lemma FirstItem(g: Grammar, lines: seq<string>, i: nat, j: nat, base: nat, ordered: bool, items: seq<ListItem>)
    returns (k: nat, next: nat, under: seq<string>)
    requires i <= j <= |lines| && items != [] && CoversItems(g, items, lines, i, j, base, ordered)
    ensures i < k <= next <= j && SameItem(g, lines[i], base, ordered) && items[0].text == g.item(lines[i]).value.text
    ensures k == RunFrom(g, lines, i + 1, InItem(base)) && next == PastGap(g, lines, k, base)
    ensures under == Dedented(g, lines, i + 1, k, base) && Size(under) < Size(lines)
    ensures CoversAll(g, items[0].sub, under, 0) && CoversItems(g, items[1..], lines, next, j, base, ordered)
  {
    k, next := FirstCovers(g, lines, i, j, base, ordered, items);
    ItemAsIs(g, lines[i], base, ordered);
    GoesOnIs(g, lines, k, next, base);
    DeeperIs(g, lines, i + 1, k, base);
    under := Dedented(g, lines, i + 1, k, base);
    DedentedShrinks(g, lines, i + 1, k, base);
  }

  lemma ItemAgain(g: Grammar, lines: seq<string>, i: nat, j: nat, base: nat, ordered: bool, items: seq<ListItem>,
                  k: nat, next: nat, under: seq<string>)
    requires i < |lines| && items != [] && SameItem(g, lines[i], base, ordered)
    requires items[0].text == g.item(lines[i]).value.text && k == RunFrom(g, lines, i + 1, InItem(base))
    requires next == PastGap(g, lines, k, base) && under == Dedented(g, lines, i + 1, k, base)
    requires items[0].sub == Parse(g, under, 0) && (items[1..], j) == ItemsFrom(g, lines, next, base, ordered)
    ensures (items, j) == ItemsFrom(g, lines, i, base, ordered)
  {
    ItemIs(g, lines, i, base, ordered, k, items[0].sub, next, items[1..], j);
    assert items == [ListItem(items[0].text, items[0].sub)] + items[1..];
  }

  lemma {:induction false} ItemsAreUnique(g: Grammar, lines: seq<string>, i: nat, j: nat, base: nat, ordered: bool,
                                          items: seq<ListItem>)
    requires i <= j <= |lines| && CoversItems(g, items, lines, i, j, base, ordered)
    ensures (items, j) == ItemsFrom(g, lines, i, base, ordered)
    decreases Size(lines), |lines| - i, 0
  {
    if items != [] {
      var k, next, under := FirstItem(g, lines, i, j, base, ordered, items);
      ContentIsUnique(g, under, 0, items[0].sub);
      ItemsAreUnique(g, lines, next, j, base, ordered, items[1..]);
      ItemAgain(g, lines, i, j, base, ordered, items, k, next, under);
    }
  }
}
