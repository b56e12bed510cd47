/** The line diff of the config editor: common head and tail, a flat table of suffix lengths, a greedy walk. */
module LineDiff {
  import opened Text

  newtype uint32 = x: int | 0 <= x < 0x1_0000_0000

  const MAX_CELLS: nat := 4_000_000

  datatype Mark = Keep | Del | Ins
  datatype Op = Op(mark: Mark, text: string)

  // ---- scripts -----------------------------------------------------------------------------------------------

  /** The lines of a script other than those marked `skip`. */
  function Without(skip: Mark, ops: seq<Op>): seq<string> {
    if ops == [] then [] else (if ops[0].mark == skip then [] else [ops[0].text]) + Without(skip, ops[1..])
  }

  /** The text before the edits: kept and deleted lines. */
  function Before(ops: seq<Op>): seq<string> { Without(Ins, ops) }

  /** The text after the edits: kept and inserted lines. */
  function After(ops: seq<Op>): seq<string> { Without(Del, ops) }

  function Kept(ops: seq<Op>): nat {
    if ops == [] then 0 else (if ops[0].mark.Keep? then 1 else 0) + Kept(ops[1..])
  }

  predicate Turns(ops: seq<Op>, x: seq<string>, y: seq<string>) { Before(ops) == x && After(ops) == y }

  lemma WithoutCons(skip: Mark, op: Op, rest: seq<Op>)
    ensures Without(skip, [op] + rest) == (if op.mark == skip then [] else [op.text]) + Without(skip, rest)
  {
    assert ([op] + rest)[1..] == rest;
  }

  lemma LinesJoined(a: seq<string>, b: seq<string>, c: seq<string>)
    ensures a + (b + c) == a + b + c
  {
  }

  lemma {:induction false} WithoutAppend(skip: Mark, a: seq<Op>, b: seq<Op>)
    ensures Without(skip, a + b) == Without(skip, a) + Without(skip, b)
  {
    if a == [] {
      assert a + b == b;
    } else {
      var op, rest := a[0], a[1..];
      assert a == [op] + rest && a + b == [op] + (rest + b);
      WithoutAppend(skip, rest, b);
      WithoutCons(skip, op, rest);
      WithoutCons(skip, op, rest + b);
      LinesJoined(if op.mark == skip then [] else [op.text], Without(skip, rest), Without(skip, b));
    }
  }

  lemma {:induction false} KeptAppend(a: seq<Op>, b: seq<Op>)
    ensures Kept(a + b) == Kept(a) + Kept(b)
  {
    if a == [] {
      assert a + b == b;
    } else {
      assert (a + b)[1..] == a[1..] + b;
      KeptAppend(a[1..], b);
    }
  }

  lemma ScriptAppend(a: seq<Op>, b: seq<Op>)
    ensures Before(a + b) == Before(a) + Before(b)
    ensures After(a + b) == After(a) + After(b)
    ensures Kept(a + b) == Kept(a) + Kept(b)
  {
    WithoutAppend(Ins, a, b);
    WithoutAppend(Del, a, b);
    KeptAppend(a, b);
  }

  lemma One(op: Op)
    ensures Before([op]) == if op.mark.Ins? then [] else [op.text]
    ensures After([op]) == if op.mark.Del? then [] else [op.text]
    ensures Kept([op]) == if op.mark.Keep? then 1 else 0
  {
    assert [op][1..] == [];
    assert Without(Ins, [op]) == (if op.mark.Ins? then [] else [op.text]) + Without(Ins, []);
    assert Without(Del, [op]) == (if op.mark.Del? then [] else [op.text]) + Without(Del, []);
  }

  function Marked(mark: Mark, lines: seq<string>): (ops: seq<Op>)
    ensures |ops| == |lines| && forall k | 0 <= k < |ops| :: ops[k] == Op(mark, lines[k])
  {
    seq(|lines|, k requires 0 <= k < |lines| => Op(mark, lines[k]))
  }

  lemma {:induction false} MarkedMeans(mark: Mark, lines: seq<string>)
    ensures Before(Marked(mark, lines)) == if mark.Ins? then [] else lines
    ensures After(Marked(mark, lines)) == if mark.Del? then [] else lines
    ensures Kept(Marked(mark, lines)) == if mark.Keep? then |lines| else 0
  {
    if lines != [] {
      assert Marked(mark, lines)[1..] == Marked(mark, lines[1..]);
      MarkedMeans(mark, lines[1..]);
    }
  }

  // ---- the length of a longest common subsequence ---------------------------------------------------------------

  function Lcs(x: seq<string>, y: seq<string>): nat
    decreases |x| + |y|
  {
    if x == [] || y == [] then 0
    else if x[0] == y[0] then Lcs(x[1..], y[1..]) + 1
    else Max(Lcs(x[1..], y), Lcs(x, y[1..]))
  }

  /** Dropping one line costs at most one. */
  lemma {:induction false} LcsDrop(x: seq<string>, y: seq<string>)
    ensures x != [] ==> Lcs(x[1..], y) <= Lcs(x, y) <= Lcs(x[1..], y) + 1
    ensures y != [] ==> Lcs(x, y[1..]) <= Lcs(x, y) <= Lcs(x, y[1..]) + 1
    decreases |x| + |y|
  {
    if x != [] && y != [] {
      LcsDrop(x[1..], y);
      LcsDrop(x, y[1..]);
      LcsDrop(x[1..], y[1..]);
    }
  }

  /** No script keeps more lines than `Lcs`. */
  lemma {:induction false} NoneKeepsMore(ops: seq<Op>, x: seq<string>, y: seq<string>)
    requires Turns(ops, x, y)
    ensures Kept(ops) <= Lcs(x, y)
  {
    if ops != [] {
      var rest := ops[1..];
      LcsDrop(x, y);
      match ops[0].mark
      case Keep =>
        assert x[1..] == Before(rest) && y[1..] == After(rest);
        NoneKeepsMore(rest, x[1..], y[1..]);
      case Del =>
        assert x[1..] == Before(rest);
        NoneKeepsMore(rest, x[1..], y);
      case Ins =>
        assert y[1..] == After(rest);
        NoneKeepsMore(rest, x, y[1..]);
    }
  }

  lemma {:induction false} LcsHead(h: seq<string>, x: seq<string>, y: seq<string>)
    ensures Lcs(h + x, h + y) == |h| + Lcs(x, y)
  {
    if h == [] {
      assert h + x == x && h + y == y;
    } else {
      assert (h + x)[1..] == h[1..] + x && (h + y)[1..] == h[1..] + y;
      LcsHead(h[1..], x, y);
    }
  }

  lemma {:induction false} LcsLast(x: seq<string>, y: seq<string>, c: string)
    ensures Lcs(x + [c], y + [c]) == Lcs(x, y) + 1
    decreases |x| + |y|
  {
    var x', y' := x + [c], y + [c];
    assert x != [] ==> x'[1..] == x[1..] + [c];
    assert y != [] ==> y'[1..] == y[1..] + [c];
    if x == [] && y == [] {
    } else if x == [] {
      assert x'[1..] == [];
      LcsLast(x, y[1..], c);
    } else if y == [] {
      assert y'[1..] == [];
      LcsLast(x[1..], y, c);
    } else if x[0] == y[0] {
      LcsLast(x[1..], y[1..], c);
    } else {
      LcsLast(x[1..], y, c);
      LcsLast(x, y[1..], c);
    }
  }

  lemma {:induction false} LcsTail(x: seq<string>, y: seq<string>, t: seq<string>)
    ensures Lcs(x + t, y + t) == Lcs(x, y) + |t|
    decreases |t|
  {
    if t == [] {
      assert x + t == x && y + t == y;
    } else {
      assert x + t == (x + [t[0]]) + t[1..] && y + t == (y + [t[0]]) + t[1..];
      LcsTail(x + [t[0]], y + [t[0]], t[1..]);
      LcsLast(x, y, t[0]);
    }
  }

  lemma {:induction false} LcsBound(x: seq<string>, y: seq<string>)
    ensures Lcs(x, y) <= |x| && Lcs(x, y) <= |y|
    decreases |x| + |y|
  {
    if x != [] && y != [] {
      LcsBound(x[1..], y[1..]);
      LcsBound(x[1..], y);
      LcsBound(x, y[1..]);
    }
  }

  // ---- the algorithm ---------------------------------------------------------------------------------------------

  /** Lengths of the common head and, after it, of the common tail, as the two scans find them. */
  predicate Stripped(x: seq<string>, y: seq<string>, s: nat, e: nat) {
    && s + e <= |x| && s + e <= |y|
    && x[..s] == y[..s] && x[|x| - e..] == y[|y| - e..]
    && (s < |x| && s < |y| ==> x[s] != y[s])
    && (s + e < |x| && s + e < |y| ==> x[|x| - 1 - e] != y[|y| - 1 - e])
  }

  method Strip(x: seq<string>, y: seq<string>) returns (s: nat, e: nat)
    ensures Stripped(x, y, s, e)
  {
    s := 0;
    while s < |x| && s < |y| && x[s] == y[s]
      invariant s <= |x| && s <= |y| && x[..s] == y[..s]
    {
      HeadGrows(x, y, s);
      s := s + 1;
    }
    e := 0;
    while e < |x| - s && e < |y| - s && x[|x| - 1 - e] == y[|y| - 1 - e]
      invariant s + e <= |x| && s + e <= |y|
      invariant x[|x| - e..] == y[|y| - e..]
    {
      TailGrows(x, y, e);
      e := e + 1;
    }
  }

  lemma HeadGrows(x: seq<string>, y: seq<string>, s: nat)
    requires s < |x| && s < |y| && x[..s] == y[..s] && x[s] == y[s]
    ensures x[..s + 1] == y[..s + 1]
  {
    assert x[..s + 1] == x[..s] + [x[s]] && y[..s + 1] == y[..s] + [y[s]];
  }

  lemma TailGrows(x: seq<string>, y: seq<string>, e: nat)
    requires e < |x| && e < |y| && x[|x| - e..] == y[|y| - e..] && x[|x| - 1 - e] == y[|y| - 1 - e]
    ensures x[|x| - (e + 1)..] == y[|y| - (e + 1)..]
  {
    assert x[|x| - (e + 1)..] == [x[|x| - 1 - e]] + x[|x| - e..];
    assert y[|y| - (e + 1)..] == [y[|y| - 1 - e]] + y[|y| - e..];
  }

  lemma HeadsAgree(x: seq<string>, y: seq<string>, s: nat, k: nat)
    requires k < s <= |x| && s <= |y| && x[..s] == y[..s]
    ensures x[k] == y[k]
  {
    assert x[..s][k] == y[..s][k];
  }

  lemma TailsAgree(x: seq<string>, y: seq<string>, e: nat, k: nat)
    requires k < e <= |x| && e <= |y| && x[|x| - e..] == y[|y| - e..]
    ensures x[|x| - 1 - k] == y[|y| - 1 - k]
  {
    assert x[|x| - e..][e - 1 - k] == y[|y| - e..][e - 1 - k];
  }

  lemma StrippedIsUnique(x: seq<string>, y: seq<string>, s: nat, e: nat, s2: nat, e2: nat)
    requires Stripped(x, y, s, e) && Stripped(x, y, s2, e2)
    ensures s == s2 && e == e2
  {
    if s < s2 { HeadsAgree(x, y, s2, s); }
    if s2 < s { HeadsAgree(x, y, s, s2); }
    if e < e2 { TailsAgree(x, y, e2, e); }
    if e2 < e { TailsAgree(x, y, e, e2); }
  }

  lemma LcsMiddle(h: seq<string>, x: seq<string>, y: seq<string>, t: seq<string>)
    ensures Lcs(h + x + t, h + y + t) == |h| + Lcs(x, y) + |t|
  {
    LcsHead(h, x, y);
    LcsTail(h + x, h + y, t);
  }

  /** Taking the common head and tail off loses nothing of the optimum. */
  lemma StrippedLcs(x: seq<string>, y: seq<string>, s: nat, e: nat)
    requires Stripped(x, y, s, e)
    ensures Lcs(x, y) == s + Lcs(x[s..|x| - e], y[s..|y| - e]) + e
  {
    var h, xm, ym, t := x[..s], x[s..|x| - e], y[s..|y| - e], x[|x| - e..];
    Reassembled(x, h, s, |x| - e);
    Reassembled(y, h, s, |y| - e);
    LcsMiddle(h, xm, ym, t);
  }

  lemma Reassembled(x: seq<string>, h: seq<string>, s: nat, k: nat)
    requires s <= k <= |x| && h == x[..s]
    ensures h + x[s..k] + x[k..] == x
  {
  }

  /** The place of cell (i, j) in the flat table of rows of `m + 1`. */
  function At(m: nat, i: nat, j: nat): nat { i * (m + 1) + j }

  lemma AtInRange(n: nat, m: nat, i: nat, j: nat)
    requires i <= n && j <= m
    ensures At(m, i, j) < (n + 1) * (m + 1)
  {
    assert i * (m + 1) <= n * (m + 1);
  }

  lemma RowsFollow(m: nat, i: nat, j: nat, i2: nat)
    requires i < i2 && j <= m
    ensures At(m, i, j) < At(m, i2, 0)
  {
    assert (i + 1) * (m + 1) <= i2 * (m + 1);
    assert (i + 1) * (m + 1) == i * (m + 1) + m + 1;
  }

  lemma AtIsInjective(m: nat, i: nat, j: nat, i2: nat, j2: nat)
    requires j <= m && j2 <= m && At(m, i, j) == At(m, i2, j2)
    ensures i == i2 && j == j2
  {
    if i < i2 { RowsFollow(m, i, j, i2); }
    if i2 < i { RowsFollow(m, i2, j2, i); }
  }

  /** Cell (i, j) of the table `t` holds the length for the suffixes from i and j. */
  predicate Cell(t: seq<uint32>, x: seq<string>, y: seq<string>, i: nat, j: nat)
    requires i <= |x| && j <= |y|
  {
    At(|y|, i, j) < |t| && t[At(|y|, i, j)] as int == Lcs(x[i..], y[j..])
  }

  /** The table is right from row `i`, column `j` on, and on its zero margins. */
  predicate Filled(t: seq<uint32>, x: seq<string>, y: seq<string>, i: int, j: nat) {
    |t| == (|x| + 1) * (|y| + 1) &&
    forall i2: nat, j2: nat | i2 <= |x| && j2 <= |y| &&
      (i2 == |x| || j2 == |y| || i2 > i || (i2 == i && j2 >= j)) :: Cell(t, x, y, i2, j2)
  }

  predicate Fits(n: nat, m: nat) { (n + 1) * (m + 1) <= MAX_CELLS }

  /** No cell of a table that fits overflows. */
  lemma LengthFits(x: seq<string>, y: seq<string>, i: nat, j: nat)
    requires Fits(|x|, |y|) && i <= |x| && j <= |y|
    ensures Lcs(x[i..], y[j..]) < MAX_CELLS
  {
    assert |y| + 1 <= (|x| + 1) * (|y| + 1);
    LcsBound(x[i..], y[j..]);
  }

  method NewTable(x: seq<string>, y: seq<string>) returns (L: array<uint32>)
    ensures fresh(L) && Filled(L[..], x, y, |x|, 0)
  {
    var size := (|x| + 1) * (|y| + 1);
    L := new uint32[size](_ => 0);
    forall i2: nat, j2: nat | i2 <= |x| && j2 <= |y| && (i2 == |x| || j2 == |y|) ensures Cell(L[..], x, y, i2, j2) {
      AtInRange(|x|, |y|, i2, j2);
    }
  }

  /** The recurrence of the table. */
  lemma CellValue(x: seq<string>, y: seq<string>, i: nat, j: nat)
    requires i < |x| && j < |y|
    ensures Lcs(x[i..], y[j..]) ==
      if x[i] == y[j] then Lcs(x[i + 1..], y[j + 1..]) + 1
      else Max(Lcs(x[i + 1..], y[j..]), Lcs(x[i..], y[j + 1..]))
  {
    assert x[i..][1..] == x[i + 1..] && y[j..][1..] == y[j + 1..];
  }

  /** Writing the right value at (i, j) extends the filled part by that cell. */
  lemma CellWritten(t: seq<uint32>, x: seq<string>, y: seq<string>, i: nat, j: nat, v: uint32)
    requires i < |x| && j < |y| && Filled(t, x, y, i, j + 1)
    requires At(|y|, i, j) < |t| && v as int == Lcs(x[i..], y[j..])
    ensures Filled(t[At(|y|, i, j) := v], x, y, i, j)
  {
    var t' := t[At(|y|, i, j) := v];
    forall i2: nat, j2: nat | i2 <= |x| && j2 <= |y| &&
      (i2 == |x| || j2 == |y| || i2 > i || (i2 == i && j2 >= j)) ensures Cell(t', x, y, i2, j2)
    {
      if i2 != i || j2 != j {
        assert Cell(t, x, y, i2, j2);
        if At(|y|, i2, j2) == At(|y|, i, j) { AtIsInjective(|y|, i, j, i2, j2); }
      }
    }
  }

  method SetCell(L: array<uint32>, x: seq<string>, y: seq<string>, i: nat, j: nat)
    requires i < |x| && j < |y| && Filled(L[..], x, y, i, j + 1) && Fits(|x|, |y|)
    modifies L
    ensures Filled(L[..], x, y, i, j)
  {
    ghost var t := L[..];
    assert Cell(t, x, y, i + 1, j + 1) && Cell(t, x, y, i + 1, j) && Cell(t, x, y, i, j + 1);
    LengthFits(x, y, i + 1, j + 1);
    AtInRange(|x|, |y|, i, j);
    CellValue(x, y, i, j);
    var w := |y| + 1;
    var v;
    if x[i] == y[j] {
      v := L[(i + 1) * w + j + 1] + 1;
    } else {
      var below, right := L[(i + 1) * w + j], L[i * w + j + 1];
      v := if below >= right then below else right;
    }
    CellWritten(t, x, y, i, j, v);
    L[i * w + j] := v;
    assert L[..] == t[At(|y|, i, j) := v];
  }

  method Fill(x: seq<string>, y: seq<string>) returns (L: array<uint32>)
    requires Fits(|x|, |y|)
    ensures fresh(L) && Filled(L[..], x, y, 0, 0)
  {
    L := NewTable(x, y);
    var i := |x|;
    while i > 0
      invariant 0 <= i <= |x| && fresh(L) && Filled(L[..], x, y, i, 0)
    {
      i := i - 1;
      var j := |y|;
      while j > 0
        invariant 0 <= j <= |y| && fresh(L) && Filled(L[..], x, y, i, j)
      {
        j := j - 1;
        SetCell(L, x, y, i, j);
      }
    }
  }

  /** What the greedy walk has written when it stands at (i, j): a script of the lines passed that can still be
      completed to an optimal one. */
  ghost predicate OnCourse(out: seq<Op>, x: seq<string>, y: seq<string>, i: nat, j: nat) {
    i <= |x| && j <= |y| && Turns(out, x[..i], y[..j]) &&
    Kept(out) + Lcs(x[i..], y[j..]) == Lcs(x, y)
  }

  lemma Advance(out: seq<Op>, x: seq<string>, y: seq<string>, i: nat, j: nat, mark: Mark)
    requires OnCourse(out, x, y, i, j)
    requires mark.Keep? ==> i < |x| && j < |y| && x[i] == y[j]
    requires mark.Del? ==> i < |x| && Lcs(x[i..], y[j..]) == Lcs(x[i + 1..], y[j..])
    requires mark.Ins? ==> j < |y| && Lcs(x[i..], y[j..]) == Lcs(x[i..], y[j + 1..])
    ensures OnCourse(out + [Op(mark, if mark.Ins? then y[j] else x[i])], x, y,
                     if mark.Ins? then i else i + 1, if mark.Del? then j else j + 1)
  {
    var op := Op(mark, if mark.Ins? then y[j] else x[i]);
    ScriptAppend(out, [op]);
    One(op);
    if mark.Ins? { assert x[..i] + [] == x[..i]; }
    if mark.Del? { assert y[..j] + [] == y[..j]; }
    if !mark.Ins? { assert x[..i + 1] == x[..i] + [x[i]] && x[i..][1..] == x[i + 1..]; }
    if !mark.Del? { assert y[..j + 1] == y[..j] + [y[j]] && y[j..][1..] == y[j + 1..]; }
  }

  /** Where lines were changed, the removed ones come before the added ones. */
  predicate RemovedFirst(out: seq<Op>) {
    forall k | 0 < k < |out| && out[k].mark.Del? :: !out[k - 1].mark.Ins?
  }

  /** After an added line, removing one would lose a kept one. */
  predicate AddsOn(out: seq<Op>, x: seq<string>, y: seq<string>, i: nat, j: nat)
    requires i <= |x| && j <= |y|
  {
    out != [] && out[|out| - 1].mark.Ins? && i < |x| ==> Lcs(x[i + 1..], y[j..]) < Lcs(x[i..], y[j..])
  }

  ghost predicate InOrder(out: seq<Op>, x: seq<string>, y: seq<string>, i: nat, j: nat) {
    OnCourse(out, x, y, i, j) && RemovedFirst(out) && AddsOn(out, x, y, i, j)
  }

  lemma OneMoreOp(out: seq<Op>, op: Op)
    requires RemovedFirst(out) && (op.mark.Del? ==> out == [] || !out[|out| - 1].mark.Ins?)
    ensures RemovedFirst(out + [op]) && (out + [op])[|out|] == op
  {
  }

  lemma KeepLine(out: seq<Op>, x: seq<string>, y: seq<string>, i: nat, j: nat)
    requires InOrder(out, x, y, i, j) && i < |x| && j < |y| && x[i] == y[j]
    ensures InOrder(out + [Op(Keep, x[i])], x, y, i + 1, j + 1)
  {
    Advance(out, x, y, i, j, Keep);
    OneMoreOp(out, Op(Keep, x[i]));
  }

  /** A line is removed only where that keeps as many as adding one would. */
  lemma RemoveLine(out: seq<Op>, x: seq<string>, y: seq<string>, i: nat, j: nat)
    requires InOrder(out, x, y, i, j) && i < |x|
    requires j < |y| ==> x[i] != y[j] && Lcs(x[i + 1..], y[j..]) >= Lcs(x[i..], y[j + 1..])
    ensures InOrder(out + [Op(Del, x[i])], x, y, i + 1, j)
  {
    if j < |y| { CellValue(x, y, i, j); }
    Advance(out, x, y, i, j, Del);
    OneMoreOp(out, Op(Del, x[i]));
  }

  lemma AddLine(out: seq<Op>, x: seq<string>, y: seq<string>, i: nat, j: nat)
    requires InOrder(out, x, y, i, j) && j < |y|
    requires i < |x| ==> x[i] != y[j] && Lcs(x[i + 1..], y[j..]) < Lcs(x[i..], y[j + 1..])
    ensures InOrder(out + [Op(Ins, y[j])], x, y, i, j + 1)
  {
    if i < |x| {
      CellValue(x, y, i, j);
      LcsDrop(x[i + 1..], y[j..]);
      assert y[j..][1..] == y[j + 1..];
    }
    Advance(out, x, y, i, j, Ins);
    OneMoreOp(out, Op(Ins, y[j]));
  }

  /** What the table says at a difference: removing keeps at least as many lines as adding. */
  method ToRemove(L: array<uint32>, x: seq<string>, y: seq<string>, i: nat, j: nat) returns (yes: bool)
    requires Filled(L[..], x, y, 0, 0) && i < |x| && j < |y|
    ensures yes <==> Lcs(x[i + 1..], y[j..]) >= Lcs(x[i..], y[j + 1..])
  {
    var w := |y| + 1;
    assert Cell(L[..], x, y, i + 1, j) && Cell(L[..], x, y, i, j + 1);
    yes := L[(i + 1) * w + j] >= L[i * w + j + 1];
  }

  /** What is left of one text, once the other has no more lines. */
  method WalkEnd(x: seq<string>, y: seq<string>, from: seq<Op>, i: nat, j: nat) returns (out: seq<Op>)
    requires InOrder(from, x, y, i, j) && (i == |x| || j == |y|)
    ensures Turns(out, x, y) && Kept(out) == Lcs(x, y) && RemovedFirst(out)
  {
    out := from;
    var i, j := i, j;
    while i < |x|
      invariant InOrder(out, x, y, i, j) && (i < |x| ==> j == |y|)
    {
      RemoveLine(out, x, y, i, j);
      out := out + [Op(Del, x[i])];
      i := i + 1;
    }
    while j < |y|
      invariant InOrder(out, x, y, i, j) && i == |x|
    {
      AddLine(out, x, y, i, j);
      out := out + [Op(Ins, y[j])];
      j := j + 1;
    }
    assert x[..i] == x && y[..j] == y;
  }

  method Walk(L: array<uint32>, x: seq<string>, y: seq<string>) returns (out: seq<Op>)
    requires Filled(L[..], x, y, 0, 0)
    ensures Turns(out, x, y) && Kept(out) == Lcs(x, y) && RemovedFirst(out)
  {
    out := [];
    var i, j := 0, 0;
    while i < |x| && j < |y|
      invariant InOrder(out, x, y, i, j)
      decreases |x| - i + |y| - j
    {
      if x[i] == y[j] {
        KeepLine(out, x, y, i, j);
        out := out + [Op(Keep, x[i])];
        i, j := i + 1, j + 1;
      } else {
        var remove := ToRemove(L, x, y, i, j);
        if remove {
          RemoveLine(out, x, y, i, j);
          out := out + [Op(Del, x[i])];
          i := i + 1;
        } else {
          AddLine(out, x, y, i, j);
          out := out + [Op(Ins, y[j])];
          j := j + 1;
        }
      }
    }
    out := WalkEnd(x, y, out, i, j);
  }

  /** A script from `x` to `y` that keeps as many lines as any, and as many as a longest common subsequence has, and
      removes before it adds. */
  ghost predicate Best(out: seq<Op>, x: seq<string>, y: seq<string>) {
    && Turns(out, x, y) && Kept(out) == Lcs(x, y)
    && (forall ops | Turns(ops, x, y) :: Kept(ops) <= Kept(out))
    && RemovedFirst(out)
  }

  /** The diff of two texts: a script from the lines of `a` to those of `b` that keeps as many lines as any script can,
      or nothing when the table of the stripped texts would pass MAX_CELLS. */
  method LineDiff(a: string, b: string) returns (r: Option<seq<Op>>, ghost s: nat, ghost e: nat)
    ensures Stripped(Split(a, '\n'), Split(b, '\n'), s, e)
    ensures r.None? <==> !Fits(|Split(a, '\n')| - s - e, |Split(b, '\n')| - s - e)
    ensures r.Some? ==> Best(r.value, Split(a, '\n'), Split(b, '\n'))
  {
    r, s, e := DiffLines(Split(a, '\n'), Split(b, '\n'));
  }

  method DiffLines(x: seq<string>, y: seq<string>) returns (r: Option<seq<Op>>, ghost s: nat, ghost e: nat)
    ensures Stripped(x, y, s, e)
    ensures r.None? <==> !Fits(|x| - s - e, |y| - s - e)
    ensures r.Some? ==> Best(r.value, x, y)
  {
    var head, tail := Strip(x, y);
    s, e := head, tail;
    var xm, ym := x[head..|x| - tail], y[head..|y| - tail];
    if (|xm| + 1) * (|ym| + 1) > MAX_CELLS { return None, s, e; }
    var L := Fill(xm, ym);
    var mid := Walk(L, xm, ym);
    var out := Marked(Keep, x[..head]) + mid + Marked(Keep, x[|x| - tail..]);
    Assembled(x, y, head, tail, mid);
    OrderAround(x[..head], x[|x| - tail..], mid);
    Optimal(out, x, y);
    r := Some(out);
  }

  lemma Optimal(out: seq<Op>, x: seq<string>, y: seq<string>)
    requires Kept(out) == Lcs(x, y)
    ensures forall ops | Turns(ops, x, y) :: Kept(ops) <= Kept(out)
  {
    forall ops | Turns(ops, x, y) ensures Kept(ops) <= Kept(out) { NoneKeepsMore(ops, x, y); }
  }

  /** The kept head, an optimal script of the middle and the kept tail make an optimal script of the whole. */
  lemma Assembled(x: seq<string>, y: seq<string>, s: nat, e: nat, mid: seq<Op>)
    requires Stripped(x, y, s, e) && Turns(mid, x[s..|x| - e], y[s..|y| - e])
    requires Kept(mid) == Lcs(x[s..|x| - e], y[s..|y| - e])
    ensures var out := Marked(Keep, x[..s]) + mid + Marked(Keep, x[|x| - e..]);
      Turns(out, x, y) && Kept(out) == Lcs(x, y)
  {
    var h, t := x[..s], x[|x| - e..];
    KeptAround(h, x[s..|x| - e], y[s..|y| - e], t, mid);
    Reassembled(x, h, s, |x| - e);
    Reassembled(y, h, s, |y| - e);
    StrippedLcs(x, y, s, e);
  }

  lemma OrderAround(h: seq<string>, t: seq<string>, mid: seq<Op>)
    requires RemovedFirst(mid)
    ensures RemovedFirst(Marked(Keep, h) + mid + Marked(Keep, t))
  {
    var out := Marked(Keep, h) + mid + Marked(Keep, t);
    forall k | 0 < k < |out| && out[k].mark.Del? ensures !out[k - 1].mark.Ins? {
      var m := k - |h|;
      assert 0 <= m < |mid| && out[k] == mid[m];
      if m > 0 { assert out[k - 1] == mid[m - 1]; } else { assert out[k - 1] == Marked(Keep, h)[k - 1]; }
    }
  }

  /** A kept head, a middle script and a kept tail make a script of the whole. */
  lemma KeptAround(h: seq<string>, xm: seq<string>, ym: seq<string>, t: seq<string>, mid: seq<Op>)
    requires Turns(mid, xm, ym)
    ensures var out := Marked(Keep, h) + mid + Marked(Keep, t);
      Turns(out, h + xm + t, h + ym + t) && Kept(out) == |h| + Kept(mid) + |t|
  {
    MarkedMeans(Keep, h);
    MarkedMeans(Keep, t);
    ScriptAppend(Marked(Keep, h), mid);
    ScriptAppend(Marked(Keep, h) + mid, Marked(Keep, t));
  }
}
