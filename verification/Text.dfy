/** String operations shared by the models: splitting, joining, searching and trimming. */
module Text {

  datatype Option<+T> = None | Some(value: T)

  function Min(a: int, b: int): int { if a <= b then a else b }

  function Max(a: int, b: int): int { if a >= b then a else b }

  function IndexFrom(s: string, c: char, from: nat): (i: nat)
    requires from <= |s|
    ensures from <= i <= |s|
    ensures i < |s| ==> s[i] == c
    ensures forall k | from <= k < i :: s[k] != c
    decreases |s| - from
  {
    if from == |s| || s[from] == c then from else IndexFrom(s, c, from + 1)
  }

  /** The first position of `c` in `s`, or `|s|` when there is none. */
  function IndexOf(s: string, c: char): nat { IndexFrom(s, c, 0) }

  function IndexFrom2(s: string, a: char, b: char, from: nat): (i: nat)
    requires from <= |s|
    ensures from <= i <= |s|
    ensures i < |s| ==> i + 1 < |s| && s[i] == a && s[i + 1] == b
    ensures forall k | from <= k < i && k + 1 < |s| :: s[k] == a ==> s[k + 1] != b
    decreases |s| - from
  {
    if from == |s| || (from + 1 < |s| && s[from] == a && s[from + 1] == b) then from
    else IndexFrom2(s, a, b, from + 1)
  }

  /** The first position of `a` directly followed by `b`, or `|s|` when there is none. */
  function IndexOf2(s: string, a: char, b: char): nat { IndexFrom2(s, a, b, 0) }

  lemma IndexOfIs(s: string, c: char, i: nat)
    requires i <= |s|
    requires i < |s| ==> s[i] == c
    requires forall k | 0 <= k < i :: s[k] != c
    ensures IndexOf(s, c) == i
  {
  }

  lemma IndexOf2Is(s: string, a: char, b: char, i: nat)
    requires i <= |s|
    requires i < |s| ==> i + 1 < |s| && s[i] == a && s[i + 1] == b
    requires forall k | 0 <= k < i && k + 1 < |s| :: s[k] == a ==> s[k + 1] != b
    ensures IndexOf2(s, a, b) == i
  {
  }

  /** `s` cut at every `c`: always at least one piece. */
  function Split(s: string, c: char): (r: seq<string>)
    ensures |r| >= 1
  {
    var i := IndexOf(s, c);
    if i == |s| then [s] else [s[..i]] + Split(s[i + 1..], c)
  }

  function Join(pieces: seq<string>, c: char): string
  {
    if pieces == [] then ""
    else if |pieces| == 1 then pieces[0]
    else pieces[0] + [c] + Join(pieces[1..], c)
  }

  /** The first cut of a split text. */
  lemma SplitAt(before: string, c: char, after: string)
    requires c !in before
    ensures Split(before + [c] + after, c) == [before] + Split(after, c)
  {
    var s := before + [c] + after;
    IndexOfIs(s, c, |before|);
    assert s[..|before|] == before && s[|before| + 1..] == after;
  }

  lemma SplitNone(s: string, c: char)
    requires c !in s
    ensures Split(s, c) == [s]
  {
    IndexOfIs(s, c, |s|);
  }

  /** A text that has a `c` is what precedes the first one, the `c`, and the rest. */
  lemma FirstCut(s: string, c: char) returns (before: string, after: string)
    requires c in s
    ensures s == before + [c] + after && c !in before && |after| < |s|
  {
    var i := IndexOf(s, c);
    before, after := s[..i], s[i + 1..];
  }

  lemma {:induction false} SplitPieces(s: string, c: char)
    ensures forall p | p in Split(s, c) :: c !in p
    decreases |s|
  {
    if c in s {
      var before, after := FirstCut(s, c);
      SplitAt(before, c, after);
      SplitPieces(after, c);
    } else {
      SplitNone(s, c);
    }
  }

  lemma {:induction false} JoinSplit(s: string, c: char)
    ensures Join(Split(s, c), c) == s
    decreases |s|
  {
    if c in s {
      var before, after := FirstCut(s, c);
      SplitAt(before, c, after);
      JoinSplit(after, c);
      assert ([before] + Split(after, c))[1..] == Split(after, c);
    } else {
      SplitNone(s, c);
    }
  }

  lemma {:induction false} SplitJoin(pieces: seq<string>, c: char)
    requires pieces != []
    requires forall p | p in pieces :: c !in p
    ensures Split(Join(pieces, c), c) == pieces
  {
    if |pieces| == 1 {
      SplitNone(pieces[0], c);
    } else {
      SplitJoin(pieces[1..], c);
      SplitAt(pieces[0], c, Join(pieces[1..], c));
    }
  }

  /** Texts put one after the other with a `c` between them split into the pieces of both. */
  lemma {:induction false} SplitAppend(s: string, t: string, c: char)
    ensures Split(s + [c] + t, c) == Split(s, c) + Split(t, c)
    decreases |s|
  {
    if c in s {
      var before, after := FirstCut(s, c);
      SplitAppend(after, t, c);
      assert s + [c] + t == before + [c] + (after + [c] + t);
      SplitAt(before, c, after + [c] + t);
      SplitAt(before, c, after);
    } else {
      SplitNone(s, c);
      SplitAt(s, c, t);
    }
  }

  /** Where the leading white space of `s[from..]` ends. */
  function SkipFrom(ws: char -> bool, s: string, from: nat): (i: nat)
    requires from <= |s|
    ensures from <= i <= |s|
    ensures i < |s| ==> !ws(s[i])
    ensures forall k | from <= k < i :: ws(s[k])
    decreases |s| - from
  {
    if from == |s| || !ws(s[from]) then from else SkipFrom(ws, s, from + 1)
  }

  /** Where the trailing white space of `s[..to]` starts. */
  function SkipBack(ws: char -> bool, s: string, to: nat): (i: nat)
    requires to <= |s|
    ensures i <= to
    ensures i > 0 ==> !ws(s[i - 1])
    ensures forall k | i <= k < to :: ws(s[k])
  {
    if to == 0 || !ws(s[to - 1]) then to else SkipBack(ws, s, to - 1)
  }

  function TrimStart(ws: char -> bool, s: string): string { s[SkipFrom(ws, s, 0)..] }

  function TrimEnd(ws: char -> bool, s: string): string { s[..SkipBack(ws, s, |s|)] }

  function Trim(ws: char -> bool, s: string): string
  {
    TrimEnd(ws, TrimStart(ws, s))
  }

  /** A string with no white space at either end is left alone by trimming. */
  predicate Trimmed(ws: char -> bool, s: string)
  {
    s == [] || (!ws(s[0]) && !ws(s[|s| - 1]))
  }

  lemma TrimmedIsFixed(ws: char -> bool, s: string)
    ensures Trimmed(ws, s) <==> Trim(ws, s) == s
  {
    var i := SkipFrom(ws, s, 0);
    var t := s[i..];
    var k := SkipBack(ws, t, |t|);
    assert Trim(ws, s) == t[..k];
    if Trimmed(ws, s) {
      assert i == 0 && t == s && k == |s|;
    }
    if Trim(ws, s) == s { assert i == 0 && k == |s|; }
  }

  /** Two notions of white space that agree on the characters of a string trim it the same way. */
  lemma TrimAgrees(ws: char -> bool, ws2: char -> bool, s: string)
    requires forall c | c in s :: ws(c) == ws2(c)
    ensures TrimStart(ws, s) == TrimStart(ws2, s) && TrimEnd(ws, s) == TrimEnd(ws2, s)
  {
    SkipAgrees(ws, ws2, s, 0);
    SkipBackAgrees(ws, ws2, s, |s|);
  }

  lemma {:induction false} SkipAgrees(ws: char -> bool, ws2: char -> bool, s: string, from: nat)
    requires from <= |s| && forall c | c in s :: ws(c) == ws2(c)
    ensures SkipFrom(ws, s, from) == SkipFrom(ws2, s, from)
    decreases |s| - from
  {
    if from < |s| {
      assert s[from] in s;
      SkipAgrees(ws, ws2, s, from + 1);
    }
  }

  lemma {:induction false} SkipBackAgrees(ws: char -> bool, ws2: char -> bool, s: string, to: nat)
    requires to <= |s| && forall c | c in s :: ws(c) == ws2(c)
    ensures SkipBack(ws, s, to) == SkipBack(ws2, s, to)
  {
    if to > 0 {
      assert s[to - 1] in s;
      SkipBackAgrees(ws, ws2, s, to - 1);
    }
  }

  /** Every `c` replaced by `t`. */
  function Replace(s: string, c: char, t: string): string {
    if s == [] then [] else (if s[0] == c then t else [s[0]]) + Replace(s[1..], c, t)
  }

  lemma Joined(a: string, b: string, c: string)
    ensures a + (b + c) == a + b + c
  {
  }

  lemma {:induction false} ReplaceAppend(a: string, b: string, c: char, t: string)
    ensures Replace(a + b, c, t) == Replace(a, c, t) + Replace(b, c, t)
  {
    if a == [] {
      assert a + b == b;
    } else {
      assert (a + b)[1..] == a[1..] + b;
      ReplaceAppend(a[1..], b, c, t);
      Joined(if a[0] == c then t else [a[0]], Replace(a[1..], c, t), Replace(b, c, t));
    }
  }

  lemma ReplaceOne(x: char, c: char, t: string)
    ensures Replace([x], c, t) == if x == c then t else [x]
  {
    assert [x][1..] == [];
    assert Replace([x], c, t) == (if x == c then t else [x]) + Replace([], c, t);
  }

  lemma ReplaceTwo(x: char, y: char, c: char, t: string)
    ensures Replace([x, y], c, t) == (if x == c then t else [x]) + (if y == c then t else [y])
  {
    ReplaceAppend([x], [y], c, t);
    assert [x] + [y] == [x, y];
    ReplaceOne(x, c, t);
    ReplaceOne(y, c, t);
  }

  lemma {:induction false} ReplaceNone(s: string, c: char, t: string)
    requires c !in s
    ensures Replace(s, c, t) == s
  {
    if s != [] { ReplaceNone(s[1..], c, t); }
  }
}
