/** Setting and removing a key in the env file: the text is a lens on its assignments. */
module EnvLens {
  import opened Text
  import opened DotenvSyntax
  import opened EnvEditor
  import Js = JsObject

  /** What the object of the assignments lists. */
  type Slots = seq<Pair<Slot>>

  // ---- reading the assignments ---------------------------------------------------------------------------------

  function ParseLines(lines: seq<string>): (r: seq<Kind>)
    ensures |r| == |lines| && forall i | 0 <= i < |lines| :: r[i] == Classify(lines[i])
  {
    seq(|lines|, i requires 0 <= i < |lines| => Classify(lines[i]))
  }

  function Parsed(text: string): seq<Kind> { ParseLines(Split(text, '\n')) }

  /** The assignments of the lines `ks`, the first of which has number `n`, on top of `acc`: the last of a key wins. */
  function ValuesFrom(ks: seq<Kind>, n: nat, acc: Slots): Slots {
    if ks == [] then acc
    else ValuesFrom(ks[1..], n + 1, if ks[0].Assign? then Js.Assign(acc, ks[0].key, Slot(ks[0].value, n)) else acc)
  }

  function Values(text: string): Slots { ValuesFrom(Parsed(text), 1, []) }

  method ReadValues(text: string) returns (out: Slots)
    ensures out == Values(text)
  {
    out := [];
    var rest, n := Parsed(text), 1;
    while rest != []
      invariant ValuesFrom(rest, n, out) == Values(text)
      decreases |rest|
    {
      var k := rest[0];
      if k.Assign? { out := Js.Assign(out, k.key, Slot(k.value, n)); }
      rest, n := rest[1..], n + 1;
    }
  }

  predicate Assigns(k: Kind, key: string) { k.Assign? && k.key == key }

  /** The position of the last assignment of `key` before `n`, or -1. */
  function LastBefore(ks: seq<Kind>, key: string, n: nat): (p: int)
    requires n <= |ks|
    ensures -1 <= p < n
    ensures p >= 0 ==> Assigns(ks[p], key)
    ensures forall i | p < i < n :: !Assigns(ks[i], key)
  {
    if n == 0 then -1 else if Assigns(ks[n - 1], key) then n - 1 else LastBefore(ks, key, n - 1)
  }

  function LastOf(ks: seq<Kind>, key: string): int { LastBefore(ks, key, |ks|) }

  // ---- setting a key -------------------------------------------------------------------------------------------

  function Set(text: string, key: string, value: string): string {
    var lines, ks := Split(text, '\n'), Parsed(text);
    var p := LastOf(ks, key);
    if p >= 0 then Join(lines[p := LineFor(ks[p].exported, key, value)], '\n')
    else if text == [] then LineFor(false, key, value) + ['\n']
    else
      var body := if text[|text| - 1] == '\n' then text else text + ['\n'];
      body + LineFor(false, key, value) + ['\n']
  }

  method SetValue(text: string, key: string, value: string) returns (r: string)
    ensures r == Set(text, key, value)
  {
    var lines, ks := Split(text, '\n'), Parsed(text);
    var p := |lines|;
    while p > 0 && !Assigns(ks[p - 1], key)
      invariant 0 <= p <= |lines| && LastBefore(ks, key, p) == LastOf(ks, key)
    {
      p := p - 1;
    }
    assert LastOf(ks, key) == p - 1;
    if p > 0 {
      lines := lines[p - 1 := LineFor(ks[p - 1].exported, key, value)];
      return Join(lines, '\n');
    }
    if text == [] { return LineFor(false, key, value) + ['\n']; }
    var body := if text[|text| - 1] == '\n' then text else text + ['\n'];
    r := body + LineFor(false, key, value) + ['\n'];
  }

  function Chopped(lines: seq<string>): seq<string> {
    if lines != [] && lines[|lines| - 1] == [] then lines[..|lines| - 1] else lines
  }

  /** The lines after `Set`: one rewritten, or one put at the end of the text. */
  function SetLines(lines: seq<string>, ks: seq<Kind>, key: string, value: string): seq<string>
    requires |ks| == |lines|
  {
    var p := LastOf(ks, key);
    if p >= 0 then lines[p := LineFor(ks[p].exported, key, value)]
    else Chopped(lines) + [LineFor(false, key, value), ""]
  }

  lemma {:induction false} EmptyLastPiece(pieces: seq<string>)
    requires pieces != [] && pieces[|pieces| - 1] == []
    ensures var s := Join(pieces, '\n'); s == [] || s[|s| - 1] == '\n'
  {
    if |pieces| > 1 { EmptyLastPiece(pieces[1..]); }
  }

  lemma LineAndEnd(line: string)
    requires '\n' !in line
    ensures Split(line + ['\n'], '\n') == [line, ""]
  {
    assert line + ['\n'] == line + ['\n'] + [];
    SplitAt(line, '\n', []);
    SplitNone([], '\n');
  }

  /** A line put after a text that ends a line. */
  lemma ChopText(t: string, line: string)
    requires '\n' !in line
    ensures Split(t + ['\n'] + line + ['\n'], '\n') == Chopped(Split(t + ['\n'], '\n')) + [line, ""]
  {
    Joined(t + ['\n'], line, ['\n']);
    SplitAppend(t, line + ['\n'], '\n');
    LineAndEnd(line);
    Ended(t);
  }

  lemma Ended(t: string)
    ensures Chopped(Split(t + ['\n'], '\n')) == Split(t, '\n')
  {
    assert t + ['\n'] == t + ['\n'] + [];
    SplitAppend(t, [], '\n');
    SplitNone([], '\n');
  }

  /** A line put after a text whose last line is not ended. */
  lemma ExtendText(text: string, line: string)
    requires text != [] && text[|text| - 1] != '\n' && '\n' !in line
    ensures Split(text + ['\n'] + line + ['\n'], '\n') == Chopped(Split(text, '\n')) + [line, ""]
  {
    JoinSplit(text, '\n');
    var pieces := Split(text, '\n');
    if pieces[|pieces| - 1] == [] { EmptyLastPiece(pieces); }
    Joined(text + ['\n'], line, ['\n']);
    SplitAppend(text, line + ['\n'], '\n');
    LineAndEnd(line);
  }

  function LastExported(text: string, key: string): bool {
    var ks := Parsed(text);
    var p := LastOf(ks, key);
    p >= 0 && ks[p].exported
  }

  /** The written line is read back: the value has no separator, the line is not too long, and a key that is not in
      the text yet can be written. */
  predicate Writable(text: string, key: string, value: string) {
    && NoSeparators(value)
    && (LastOf(Parsed(text), key) < 0 ==> GoodKey(key, false) && '\n' !in key)
    && UnitLen(LineFor(LastExported(text, key), key, value)) <= MAX_LINE
  }

  lemma TrimStartWithin(ws: char -> bool, s: string)
    ensures forall c | c in TrimStart(ws, s) :: c in s
  {
  }

  lemma KeyFromRaw(raw: string)
    requires Classify(raw).Assign?
    ensures forall c | c in Classify(raw).key :: c in raw
  {
    var t := TrimStart(WebSpace, DropCr(raw));
    TrimStartWithin(WebSpace, DropCr(raw));
    if SaysExport(t) {
      TrimStartWithin(WebSpace, t[6..]);
      assert forall c | c in t[6..] :: c in t;
    }
    var m := Match(DropCr(raw)).value.1;
    assert forall c | c in m :: c in t;
    assert forall c | c in Trim(WebSpace, m) :: c in m by { TrimStartWithin(WebSpace, m); }
  }

  lemma ParsedKey(text: string, p: nat)
    requires p < |Parsed(text)| && Parsed(text)[p].Assign?
    ensures GoodKey(Parsed(text)[p].key, Parsed(text)[p].exported) && '\n' !in Parsed(text)[p].key
  {
    var raw := Split(text, '\n')[p];
    ParsedKeyIsGood(raw);
    KeyFromRaw(raw);
    SplitPieces(text, '\n');
    assert raw in Split(text, '\n');
  }

  lemma WritesGoodKey(text: string, key: string, value: string)
    requires Writable(text, key, value)
    ensures GoodKey(key, LastExported(text, key)) && '\n' !in key
  {
    var p := LastOf(Parsed(text), key);
    if p >= 0 { ParsedKey(text, p); }
  }

  lemma NoBreak(exported: bool, key: string, value: string)
    requires '\n' !in key
    ensures '\n' !in LineFor(exported, key, value)
  {
    FormatHasNoFeed(value);
    assert '\n' !in "export ";
  }

  /** A line put after any text. */
  lemma Appended(text: string, line: string)
    requires text != [] && '\n' !in line
    ensures var body := if text[|text| - 1] == '\n' then text else text + ['\n'];
      Split(body + line + ['\n'], '\n') == Chopped(Split(text, '\n')) + [line, ""]
  {
    if text[|text| - 1] == '\n' {
      var t := text[..|text| - 1];
      assert text == t + ['\n'];
      ChopText(t, line);
    } else {
      ExtendText(text, line);
    }
  }

  /** Only one line changes: every other line of the text is there, byte for byte and in its place. */
  lemma SetChangesOneLine(text: string, key: string, value: string)
    requires '\n' !in key
    ensures Split(Set(text, key, value), '\n') == SetLines(Split(text, '\n'), Parsed(text), key, value)
  {
    var p := LastOf(Parsed(text), key);
    var line := LineFor(LastExported(text, key), key, value);
    NoBreak(LastExported(text, key), key, value);
    if p >= 0 {
      Rewritten(text, p, line);
    } else if text == [] {
      SplitNone([], '\n');
      LineAndEnd(line);
    } else {
      Appended(text, line);
    }
  }

  lemma Rewritten(text: string, p: nat, line: string)
    requires p < |Split(text, '\n')| && '\n' !in line
    ensures var lines := Split(text, '\n')[p := line]; Split(Join(lines, '\n'), '\n') == lines
  {
    var before, lines := Split(text, '\n'), Split(text, '\n')[p := line];
    SplitPieces(text, '\n');
    forall s | s in lines ensures '\n' !in s { assert s == line || s in before; }
    SplitJoin(lines, '\n');
  }

  // ---- the laws ------------------------------------------------------------------------------------------------

  lemma {:induction false} FoldAppend(a: seq<Kind>, b: seq<Kind>, n: nat, acc: Slots)
    ensures ValuesFrom(a + b, n, acc) == ValuesFrom(b, n + |a|, ValuesFrom(a, n, acc))
  {
    if a == [] {
      assert a + b == b;
    } else {
      assert (a + b)[1..] == a[1..] + b;
      FoldAppend(a[1..], b, n + 1, if a[0].Assign? then Js.Assign(acc, a[0].key, Slot(a[0].value, n)) else acc);
    }
  }

  /** The assignments come in the order in which the object lists them. */
  lemma {:induction false} ValuesInOrder(ks: seq<Kind>, n: nat, acc: Slots)
    requires Js.Ordered(acc)
    ensures Js.Ordered(ValuesFrom(ks, n, acc))
  {
    if ks != [] {
      if ks[0].Assign? { Js.AssignOrdered(acc, ks[0].key, Slot(ks[0].value, n)); }
      ValuesInOrder(ks[1..], n + 1, if ks[0].Assign? then Js.Assign(acc, ks[0].key, Slot(ks[0].value, n)) else acc);
    }
  }

  /** Lines that do not assign `key` leave its entry as it is. */
  lemma {:induction false} FoldKeeps(ks: seq<Kind>, n: nat, d: Slots, key: string, v: Slot)
    requires Js.HasKey(d, key) && forall i | 0 <= i < |ks| :: !Assigns(ks[i], key)
    ensures ValuesFrom(ks, n, Js.Assign(d, key, v)) == Js.Assign(ValuesFrom(ks, n, d), key, v)
  {
    if ks != [] {
      if ks[0].Assign? {
        var w := Slot(ks[0].value, n);
        Js.AssignsCommute(d, key, v, ks[0].key, w);
        Js.FindAssigned(d, ks[0].key, w, key);
        FoldKeeps(ks[1..], n + 1, Js.Assign(d, ks[0].key, w), key, v);
      } else {
        FoldKeeps(ks[1..], n + 1, d, key, v);
      }
    }
  }

  /** Rewriting the last assignment of a key changes its entry and nothing else. */
  lemma RewriteFold(ks: seq<Kind>, p: nat, key: string, k: Kind)
    requires p < |ks| && Assigns(ks[p], key) && Assigns(k, key)
    requires forall i | p < i < |ks| :: !Assigns(ks[i], key)
    ensures ValuesFrom(ks[p := k], 1, []) == Js.Assign(ValuesFrom(ks, 1, []), key, Slot(k.value, p + 1))
  {
    var a, b := ks[..p], ks[p + 1..];
    var X := ValuesFrom(a, 1, []);
    var was, now := Slot(ks[p].value, p + 1), Slot(k.value, p + 1);
    FoldAt(a, ks[p], b);
    FoldAt(a, k, b);
    assert ks == a + [ks[p]] + b && ks[p := k] == a + [k] + b;
    Js.FindAssigned(X, key, was, key);
    Js.AssignTwice(X, key, was, now);
    FoldKeeps(b, p + 2, Js.Assign(X, key, was), key, now);
  }

  lemma FoldAt(a: seq<Kind>, k: Kind, b: seq<Kind>)
    requires k.Assign?
    ensures ValuesFrom(a + [k] + b, 1, []) ==
            ValuesFrom(b, |a| + 2, Js.Assign(ValuesFrom(a, 1, []), k.key, Slot(k.value, |a| + 1)))
  {
    FoldAppend(a + [k], b, 1, []);
    FoldAppend(a, [k], 1, []);
    assert [k][1..] == [];
  }

  lemma AppendFold(ks: seq<Kind>, k: Kind)
    requires k.Assign?
    ensures ValuesFrom(ks + [k, Blank], 1, []) == Js.Assign(ValuesFrom(ks, 1, []), k.key, Slot(k.value, |ks| + 1))
  {
    FoldAt(ks, k, [Blank]);
    assert ks + [k, Blank] == ks + [k] + [Blank];
    assert [Blank][1..] == [];
  }

  lemma ChoppedFold(lines: seq<string>)
    requires lines != []
    ensures ValuesFrom(ParseLines(Chopped(lines)), 1, []) == ValuesFrom(ParseLines(lines), 1, [])
  {
    if Chopped(lines) != lines {
      var ks := ParseLines(Chopped(lines));
      assert ParseLines(lines) == ks + [Blank];
      FoldAppend(ks, [Blank], 1, []);
      assert [Blank][1..] == [];
    }
  }

  /** The number of the line that carries the key after `Set`. */
  function LineSet(text: string, key: string): nat {
    var p := LastOf(Parsed(text), key);
    if p >= 0 then p + 1 else |Chopped(Split(text, '\n'))| + 1
  }

  /** What the lines are after `Set`. */
  lemma SetKinds(text: string, key: string, value: string)
    requires Writable(text, key, value)
    ensures var lines, ks := Split(text, '\n'), Parsed(text); var p := LastOf(ks, key);
      var k := Assign(key, value, LastExported(text, key));
      Parsed(Set(text, key, value)) == if p >= 0 then ks[p := k] else ParseLines(Chopped(lines)) + [k, Blank]
  {
    var lines, ks := Split(text, '\n'), Parsed(text);
    var p, exported := LastOf(ks, key), LastExported(text, key);
    var line := LineFor(exported, key, value);
    WritesGoodKey(text, key, value);
    SetChangesOneLine(text, key, value);
    LineReadsBack(exported, key, value);
    if p >= 0 { ParseUpdate(lines, p, line); } else { ParseAppend(Chopped(lines), line); }
  }

  lemma ParseUpdate(lines: seq<string>, p: nat, line: string)
    requires p < |lines|
    ensures ParseLines(lines[p := line]) == ParseLines(lines)[p := Classify(line)]
  {
  }

  lemma ParseAppend(lines: seq<string>, line: string)
    ensures ParseLines(lines + [line, ""]) == ParseLines(lines) + [Classify(line), Blank]
  {
    assert Classify("") == Blank;
  }

  lemma SetOldKey(text: string, key: string, value: string)
    requires Writable(text, key, value) && LastOf(Parsed(text), key) >= 0
    ensures Values(Set(text, key, value)) == Js.Assign(Values(text), key, Slot(value, LineSet(text, key)))
  {
    SetKinds(text, key, value);
    RewriteFold(Parsed(text), LastOf(Parsed(text), key), key, Assign(key, value, LastExported(text, key)));
  }

  /** A text whose lines are those of another one and a new assignment. */
  lemma NewKeyFold(text: string, after: string, k: Kind)
    requires k.Assign? && Parsed(after) == ParseLines(Chopped(Split(text, '\n'))) + [k, Blank]
    ensures Values(after) == Js.Assign(Values(text), k.key, Slot(k.value, |Chopped(Split(text, '\n'))| + 1))
  {
    var lines := Split(text, '\n');
    ChoppedFold(lines);
    AppendedFold(ParseLines(Chopped(lines)), k, Parsed(after));
  }

  lemma AppendedFold(ks: seq<Kind>, k: Kind, after: seq<Kind>)
    requires k.Assign? && after == ks + [k, Blank]
    ensures ValuesFrom(after, 1, []) == Js.Assign(ValuesFrom(ks, 1, []), k.key, Slot(k.value, |ks| + 1))
  {
    AppendFold(ks, k);
  }

  lemma SetNewKey(text: string, key: string, value: string)
    requires Writable(text, key, value) && LastOf(Parsed(text), key) < 0
    ensures Values(Set(text, key, value)) == Js.Assign(Values(text), key, Slot(value, LineSet(text, key)))
  {
    SetKinds(text, key, value);
    NewKeyFold(text, Set(text, key, value), Assign(key, value, LastExported(text, key)));
  }

  /** Set then read: the object of the assignments is the old one with the key assigned the new value. */
  lemma SetThenRead(text: string, key: string, value: string)
    requires Writable(text, key, value)
    ensures Values(Set(text, key, value)) == Js.Assign(Values(text), key, Slot(value, LineSet(text, key)))
  {
    if LastOf(Parsed(text), key) >= 0 { SetOldKey(text, key, value); } else { SetNewKey(text, key, value); }
  }

  /** The value read back, and every other key as it was. */
  lemma SetGets(text: string, key: string, value: string, other: string)
    requires Writable(text, key, value)
    ensures Find(Values(Set(text, key, value)), key) == Some(Slot(value, LineSet(text, key)))
    ensures other != key ==> Find(Values(Set(text, key, value)), other) == Find(Values(text), other)
  {
    SetThenRead(text, key, value);
    Js.FindAssigned(Values(text), key, Slot(value, LineSet(text, key)), other);
  }

  /** What is found for a key is the value of its last assignment, with the number of that line. */
  lemma {:induction false} FindsLast(ks: seq<Kind>, key: string)
    ensures var p := LastOf(ks, key);
      Find(ValuesFrom(ks, 1, []), key) == if p >= 0 then Some(Slot(ks[p].value, p + 1)) else None
    decreases |ks|
  {
    if ks != [] {
      var n := |ks| - 1;
      FindsLast(ks[..n], key);
      assert ks == ks[..n] + [ks[n]];
      FindsNext(ks[..n], ks[n], key);
      LastInFront(ks, key, n);
    }
  }

  /** One more line: what it assigns is found, and nothing else changes. */
  lemma FindsNext(front: seq<Kind>, k: Kind, key: string)
    ensures Find(ValuesFrom(front + [k], 1, []), key) ==
            if Assigns(k, key) then Some(Slot(k.value, |front| + 1)) else Find(ValuesFrom(front, 1, []), key)
  {
    assert [k][1..] == [];
    FoldAppend(front, [k], 1, []);
    if k.Assign? { Js.FindAssigned(ValuesFrom(front, 1, []), k.key, Slot(k.value, |front| + 1), key); }
  }

  lemma {:induction false} LastInFront(ks: seq<Kind>, key: string, n: nat)
    requires n <= |ks|
    ensures LastBefore(ks, key, n) == LastOf(ks[..n], key)
    decreases n
  {
    if n > 0 {
      LastInFront(ks, key, n - 1);
      LastInFront(ks[..n], key, n - 1);
      assert ks[..n][..n - 1] == ks[..n - 1];
    }
  }

  /** No text assigns a key that holds a line feed. */
  lemma NoKeyHoldsFeed(text: string, key: string)
    requires '\n' in key
    ensures Find(Values(text), key) == None
  {
    FindsLast(Parsed(text), key);
    var p := LastOf(Parsed(text), key);
    if p >= 0 { ParsedKey(text, p); }
  }

  /** The line that `Set` writes, at its number. */
  lemma LineWritten(text: string, key: string, value: string)
    requires '\n' !in key
    ensures var n, ks := LineSet(text, key), Parsed(Set(text, key, value));
      1 <= n <= |ks| && ks[n - 1] == Classify(LineFor(LastExported(text, key), key, value))
  {
    SetChangesOneLine(text, key, value);
  }

  /** What a set writes is read back, at the line it wrote, exactly if the value has no separator, the line is not too
      long, and the key is in the text already or can be written without `export` and holds no line feed. */
  lemma SetReadsBackExactly(text: string, key: string, value: string)
    ensures Find(Values(Set(text, key, value)), key) == Some(Slot(value, LineSet(text, key))) <==>
            Writable(text, key, value)
  {
    if Writable(text, key, value) {
      SetGets(text, key, value, key);
    } else if '\n' in key {
      NoKeyHoldsFeed(Set(text, key, value), key);
    } else {
      SetIsLost(text, key, value);
    }
  }

  lemma SetIsLost(text: string, key: string, value: string)
    requires !Writable(text, key, value) && '\n' !in key
    ensures Find(Values(Set(text, key, value)), key) != Some(Slot(value, LineSet(text, key)))
  {
    var ks, n, k := SetLine(text, key, value);
    if k.Assign? { NotRead(text, key, value); }
    NotFoundAt(ks, key, value, n);
  }

  lemma SetLine(text: string, key: string, value: string) returns (ks: seq<Kind>, n: nat, k: Kind)
    requires '\n' !in key
    ensures ks == Parsed(Set(text, key, value)) && n == LineSet(text, key) && 1 <= n <= |ks| && ks[n - 1] == k
    ensures k == Classify(LineFor(LastExported(text, key), key, value))
  {
    ks, n := Parsed(Set(text, key, value)), LineSet(text, key);
    LineWritten(text, key, value);
    k := ks[n - 1];
  }

  lemma NotFoundAt(ks: seq<Kind>, key: string, value: string, n: nat)
    requires 1 <= n <= |ks| && !(Assigns(ks[n - 1], key) && ks[n - 1].value == value)
    ensures Find(ValuesFrom(ks, 1, []), key) != Some(Slot(value, n))
  {
    FindsLast(ks, key);
  }

  lemma NotRead(text: string, key: string, value: string)
    requires !Writable(text, key, value) && '\n' !in key
    requires Classify(LineFor(LastExported(text, key), key, value)).Assign?
    ensures var k := Classify(LineFor(LastExported(text, key), key, value)); k.key != key || k.value != value
  {
    var raw := LineFor(LastExported(text, key), key, value);
    var k := Classify(raw);
    if k.key == key && k.value == value {
      ReadIsOneLine(raw);
      ParsedKeyIsGood(raw);
      if LastOf(Parsed(text), key) < 0 { NotReadExported(key, value); }
      assert false;
    }
  }

  /** The failing case: a key with a line feed makes a line that alone would be read back, but the text is cut in it. */
  lemma BrokenKeyIsLost()
    ensures Classify(LineFor(false, "A\nB", "v")) == Assign("A\nB", "v", false)
    ensures Find(Values(Set("", "A\nB", "v")), "A\nB") == None
  {
    assert "A\nB"[1] == '\n';
    NoKeyHoldsFeed(Set("", "A\nB", "v"), "A\nB");
    BrokenKeyAlone();
  }

  lemma BrokenKeyAlone()
    ensures Classify(LineFor(false, "A\nB", "v")) == Assign("A\nB", "v", false)
  {
    ShortLineReadsBack("A\nB", "v");
  }

  lemma ShortLineReadsBack(key: string, value: string)
    requires GoodKey(key, false) && NoSeparators(value) && |key| <= 3 && |value| == 1 && BareOk(value)
    ensures Classify(LineFor(false, key, value)) == Assign(key, value, false)
  {
    assert |LineFor(false, key, value)| <= 5;
    UnitsWithin(LineFor(false, key, value));
    LineReadsBack(false, key, value);
  }

  lemma {:induction false} UnitsWithin(s: string)
    ensures UnitLen(s) <= 2 * |s|
  {
    if s != [] { UnitsWithin(s[1..]); }
  }

  /** Setting a key again overwrites the first value: the text is as if only the second had been set. */
  lemma SetSet(text: string, key: string, first: string, second: string)
    requires Writable(text, key, first) && Writable(text, key, second)
    ensures Set(Set(text, key, first), key, second) == Set(text, key, second)
  {
    var once := Set(text, key, first);
    SetKinds(text, key, first);
    var n := LineSet(text, key) - 1;
    LastIs(Parsed(once), key, n);
    WritesGoodKey(text, key, first);
    SetChangesOneLine(text, key, first);
    SetChangesOneLine(text, key, second);
    OverwriteLine(text, key, first, second);
    JoinSplit(Set(text, key, second), '\n');
  }

  lemma Overwrite(s: seq<string>, n: nat, a: string, b: string)
    ensures n < |s| ==> s[n := a][n := b] == s[n := b]
    ensures (s + [a, ""])[|s| := b] == s + [b, ""]
  {
  }

  lemma OverwriteLine(text: string, key: string, first: string, second: string)
    ensures var lines, ks, n := Split(text, '\n'), Parsed(text), LineSet(text, key) - 1;
      n < |SetLines(lines, ks, key, first)| &&
      SetLines(lines, ks, key, first)[n := LineFor(LastExported(text, key), key, second)] ==
      SetLines(lines, ks, key, second)
  {
    var lines, p := Split(text, '\n'), LastOf(Parsed(text), key);
    var a, b := LineFor(LastExported(text, key), key, first), LineFor(LastExported(text, key), key, second);
    if p >= 0 { Overwrite(lines, p, a, b); } else { Overwrite(Chopped(lines), 0, a, b); }
  }

  lemma LastIs(ks: seq<Kind>, key: string, n: nat)
    requires n < |ks| && Assigns(ks[n], key) && forall i | n < i < |ks| :: !Assigns(ks[i], key)
    ensures LastOf(ks, key) == n
  {
  }

  // ---- removing a key ------------------------------------------------------------------------------------------

  /** The lines that do not assign `key`. */
  function Unassigned(lines: seq<string>, key: string): seq<string> {
    if lines == [] then []
    else if Assigns(Classify(lines[0]), key) then Unassigned(lines[1..], key)
    else [lines[0]] + Unassigned(lines[1..], key)
  }

  function Remove(text: string, key: string): string { Join(Unassigned(Split(text, '\n'), key), '\n') }

  /** The assignments without their line numbers. */
  function Plain(d: Slots): seq<Pair<string>> {
    if d == [] then [] else [Pair(d[0].key, d[0].value.value)] + Plain(d[1..])
  }

  function PlainFrom(ks: seq<Kind>, acc: seq<Pair<string>>): seq<Pair<string>> {
    if ks == [] then acc
    else PlainFrom(ks[1..], if ks[0].Assign? then Js.Assign(acc, ks[0].key, ks[0].value) else acc)
  }

  lemma PlainHead(p: Pair<Slot>, d: Slots)
    ensures Plain([p] + d) == [Pair(p.key, p.value.value)] + Plain(d)
  {
    assert ([p] + d)[1..] == d;
  }

  lemma {:induction false} PlainPut(d: Slots, key: string, v: Slot)
    ensures Plain(Put(d, key, v)) == Put(Plain(d), key, v.value)
    ensures Js.HasKey(Plain(d), key) == Js.HasKey(d, key)
  {
    if d != [] && d[0].key != key { PlainPut(d[1..], key, v); }
  }

  lemma {:induction false} PlainPlace(d: Slots, p: Pair<Slot>)
    ensures Plain(Js.Place(d, p)) == Js.Place(Plain(d), Pair(p.key, p.value.value))
    decreases |d|
  {
    PlainHead(p, d);
    if d != [] && !Js.Before(p.key, d[0].key) {
      PlainPlace(d[1..], p);
      PlainHead(d[0], Js.Place(d[1..], p));
    }
  }

  lemma PlainAssign(d: Slots, key: string, v: Slot)
    ensures Plain(Js.Assign(d, key, v)) == Js.Assign(Plain(d), key, v.value)
  {
    PlainPut(d, key, v);
    PlainPlace(d, Pair(key, v));
  }

  lemma {:induction false} PlainFold(ks: seq<Kind>, n: nat, acc: Slots)
    ensures Plain(ValuesFrom(ks, n, acc)) == PlainFrom(ks, Plain(acc))
  {
    if ks != [] {
      if ks[0].Assign? {
        var v := Slot(ks[0].value, n);
        PlainAssign(acc, ks[0].key, v);
        PlainFold(ks[1..], n + 1, Js.Assign(acc, ks[0].key, v));
      } else {
        PlainFold(ks[1..], n + 1, acc);
      }
    }
  }

  lemma ParseCons(line: string, rest: seq<string>)
    ensures ParseLines([line] + rest) == [Classify(line)] + ParseLines(rest)
  {
  }

  function Folded(k: Kind, acc: seq<Pair<string>>): seq<Pair<string>> {
    if k.Assign? then Js.Assign(acc, k.key, k.value) else acc
  }

  lemma PlainCons(k: Kind, ks: seq<Kind>, acc: seq<Pair<string>>)
    ensures PlainFrom([k] + ks, acc) == PlainFrom(ks, Folded(k, acc))
  {
    assert ([k] + ks)[1..] == ks;
  }

  function KeptKinds(ks: seq<Kind>, key: string): seq<Kind> {
    if ks == [] then []
    else if Assigns(ks[0], key) then KeptKinds(ks[1..], key)
    else [ks[0]] + KeptKinds(ks[1..], key)
  }

  lemma KeptCons(k: Kind, ks: seq<Kind>, key: string)
    ensures KeptKinds([k] + ks, key) == if Assigns(k, key) then KeptKinds(ks, key) else [k] + KeptKinds(ks, key)
  {
    assert ([k] + ks)[1..] == ks;
  }

  lemma {:induction false} UnassignedKinds(lines: seq<string>, key: string)
    ensures ParseLines(Unassigned(lines, key)) == KeptKinds(ParseLines(lines), key)
  {
    if lines != [] {
      var k, rest := Classify(lines[0]), lines[1..];
      UnassignedKinds(rest, key);
      assert lines == [lines[0]] + rest;
      ParseCons(lines[0], rest);
      ParseCons(lines[0], Unassigned(rest, key));
      KeptCons(k, ParseLines(rest), key);
    }
  }

  lemma {:induction false} KeptFold(ks: seq<Kind>, key: string, acc: seq<Pair<string>>)
    requires Js.Ordered(acc)
    ensures PlainFrom(KeptKinds(ks, key), Drop(acc, key)) == Drop(PlainFrom(ks, acc), key)
  {
    if ks != [] {
      var k, rest := ks[0], ks[1..];
      if k.Assign? {
        Js.AssignOrdered(acc, k.key, k.value);
        Js.DropAssigned(acc, key, k.key, k.value);
      }
      KeptFold(rest, key, Folded(k, acc));
      if !Assigns(k, key) { PlainCons(k, KeptKinds(rest, key), Drop(acc, key)); }
    }
  }

  lemma {:induction false} UnassignedWithin(lines: seq<string>, key: string)
    ensures forall s | s in Unassigned(lines, key) :: s in lines
  {
    if lines != [] { UnassignedWithin(lines[1..], key); }
  }

  /** Removing a key leaves the other assignments, in their order and with their values, and no trace of the key. */
  lemma RemoveThenRead(text: string, key: string)
    ensures Plain(Values(Remove(text, key))) == Drop(Plain(Values(text)), key)
  {
    var lines := Split(text, '\n');
    var kept := Unassigned(lines, key);
    PlainFold(Parsed(text), 1, []);
    PlainFold(Parsed(Remove(text, key)), 1, []);
    UnassignedKinds(lines, key);
    KeptFold(Parsed(text), key, []);
    SplitPieces(text, '\n');
    UnassignedWithin(lines, key);
    if kept == [] {
      SplitNone([], '\n');
      assert ParseLines([""])[1..] == [];
    } else {
      SplitJoin(kept, '\n');
    }
  }
}
