/** The browser's editor of the hub env file: parsing it line by line, reading and writing values, and changing one
    key while every other line stays as it is. */
module EnvEditor {
  import opened Text
  import opened DotenvSyntax

  const MAX_LINE: nat := 4096

  datatype Kind = Blank | Comment | Other(long: bool) | Assign(key: string, value: string, exported: bool)

  /** The value of a key and the number of the line that gave it. */
  datatype Slot = Slot(value: string, n: nat)

  // ---- the line grammar ----------------------------------------------------------------------------------------

  /** Key characters up to the first `=`, and the rest of the line after it. */
  function KeyAndRest(body: string): Option<(string, string)> {
    var i := IndexOf(body, '=');
    if body == [] || body[0] == '=' || body[0] == '#' || WebSpace(body[0]) then None
    else if i == |body| || !OneLine(body[i + 1..]) then None
    else Some((body[..i], body[i + 1..]))
  }

  /** `export` and white space start the text. */
  predicate SaysExport(t: string) { "export" <= t && |t| > 6 && WebSpace(t[6]) }

  /** The assignment pattern: optional `export`, then a key and a rest; without the `export` when the key after it
      could not start there. */
  function Match(line: string): Option<(bool, string, string)> {
    var t := TrimStart(WebSpace, line);
    var e := if SaysExport(t) then KeyAndRest(TrimStart(WebSpace, t[6..])) else None;
    if e.Some? then Some((true, e.value.0, e.value.1))
    else
      var p := KeyAndRest(t);
      if p.Some? then Some((false, p.value.0, p.value.1)) else None
  }

  function ValueOf(rest: string): string { LiteralBy(WebSpace, TrimStart(WebSpace, rest)) }

  function Classify(raw: string): Kind {
    if UnitLen(raw) > MAX_LINE then Other(true)
    else
      var line := DropCr(raw);
      var lead := TrimStart(WebSpace, line);
      if lead == [] then Blank
      else if lead[0] == '#' then Comment
      else
        var m := Match(line);
        if m.None? then Other(false)
        else Assign(Trim(WebSpace, m.value.1), ValueOf(m.value.2), m.value.0)
  }

  /** Reading a value: the loop of the editor. */
  method ReadValue(rest: string) returns (out: string)
    ensures out == ValueOf(rest)
  {
    var r := TrimStart(WebSpace, rest);
    if r != [] && r[0] == '\'' {
      var end := IndexFrom(r, '\'', 1);
      FoundAfterFirst(r);
      return r[1..end];
    }
    if r != [] && r[0] == '"' {
      out := [];
      var i := 1;
      while i < |r|
        invariant 1 <= i <= |r|
        invariant out + Unescape(r[i..]) == Unescape(r[1..])
      {
        var c := r[i];
        if c == '"' { break; }
        var piece := [c];
        ghost var at := i;
        if c == '\\' {
          i := i + 1;
          piece := if i == |r| then "\\" else Escaped(r[i]);
        }
        i := if i == |r| then i else i + 1;
        UnescapeStep(r, at, i, piece);
        Joined(out, piece, Unescape(r[i..]));
        out := out + piece;
      }
      assert Unescape(r[i..]) == [];
      return;
    }
    var hash := IndexOf2(r, ' ', '#');
    out := TrimEnd(WebSpace, r[..hash]);
  }

  lemma UnescapeStep(r: string, at: nat, next: nat, piece: string)
    requires at < |r| && r[at] != '"'
    requires if r[at] != '\\' then next == at + 1 && piece == [r[at]]
             else if at + 1 == |r| then next == |r| && piece == "\\"
             else next == at + 2 && piece == Escaped(r[at + 1])
    ensures Unescape(r[at..]) == piece + Unescape(r[next..])
  {
    var body := r[at..];
    assert body[1..] == r[at + 1..];
    if r[at] == '\\' && at + 1 < |r| { assert body[2..] == r[at + 2..]; }
  }

  lemma FoundAfterFirst(r: string)
    requires r != []
    ensures r[1..][..IndexOf(r[1..], '\'')] == r[1..IndexFrom(r, '\'', 1)]
  {
    var end := IndexFrom(r, '\'', 1);
    IndexOfIs(r[1..], '\'', end - 1);
  }

  // ---- writing a value -----------------------------------------------------------------------------------------

  predicate HasPair(s: string, a: char, b: char) { IndexOf2(s, a, b) < |s| }

  predicate BareOk(v: string)
    requires v != []
  {
    && v[0] != '\'' && v[0] != '"' && !HasPair(v, ' ', '#')
    && '\n' !in v && '\r' !in v && '\t' !in v
    && v == Trim(WebSpace, v) && !HasPair(v, '$', '{')
  }

  /** The replaces made one after the other between double quotes. */
  function Chain(v: string): string {
    Replace(Replace(Replace(Replace(Replace(v, '\\', "\\\\"), '"', "\\\""), '\n', "\\n"), '\r', "\\r"), '\t', "\\t")
  }

  function FormatValue(v: string): string {
    if v == [] then []
    else if BareOk(v) then v
    else if '\'' !in v && '\n' !in v && '\r' !in v then ['\''] + v + ['\'']
    else ['"'] + Chain(v) + ['"']
  }

  /** How one character is written between double quotes. */
  function Written(c: char): string {
    match c
    case '\\' => "\\\\"
    case '"' => "\\\""
    case '\n' => "\\n"
    case '\r' => "\\r"
    case '\t' => "\\t"
    case _ => [c]
  }

  function WrittenAll(v: string): string { if v == [] then [] else Written(v[0]) + WrittenAll(v[1..]) }

  lemma ChainAppend(a: string, b: string)
    ensures Chain(a + b) == Chain(a) + Chain(b)
  {
    ReplaceAppend(a, b, '\\', "\\\\");
    var a1, b1 := Replace(a, '\\', "\\\\"), Replace(b, '\\', "\\\\");
    ReplaceAppend(a1, b1, '"', "\\\"");
    var a2, b2 := Replace(a1, '"', "\\\""), Replace(b1, '"', "\\\"");
    ReplaceAppend(a2, b2, '\n', "\\n");
    var a3, b3 := Replace(a2, '\n', "\\n"), Replace(b2, '\n', "\\n");
    ReplaceAppend(a3, b3, '\r', "\\r");
    ReplaceAppend(Replace(a3, '\r', "\\r"), Replace(b3, '\r', "\\r"), '\t', "\\t");
  }

  /** On one character the replacements do not get in each other's way. */
  lemma ChainOne(x: char)
    ensures Chain([x]) == Written(x)
  {
    ReplaceOne(x, '\\', "\\\\");
    ReplaceOne(x, '"', "\\\"");
    ReplaceOne(x, '\n', "\\n");
    ReplaceOne(x, '\r', "\\r");
    ReplaceOne(x, '\t', "\\t");
    forall y, c: char, t: string { ReplaceTwo('\\', y, c, t); }
    assert "\\\\" == ['\\', '\\'] && "\\\"" == ['\\', '"'] && "\\n" == ['\\', 'n'] && "\\r" == ['\\', 'r'];
  }

  /** The chain of replaces is one escape per character. */
  lemma {:induction false} ChainIsPerCharacter(v: string)
    ensures Chain(v) == WrittenAll(v)
  {
    if v != [] {
      ChainIsPerCharacter(v[1..]);
      assert v == [v[0]] + v[1..];
      ChainAppend([v[0]], v[1..]);
      ChainOne(v[0]);
    }
  }

  lemma UnescapeOne(x: char, rest: string)
    ensures Unescape(Written(x) + rest) == [x] + Unescape(rest)
  {
    var w := Written(x);
    if |w| == 1 { assert (w + rest)[1..] == rest; } else { assert (w + rest)[2..] == rest; }
  }

  lemma {:induction false} UnescapeWritten(v: string)
    ensures Unescape(WrittenAll(v) + ['"']) == v
  {
    if v != [] {
      UnescapeWritten(v[1..]);
      UnescapeOne(v[0], WrittenAll(v[1..]) + ['"']);
      Joined(Written(v[0]), WrittenAll(v[1..]), ['"']);
    }
  }

  lemma TrimStartKeeps(ws: char -> bool, s: string)
    requires s != [] && !ws(s[0])
    ensures TrimStart(ws, s) == s
  {
  }

  lemma BareReadsBack(v: string)
    requires v != [] && BareOk(v)
    ensures ValueOf(v) == v
  {
    TrimmedIsFixed(WebSpace, v);
    TrimStartKeeps(WebSpace, v);
    assert v[..IndexOf2(v, ' ', '#')] == v;
  }

  lemma LiteralReadsBack(v: string)
    requires '\'' !in v
    ensures ValueOf(['\''] + v + ['\'']) == v
  {
    var r := ['\''] + v + ['\''];
    TrimStartKeeps(WebSpace, r);
    assert r[1..] == v + ['\''];
    IndexOfIs(v + ['\''], '\'', |v|);
  }

  lemma EscapedReadsBack(v: string)
    ensures ValueOf(['"'] + Chain(v) + ['"']) == v
  {
    var r := ['"'] + Chain(v) + ['"'];
    ChainIsPerCharacter(v);
    UnescapeWritten(v);
    TrimStartKeeps(WebSpace, r);
    assert r[1..] == WrittenAll(v) + ['"'];
  }

  /** What is written is read back, for every value. */
  lemma ReadsBack(v: string)
    ensures ValueOf(FormatValue(v)) == v
  {
    if v == [] {
    } else if BareOk(v) {
      BareReadsBack(v);
    } else if '\'' !in v && '\n' !in v && '\r' !in v {
      LiteralReadsBack(v);
    } else {
      EscapedReadsBack(v);
    }
  }

  /** Characters that are never written as they are. */
  predicate Breaks(c: char) { c == '\n' || c == '\r' || c == '\t' }

  /** Two characters in a row. */
  predicate InARow(s: string, a: char, b: char) { exists k | 0 < k < |s| :: s[k - 1] == a && s[k] == b }

  lemma PairIsInARow(s: string, a: char, b: char)
    ensures HasPair(s, a, b) <==> InARow(s, a, b)
  {
    var k := IndexOf2(s, a, b);
    if k < |s| { assert s[k + 1 - 1] == a && s[k + 1] == b; }
  }

  /** A value is quoted exactly if it starts like a quoted one, has white space at an end, a line break or a tab, or
      would be cut at a comment or expanded; single quotes serve unless it has one or a line break. */
  lemma QuotedWhen(v: string)
    requires v != []
    ensures var w := FormatValue(v);
      && w != []
      && (w[0] == '\'' || w[0] == '"' <==>
            v[0] == '\'' || v[0] == '"' || WebSpace(v[0]) || WebSpace(v[|v| - 1]) || (exists c | c in v :: Breaks(c))
            || InARow(v, ' ', '#') || InARow(v, '$', '{'))
      && (w[0] == '"' ==> '\'' in v || '\n' in v || '\r' in v)
  {
    PairIsInARow(v, ' ', '#');
    PairIsInARow(v, '$', '{');
    TrimmedIsFixed(WebSpace, v);
  }

  // ---- which keys a line can carry -----------------------------------------------------------------------------

  /** A key that the reader gives back when it is written before `=` (after `export ` or not). */
  predicate GoodKey(key: string, exported: bool) {
    && key != [] && Trimmed(WebSpace, key) && '=' !in key && key[0] != '#'
    && (!exported && SaysExport(key) ==> TrimStart(WebSpace, key[6..])[0] == '#')
  }

  function LineFor(exported: bool, key: string, value: string): string {
    var body := key + "=" + FormatValue(value);
    if exported then "export " + body else body
  }

  lemma KeyAndRestOf(key: string, rest: string)
    requires key != [] && !WebSpace(key[0]) && key[0] != '#' && '=' !in key && OneLine(rest)
    ensures KeyAndRest(key + "=" + rest) == Some((key, rest))
  {
    var body := key + "=" + rest;
    IndexOfIs(body, '=', |key|);
    assert body[..|key|] == key && body[|key| + 1..] == rest;
  }

  lemma {:induction false} SkipIs(ws: char -> bool, s: string, from: nat, i: nat)
    requires from <= i < |s| && !ws(s[i]) && forall k | from <= k < i :: ws(s[k])
    ensures SkipFrom(ws, s, from) == i
    decreases i - from
  {
    if from < i { SkipIs(ws, s, from + 1, i); }
  }

  lemma TrimStartSkips(ws: char -> bool, s: string, rest: string)
    requires TrimStart(ws, s) != []
    ensures TrimStart(ws, s + rest) == TrimStart(ws, s) + rest
  {
    var i := SkipFrom(ws, s, 0);
    SkipIs(ws, s + rest, 0, i);
    assert (s + rest)[i..] == s[i..] + rest;
  }

  lemma ExportPrefix(tail: string)
    requires tail != [] && !WebSpace(tail[0])
    ensures var t := "export " + tail; SaysExport(t) && TrimStart(WebSpace, t[6..]) == tail && t[0] == 'e'
  {
    var t := "export " + tail;
    assert t[..6] == "export";
    assert t[6..] == [' '] + tail;
    SkipIs(WebSpace, [' '] + tail, 0, 1);
  }

  lemma MatchByExport(t: string)
    requires t != [] && !WebSpace(t[0]) && SaysExport(t)
    requires KeyAndRest(TrimStart(WebSpace, t[6..])).Some?
    ensures var e := KeyAndRest(TrimStart(WebSpace, t[6..])).value; Match(t) == Some((true, e.0, e.1))
  {
    TrimStartKeeps(WebSpace, t);
  }

  lemma MatchWithout(t: string)
    requires t != [] && !WebSpace(t[0]) && KeyAndRest(t).Some?
    requires SaysExport(t) ==> KeyAndRest(TrimStart(WebSpace, t[6..])).None?
    ensures Match(t) == Some((false, KeyAndRest(t).value.0, KeyAndRest(t).value.1))
  {
    TrimStartKeeps(WebSpace, t);
  }

  lemma MatchExported(key: string, rest: string)
    requires GoodKey(key, true) && OneLine(rest)
    ensures Match("export " + (key + "=" + rest)) == Some((true, key, rest))
  {
    var tail := key + "=" + rest;
    KeyAndRestOf(key, rest);
    ExportPrefix(tail);
    MatchByExport("export " + tail);
  }

  lemma MatchPlain(key: string, rest: string)
    requires GoodKey(key, false) && OneLine(rest)
    ensures Match(key + "=" + rest) == Some((false, key, rest))
  {
    var tail := key + "=" + rest;
    KeyAndRestOf(key, rest);
    if SaysExport(tail) { NotExported(key, "=" + rest, tail); }
    MatchWithout(tail);
  }

  /** A good key that says `export` is not read as one. */
  lemma NotExported(key: string, more: string, tail: string)
    requires GoodKey(key, false) && more != [] && more[0] == '=' && tail == key + more && SaysExport(tail)
    ensures KeyAndRest(TrimStart(WebSpace, tail[6..])).None?
  {
    ExportInKey(key, more);
    assert tail[6..] == key[6..] + more;
    TrimmedTailStays(key, 6);
    TrimStartSkips(WebSpace, key[6..], more);
  }

  lemma ExportInKey(key: string, more: string)
    requires more != [] && more[0] == '=' && SaysExport(key + more) && key != [] && '=' !in key
    ensures |key| > 6 && SaysExport(key)
  {
    var t := key + more;
    assert t[|key|] == '=';
    assert forall k | 0 <= k < 6 :: t[k] == "export"[k] != '=';
    assert t[6] != '=';
    assert |key| > 6;
    assert t[..6] == key[..6];
  }

  lemma TrimmedTailStays(key: string, k: nat)
    requires k < |key| && !WebSpace(key[|key| - 1])
    ensures TrimStart(WebSpace, key[k..]) != []
  {
    assert key[k..][|key| - k - 1] == key[|key| - 1];
  }

  predicate NoSeparators(v: string) { forall c | c in v :: c != '\U{2028}' && c != '\U{2029}' }

  /** A formatted value has no line break of any kind. */
  lemma FormatIsOneLine(v: string)
    requires NoSeparators(v)
    ensures OneLine(FormatValue(v))
  {
    if v != [] && !BareOk(v) && ('\'' in v || '\n' in v || '\r' in v) {
      ChainIsPerCharacter(v);
      WrittenIsOneLine(v);
    }
  }

  lemma {:induction false} WrittenIsOneLine(v: string)
    requires NoSeparators(v)
    ensures OneLine(WrittenAll(v))
  {
    if v != [] {
      assert v[0] in v && forall c | c in v[1..] :: c in v;
      WrittenIsOneLine(v[1..]);
      assert OneLine(Written(v[0]));
    }
  }

  /** Nor has it a line feed, whatever the value. */
  lemma FormatHasNoFeed(v: string)
    ensures '\n' !in FormatValue(v)
  {
    ChainIsPerCharacter(v);
    WrittenHasNoFeed(v);
  }

  lemma {:induction false} WrittenHasNoFeed(v: string)
    ensures '\n' !in WrittenAll(v)
  {
    if v != [] {
      WrittenHasNoFeed(v[1..]);
      assert '\n' !in Written(v[0]);
    }
  }

  lemma LineEnds(exported: bool, key: string, value: string)
    requires GoodKey(key, exported) && NoSeparators(value)
    ensures var raw := LineFor(exported, key, value);
      raw != [] && raw[0] != '#' && !WebSpace(raw[0]) && raw[|raw| - 1] != '\r'
  {
    var rest := FormatValue(value);
    FormatIsOneLine(value);
    var raw := LineFor(exported, key, value);
    assert raw[0] == if exported then 'e' else key[0];
    if rest == [] {
      assert raw[|raw| - 1] == '=';
    } else {
      assert raw[|raw| - 1] == rest[|rest| - 1];
      assert rest[|rest| - 1] in rest;
    }
  }

  lemma LineMatches(exported: bool, key: string, value: string)
    requires GoodKey(key, exported) && NoSeparators(value)
    ensures Match(LineFor(exported, key, value)) == Some((exported, key, FormatValue(value)))
  {
    FormatIsOneLine(value);
    if exported {
      MatchExported(key, FormatValue(value));
    } else {
      MatchPlain(key, FormatValue(value));
    }
  }

  /** The written line reads back as written, if it is not too long. */
  lemma LineReadsBack(exported: bool, key: string, value: string)
    requires GoodKey(key, exported) && NoSeparators(value)
    requires UnitLen(LineFor(exported, key, value)) <= MAX_LINE
    ensures Classify(LineFor(exported, key, value)) == Assign(key, value, exported)
  {
    var raw := LineFor(exported, key, value);
    LineEnds(exported, key, value);
    LineMatches(exported, key, value);
    ReadsBack(value);
    TrimStartKeeps(WebSpace, raw);
    TrimmedIsFixed(WebSpace, key);
  }

  /** A trimmed text starts and ends outside white space. */
  lemma TrimIsTrimmed(s: string)
    ensures Trimmed(WebSpace, Trim(WebSpace, s))
    ensures s != [] && !WebSpace(s[0]) ==> Trim(WebSpace, s) != [] && Trim(WebSpace, s) <= s
  {
    if s != [] && !WebSpace(s[0]) { TrimStartKeeps(WebSpace, s); }
  }

  lemma KeyPartIsGood(body: string)
    requires KeyAndRest(body).Some?
    ensures var key := Trim(WebSpace, KeyAndRest(body).value.0);
      key != [] && Trimmed(WebSpace, key) && '=' !in key && key[0] != '#' && key <= body
  {
    var part := KeyAndRest(body).value.0;
    assert part != [] && part[0] == body[0];
    TrimIsTrimmed(part);
    var key := Trim(WebSpace, part);
    assert forall c | c in key :: c in part;
  }

  /** Every key the reader produces from a line is good for a line of the same kind. */
  lemma ParsedKeyIsGood(raw: string)
    requires Classify(raw).Assign?
    ensures GoodKey(Classify(raw).key, Classify(raw).exported)
  {
    var t := TrimStart(WebSpace, DropCr(raw));
    var after := if SaysExport(t) then TrimStart(WebSpace, t[6..]) else [];
    if SaysExport(t) && KeyAndRest(after).Some? {
      KeyPartIsGood(after);
    } else {
      KeyPartIsGood(t);
      var key := Classify(raw).key;
      if SaysExport(key) { ExportTurnedDown(t, key); }
    }
  }

  /** When the pattern had to do without the `export`, a key that still says it goes on with a `#`. */
  lemma ExportTurnedDown(t: string, key: string)
    requires SaysExport(key) && key <= t && KeyAndRest(t).Some? && Trimmed(WebSpace, key)
    requires key == Trim(WebSpace, KeyAndRest(t).value.0)
    requires SaysExport(t) ==> KeyAndRest(TrimStart(WebSpace, t[6..])).None?
    ensures TrimStart(WebSpace, key[6..])[0] == '#'
  {
    assert key[..6] == t[..6] && t[6] == key[6];
    var more := t[|key|..];
    assert t[6..] == key[6..] + more;
    TrimmedTailStays(key, 6);
    TrimStartSkips(WebSpace, key[6..], more);
  }

  /** Characters that an escape can bring in. */
  predicate FromEscape(c: char) { c == '\n' || c == '\t' || c == '\r' || c == '"' || c == '\'' || c == '\\' }

  lemma {:induction false} UnescapeWithin(body: string)
    ensures forall c | c in Unescape(body) :: c in body || FromEscape(c)
    decreases |body|
  {
    if body != [] && body[0] != '"' {
      var rest := if body[0] == '\\' && |body| > 1 then body[2..] else body[1..];
      UnescapeWithin(rest);
      assert forall c | c in rest :: c in body;
    }
  }

  lemma PrefixWithin(v: string, r: string)
    requires v <= r
    ensures forall c | c in v :: c in r
  {
    assert forall k | 0 <= k < |v| :: v[k] == r[k];
  }

  /** A value that is read has no separator that was not written. */
  lemma ValueWithin(rest: string)
    requires OneLine(rest)
    ensures NoSeparators(ValueOf(rest))
  {
    var r := TrimStart(WebSpace, rest);
    assert forall c | c in r :: c in rest;
    var v := ValueOf(rest);
    if r != [] && r[0] == '"' {
      UnescapeWithin(r[1..]);
      assert forall c | c in r[1..] :: c in r;
    } else if r != [] && r[0] == '\'' {
      assert v <= r[1..];
      PrefixWithin(v, r[1..]);
      assert forall c | c in r[1..] :: c in r;
    } else {
      assert v <= r;
      PrefixWithin(v, r);
    }
  }

  /** A line is read as the assignment that it was written for exactly when its key is good, its value has no separator
      and it is not too long. */
  lemma ReadsBackExactly(exported: bool, key: string, value: string)
    ensures Classify(LineFor(exported, key, value)) == Assign(key, value, exported) <==>
            GoodKey(key, exported) && NoSeparators(value) && UnitLen(LineFor(exported, key, value)) <= MAX_LINE
  {
    var raw := LineFor(exported, key, value);
    if GoodKey(key, exported) && NoSeparators(value) && UnitLen(raw) <= MAX_LINE {
      LineReadsBack(exported, key, value);
    }
    if Classify(raw) == Assign(key, value, exported) {
      ParsedKeyIsGood(raw);
      ReadIsOneLine(raw);
    }
  }

  /** A line that is written without `export` and gives its key back was not read with one: the key would have lost its
      start. */
  lemma NotReadExported(key: string, value: string)
    requires var k := Classify(LineFor(false, key, value)); k.Assign? && k.key == key
    ensures !Classify(LineFor(false, key, value)).exported
  {
    var raw := LineFor(false, key, value);
    ParsedKeyIsGood(raw);
    assert raw[0] == key[0] && raw[|key|] == '=';
    var t := DropCr(raw);
    assert t[|key|] == '=' && t[..|key|] == key;
    TrimStartKeeps(WebSpace, t);
    if Classify(raw).exported { ShorterKey(key, t); }
  }

  /** After `export` there is less than the key. */
  lemma ShorterKey(key: string, t: string)
    requires '=' !in key && |key| < |t| && t[|key|] == '=' && t[..|key|] == key && SaysExport(t)
    requires KeyAndRest(TrimStart(WebSpace, t[6..])).Some?
    ensures |Trim(WebSpace, KeyAndRest(TrimStart(WebSpace, t[6..])).value.0)| < |key|
  {
    var k := 6 + SkipFrom(WebSpace, t[6..], 0);
    var after := t[k..];
    assert after == TrimStart(WebSpace, t[6..]);
    assert forall j | 0 <= j < 6 :: t[j] == t[..6][j] == "export"[j];
    assert forall j | 6 <= j < k :: t[j] == t[6..][j - 6] && WebSpace(t[j]);
    assert |key| >= k;
    assert forall j | 0 <= j < |key| - k :: after[j] == t[..|key|][j + k] && after[j] in key;
    IndexOfIs(after, '=', |key| - k);
  }

  lemma ReadIsOneLine(raw: string)
    requires Classify(raw).Assign?
    ensures NoSeparators(Classify(raw).value)
  {
    ValueWithin(Match(DropCr(raw)).value.2);
  }
}
