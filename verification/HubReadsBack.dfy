/** How the hub reads what the editor writes: the forms of a value, and when a value that is set is the one the hub
    gets. */
module HubReadsBack {
  import opened Text
  import opened DotenvSyntax
  import opened HubReference
  import Agreement = EnvAgreement
  import Hub = HubEnv
  import Editor = EnvEditor
  import Lens = EnvLens

  // ---- the forms of a value, for both readers --------------------------------------------------------------------

  /** Single quotes: as it stands, and what follows is not read. */
  lemma SingleQuoted(ws: char -> bool, v: string, more: string)
    requires '\'' !in v
    ensures LiteralBy(ws, "'" + v + "'" + more) == v
  {
    var rest := "'" + v + "'" + more;
    assert rest[1..] == v + "'" + more;
    IndexOfIs(v + "'" + more, '\'', |v|);
  }

  lemma {:induction false} UnescapeUpTo(v: string, more: string)
    ensures Unescape(Editor.WrittenAll(v) + ("\"" + more)) == v
  {
    if v != [] {
      UnescapeUpTo(v[1..], more);
      Editor.UnescapeOne(v[0], Editor.WrittenAll(v[1..]) + ("\"" + more));
      Joined(Editor.Written(v[0]), Editor.WrittenAll(v[1..]), "\"" + more);
    }
  }

  /** Double quotes: every character may be escaped, and what follows is not read. */
  lemma DoubleQuoted(ws: char -> bool, v: string, more: string)
    ensures LiteralBy(ws, "\"" + Editor.WrittenAll(v) + "\"" + more) == v
  {
    var rest := "\"" + Editor.WrittenAll(v) + "\"" + more;
    assert rest[1..] == Editor.WrittenAll(v) + ("\"" + more);
    UnescapeUpTo(v, more);
  }

  /** An escaped single quote is one, and a backslash before any other character stays. */
  lemma OtherEscapes(c: char, rest: string)
    requires c !in "ntr\"\\"
    ensures Unescape(['\\', c] + rest) == (if c == '\'' then "'" else ['\\', c]) + Unescape(rest)
    ensures Unescape("\\") == "\\"
  {
    assert (['\\', c] + rest)[2..] == rest;
    assert 'n' == "ntr\"\\"[0] && 't' == "ntr\"\\"[1] && 'r' == "ntr\"\\"[2] && '"' == "ntr\"\\"[3];
    assert '\\' == "ntr\"\\"[4];
  }

  /** Anything else: up to a comment, without the white space before it. */
  lemma Commented(ws: char -> bool, v: string, more: string)
    requires Without2(v, ' ', '#') && (v == [] || (v[0] != '\'' && v[0] != '"'))
    ensures LiteralBy(ws, v + " #" + more) == TrimEnd(ws, v)
  {
    var rest := v + " #" + more;
    assert forall k | 0 <= k < |v| :: rest[k] == v[k];
    IndexOf2Is(rest, ' ', '#', |v|);
    assert rest[..|v|] == v;
  }

  lemma Uncommented(ws: char -> bool, v: string)
    requires Without2(v, ' ', '#') && (v == [] || (v[0] != '\'' && v[0] != '"'))
    ensures LiteralBy(ws, v) == TrimEnd(ws, v)
  {
    IndexOf2Is(v, ' ', '#', |v|);
    assert v[..|v|] == v;
  }

  // ---- values ----------------------------------------------------------------------------------------------------

  /** It cannot stand between single quotes. */
  predicate NeedsEscapes(v: string) { '\'' in v || '\n' in v || '\r' in v }

  /** The hub gets it back: it does not need escapes, between which references are expanded, and hold one; and it is not
      written bare with U+0085 at an end, which is white space to the hub alone. */
  predicate HubKeeps(v: string) {
    (NeedsEscapes(v) ==> !Hub.HasRef(v)) && (v != [] && Editor.BareOk(v) ==> Trimmed(HubSpace, v))
  }

  /** Without U+0085 at an end, and without a reference or what needs escapes, it does. */
  lemma PlainIsKept(v: string)
    requires v == [] || (v[0] != '\U{85}' && v[|v| - 1] != '\U{85}')
    requires Without2(v, '$', '{') || !NeedsEscapes(v)
    ensures HubKeeps(v)
  {
    if Without2(v, '$', '{') { IndexOf2Is(v, '$', '{', |v|); }
    if v != [] && Editor.BareOk(v) { TrimmedIsFixed(WebSpace, v); }
  }

  /** What the hub makes of a written value, after the white space before it. */
  function HubValue(v: string, environ: Hub.Vars, file: Hub.Vars): string {
    Hub.Value(TrimStart(HubSpace, Editor.FormatValue(v)), environ, file)
  }

  lemma BareValue(v: string, environ: Hub.Vars, file: Hub.Vars)
    requires v != [] && Editor.BareOk(v) && Trimmed(HubSpace, v)
    ensures HubValue(v, environ, file) == v
  {
    TrimmedIsFixed(HubSpace, v);
    StartsPlain(v);
    assert v[..IndexOf2(v, ' ', '#')] == v;
    assert TrimEnd(HubSpace, v) == v;
  }

  lemma SingleValue(v: string, environ: Hub.Vars, file: Hub.Vars)
    requires '\'' !in v
    ensures Hub.Value(TrimStart(HubSpace, "'" + v + "'"), environ, file) == v
  {
    var rest := "'" + v + "'";
    StartsPlain(rest);
    assert rest == "'" + v + "'" + "";
    SingleQuoted(HubSpace, v, "");
  }

  lemma DoubleLiteral(v: string)
    ensures LiteralBy(HubSpace, "\"" + Editor.Chain(v) + "\"") == v
  {
    Editor.ChainIsPerCharacter(v);
    assert "\"" + Editor.Chain(v) + "\"" == "\"" + Editor.WrittenAll(v) + "\"" + "";
    DoubleQuoted(HubSpace, v, "");
  }

  lemma QuotedExpands(rest: string, v: string, environ: Hub.Vars, file: Hub.Vars)
    requires rest != [] && rest[0] == '"' && LiteralBy(HubSpace, rest) == v
    ensures Hub.Value(TrimStart(HubSpace, rest), environ, file) == Hub.Expand(v, environ, file)
  {
    StartsPlain(rest);
  }

  lemma DoubleValue(v: string, environ: Hub.Vars, file: Hub.Vars)
    ensures Hub.Value(TrimStart(HubSpace, "\"" + Editor.Chain(v) + "\""), environ, file) == Hub.Expand(v, environ, file)
  {
    DoubleLiteral(v);
    QuotedExpands("\"" + Editor.Chain(v) + "\"", v, environ, file);
  }

  lemma ValueKept(v: string, environ: Hub.Vars, file: Hub.Vars)
    requires HubKeeps(v)
    ensures HubValue(v, environ, file) == v
  {
    if v == [] {
      NoneStays([], environ, file);
    } else if Editor.BareOk(v) {
      BareValue(v, environ, file);
    } else if NeedsEscapes(v) {
      DoubleValue(v, environ, file);
    } else {
      SingleValue(v, environ, file);
    }
  }

  /** A value that the hub does not keep, in some environment. */
  lemma ValueLost(v: string, file: Hub.Vars) returns (environ: Hub.Vars)
    requires !HubKeeps(v)
    ensures HubValue(v, environ, file) != v
  {
    if NeedsEscapes(v) && Hub.HasRef(v) {
      environ := RefGrows(v, file);
      DoubleValue(v, environ, file);
    } else {
      environ := [];
      SpacedShrinks(v, environ, file);
    }
  }

  /** A reference to a long value. */
  lemma RefGrows(v: string, file: Hub.Vars) returns (environ: Hub.Vars)
    requires Hub.HasRef(v)
    ensures Hub.Expand(v, environ, file) != v
  {
    var inner := Hub.Inner(v);
    var k := IndexOf2(inner, ':', '-');
    var name := if k == |inner| then inner else inner[..k];
    var long := seq(|v| + 1, _ => 'x');
    environ := [Pair(name, long)];
    assert Find(environ, name) == Some(long);
    assert Hub.Reference(environ, file, inner) == long;
    assert |Hub.Expand(v, environ, file)| >= |long|;
  }

  lemma NoRefMeans(v: string)
    requires !Editor.HasPair(v, '$', '{')
    ensures Agreement.NoRef(v)
  {
  }

  /** A bare value loses the white space at its ends. */
  lemma SpacedShrinks(v: string, environ: Hub.Vars, file: Hub.Vars)
    requires v != [] && Editor.BareOk(v) && !Trimmed(HubSpace, v)
    ensures HubValue(v, environ, file) != v
  {
    var rest := TrimStart(HubSpace, v);
    NoRefMeans(v);
    Agreement.NoRefTrim(v);
    Agreement.NoRefLiteral(HubSpace, rest);
    var value := LiteralBy(HubSpace, rest);
    Agreement.NothingToExpand(value, environ, file);
    if HubSpace(v[0]) {
      Agreement.LiteralShrinks(HubSpace, rest);
      TrimStartCuts(v);
    } else {
      StartsPlain(v);
      assert v[..IndexOf2(v, ' ', '#')] == v;
      assert value == TrimEnd(HubSpace, v);
      assert |TrimEnd(HubSpace, v)| < |v|;
    }
  }

  lemma TrimStartCuts(v: string)
    requires v != [] && HubSpace(v[0])
    ensures ByteLen(TrimStart(HubSpace, v)) < ByteLen(v)
  {
    Agreement.TrimStartCons(HubSpace, v);
    Agreement.TrimStartShrinks(HubSpace, v[1..]);
  }

  // ---- lines -----------------------------------------------------------------------------------------------------

  /** A key that the hub reads back from a line, written after `export ` or not. */
  predicate HubKey(exported: bool, key: string) { if exported then CutKey(key) else PlainKey(key) }

  lemma CutsLine(exported: bool, key: string, value: string)
    requires HubKey(exported, key)
    ensures Hub.Cut(Editor.LineFor(exported, key, value)) ==
            Some(Pair(key, TrimStart(HubSpace, Editor.FormatValue(value))))
  {
    var rest := Editor.FormatValue(value);
    if exported { CutsExported(key, rest); } else { CutsPlain(key, rest); }
  }

  lemma CutsExported(key: string, rest: string)
    requires CutKey(key)
    ensures Hub.Cut("export " + (key + "=" + rest)) == Some(Pair(key, TrimStart(HubSpace, rest)))
  {
    var body := key + "=" + rest;
    var line := "export " + body;
    assert line[..7] == "export " && line[7..] == body && line[0] == 'e' && body[0] == key[0];
    StartsPlain(line);
    StartsPlain(body);
    CutsAt(key, rest);
  }

  /** A cut gives no key but one that the line can carry. */
  lemma CutGivesKey(exported: bool, key: string, value: string)
    requires Hub.Cut(Editor.LineFor(exported, key, value)).Some?
    requires Hub.Cut(Editor.LineFor(exported, key, value)).value.key == key
    ensures HubKey(exported, key)
  {
    var line := Editor.LineFor(exported, key, value);
    CutIsCutKey(line);
    if !exported { PlainCut(key, Editor.FormatValue(value)); }
  }

  lemma CutIsCutKey(line: string)
    requires Hub.Cut(line).Some?
    ensures CutKey(Hub.Cut(line).value.key)
  {
    var t := TrimStart(HubSpace, line);
    var body := if "export " <= t then TrimStart(HubSpace, t[7..]) else t;
    CutAtIsCutKey(body);
  }

  lemma CutAtIsCutKey(body: string)
    requires Hub.CutAt(body).Some?
    ensures CutKey(Hub.CutAt(body).value.key) && |Hub.CutAt(body).value.key| <= IndexOf(body, '=')
  {
    var part := body[..IndexOf(body, '=')];
    var key := Trim(HubSpace, part);
    assert forall c | c in key :: c in part;
    TrimEndsPlain(part);
  }

  lemma TrimEndsPlain(s: string)
    ensures Trimmed(HubSpace, Trim(HubSpace, s))
  {
    var t := TrimStart(HubSpace, s);
    if Trim(HubSpace, s) != [] { assert Trim(HubSpace, s)[0] == t[0]; }
  }

  lemma PlainCut(key: string, rest: string)
    requires CutKey(key) && Hub.Cut(key + "=" + rest).Some? && Hub.Cut(key + "=" + rest).value.key == key
    ensures PlainKey(key)
  {
    var line := key + "=" + rest;
    assert line[0] == key[0];
    StartsPlain(line);
    if "export " <= line {
      ExportInKey(key, rest);
      ShorterKey(key, rest);
    }
  }

  lemma EqualsAfterTrim(more: string, rest: string)
    ensures IndexOf(TrimStart(HubSpace, more + "=" + rest), '=') <= |more|
  {
    var s := more + "=" + rest;
    var k := SkipFrom(HubSpace, s, 0);
    assert s[|more|] == '=';
    assert s[k..][|more| - k] == '=';
  }

  /** After `export ` there is less than the key. */
  lemma ShorterKey(key: string, rest: string)
    requires "export " <= key && Hub.CutAt(TrimStart(HubSpace, (key + "=" + rest)[7..])).Some?
    ensures |Hub.CutAt(TrimStart(HubSpace, (key + "=" + rest)[7..])).value.key| < |key|
  {
    assert (key + "=" + rest)[7..] == key[7..] + "=" + rest;
    EqualsAfterTrim(key[7..], rest);
    CutAtIsCutKey(TrimStart(HubSpace, key[7..] + "=" + rest));
  }

  /** The hub reads a written line as the assignment that it was written for. */
  lemma LineIsRead(exported: bool, key: string, value: string, environ: Hub.Vars, file: Hub.Vars)
    requires HubKey(exported, key) && HubKeeps(value)
    ensures Hub.Assigned(Editor.LineFor(exported, key, value), environ, file) == Some(Pair(key, value))
  {
    CutsLine(exported, key, value);
    ValueKept(value, environ, file);
  }

  ghost predicate AlwaysRead(line: string, key: string, value: string) {
    forall environ: Hub.Vars, file: Hub.Vars :: Hub.Assigned(line, environ, file) == Some(Pair(key, value))
  }

  lemma NoKeyNoRead(exported: bool, key: string, value: string)
    requires !HubKey(exported, key)
    ensures Hub.Assigned(Editor.LineFor(exported, key, value), [], []) != Some(Pair(key, value))
  {
    var cut := Hub.Cut(Editor.LineFor(exported, key, value));
    if cut.Some? && cut.value.key == key { CutGivesKey(exported, key, value); }
  }

  lemma NotAlways(line: string, key: string, value: string, environ: Hub.Vars)
    requires Hub.Assigned(line, environ, []) != Some(Pair(key, value))
    ensures !AlwaysRead(line, key, value)
  {
  }

  /** It does so in every environment and after every other key exactly if the key can be read back and the value is
      kept. */
  lemma LineIsReadExactly(exported: bool, key: string, value: string)
    ensures AlwaysRead(Editor.LineFor(exported, key, value), key, value) <==> HubKey(exported, key) && HubKeeps(value)
  {
    var line := Editor.LineFor(exported, key, value);
    if !HubKey(exported, key) {
      NoKeyNoRead(exported, key, value);
      NotAlways(line, key, value, []);
    } else if !HubKeeps(value) {
      CutsLine(exported, key, value);
      var environ := ValueLost(value, []);
      NotAlways(line, key, value, environ);
    } else {
      forall environ: Hub.Vars, file: Hub.Vars ensures Hub.Assigned(line, environ, file) == Some(Pair(key, value)) {
        LineIsRead(exported, key, value, environ, file);
      }
    }
  }

  /** The line that a set writes is read by the hub as that key and value, in every environment and after every other
      key, exactly if the key can be read back and the value is kept. */
  lemma SetIsReadExactly(text: string, key: string, value: string)
    requires '\n' !in key
    ensures var lines, n := Split(Lens.Set(text, key, value), '\n'), Lens.LineSet(text, key);
      && 1 <= n <= |lines|
      && (AlwaysRead(lines[n - 1], key, value) <==> HubKey(Lens.LastExported(text, key), key) && HubKeeps(value))
  {
    Lens.SetChangesOneLine(text, key, value);
    LineIsReadExactly(Lens.LastExported(text, key), key, value);
  }

  lemma RefAfterQuote(v: string, environ: Hub.Vars)
    requires v == "'" + Ref("B", None) + "" && environ == [Pair("B", "x")]
    ensures Hub.Expand(v, environ, []) == "'x" && Hub.HasRef(v)
  {
    ExpandsReference("'", "B", None, "", environ, []);
    FirstRef("'", "B", "");
    assert v == "'" + "${" + "B" + "}" + "";
    NoneStays("", environ, []);
    assert Meant(environ, [], "B", None) == "x" && "'" + "x" + "" == "'x";
  }

  lemma StartsQuoted(v: string)
    requires v != [] && v[0] == '\''
    ensures NeedsEscapes(v) && Editor.FormatValue(v) == "\"" + Editor.Chain(v) + "\""
  {
    assert '\'' in v && !Editor.BareOk(v);
  }

  /** The failing case: a quote makes the value need escapes, and then the hub expands its reference. */
  lemma QuoteAndReference()
    ensures HubValue("'${B}", [Pair("B", "x")], []) == "'x" && !HubKeeps("'${B}")
  {
    var v, environ := "'${B}", [Pair("B", "x")];
    assert v[0] == '\'' && v == "'" + Ref("B", None) + "";
    RefAfterQuote(v, environ);
    StartsQuoted(v);
    DoubleValue(v, environ, []);
  }
}
