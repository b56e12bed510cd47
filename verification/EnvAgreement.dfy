/** The browser's reader and the hub's reader on the texts both are meant for. */
module EnvAgreement {
  import opened Text
  import opened DotenvSyntax
  import Hub = HubEnv
  import Editor = EnvEditor
  import Js = JsObject
  import Lens = EnvLens

  /** No `${`. */
  predicate NoRef(s: string) { forall k | 0 <= k < |s| - 1 :: s[k] == '$' ==> s[k + 1] != '{' }

  /** A character both readers treat alike: white space is a space or a tab, and no line ends but LF. */
  predicate CommonChar(c: char) {
    ((HubSpace(c) || WebSpace(c)) ==> c == ' ' || c == '\t') && !LineEnd(c)
  }

  /** `export` only as `export ` before a key that could stand alone. */
  predicate CommonExport(line: string) {
    var t := TrimStart(WebSpace, line);
    Editor.SaysExport(t) ==>
      t[6] == ' ' && (var after := TrimStart(WebSpace, t[6..]); after == [] || (after[0] != '=' && after[0] != '#'))
  }

  predicate CommonLine(line: string) {
    && UnitLen(line) <= Editor.MAX_LINE && NoRef(line)
    && (forall c | c in line :: CommonChar(c))
    && CommonExport(line)
    && !Lens.Assigns(Editor.Classify(line), Js.PROTOTYPE)
  }

  predicate CommonText(text: string) { forall line | line in Split(text, '\n') :: CommonLine(line) }

  // ---- values --------------------------------------------------------------------------------------------------

  lemma NoRefSlice(s: string, i: nat, j: nat)
    requires NoRef(s) && i <= j <= |s|
    ensures NoRef(s[i..j])
  {
  }

  lemma NoRefTail(s: string, i: nat)
    requires NoRef(s) && i <= |s|
    ensures NoRef(s[i..])
  {
  }

  lemma NoRefAppend(a: string, b: string)
    requires NoRef(a) && NoRef(b) && (a != [] && b != [] && a[|a| - 1] == '$' ==> b[0] != '{')
    ensures NoRef(a + b)
  {
  }

  /** Escapes cannot make a `${`. */
  lemma {:induction false} NoRefUnescape(body: string)
    requires NoRef(body)
    ensures NoRef(Unescape(body))
    ensures Unescape(body) != [] && Unescape(body)[0] == '{' ==> body != [] && body[0] == '{'
  {
    if body != [] && body[0] != '"' && !(body[0] == '\\' && |body| == 1) {
      var used := if body[0] == '\\' then 2 else 1;
      var piece := if body[0] == '\\' then Escaped(body[1]) else [body[0]];
      NoRefTail(body, used);
      NoRefUnescape(body[used..]);
      assert NoRef(piece);
      assert piece[|piece| - 1] == '$' ==> body[used - 1] == '$';
      NoRefAppend(piece, Unescape(body[used..]));
      assert Unescape(body) == piece + Unescape(body[used..]);
    }
  }

  lemma NoRefLiteral(ws: char -> bool, rest: string)
    requires NoRef(rest)
    ensures NoRef(LiteralBy(ws, rest))
  {
    if rest != [] { NoRefTail(rest, 1); }
    if rest != [] && rest[0] == '\'' {
      NoRefSlice(rest[1..], 0, IndexOf(rest[1..], '\''));
    } else if rest != [] && rest[0] == '"' {
      NoRefUnescape(rest[1..]);
    } else {
      var cut := rest[..IndexOf2(rest, ' ', '#')];
      NoRefSlice(rest, 0, |cut|);
      NoRefSlice(cut, 0, SkipBack(ws, cut, |cut|));
    }
  }

  lemma NothingToExpand(v: string, environ: Hub.Vars, file: Hub.Vars)
    requires NoRef(v)
    ensures Hub.Expand(v, environ, file) == v
  {
    assert IndexOf2(v, '$', '{') == |v|;
  }

  predicate Alike(s: string) { forall c | c in s :: HubSpace(c) == WebSpace(c) }

  lemma CommonIsAlike(s: string)
    requires forall c | c in s :: CommonChar(c)
    ensures Alike(s) && OneLine(s)
  {
  }

  lemma AlikeTrims(s: string)
    requires Alike(s)
    ensures TrimStart(HubSpace, s) == TrimStart(WebSpace, s) && Alike(TrimStart(WebSpace, s))
    ensures Trim(HubSpace, s) == Trim(WebSpace, s)
  {
    TrimAgrees(HubSpace, WebSpace, s);
    var t := TrimStart(WebSpace, s);
    assert forall c | c in t :: c in s;
    TrimAgrees(HubSpace, WebSpace, t);
  }

  lemma AlikeLiteral(rest: string)
    requires Alike(rest)
    ensures LiteralBy(HubSpace, rest) == LiteralBy(WebSpace, rest)
  {
    var cut := rest[..IndexOf2(rest, ' ', '#')];
    Editor.PrefixWithin(cut, rest);
    TrimAgrees(HubSpace, WebSpace, cut);
  }

  // ---- lines ---------------------------------------------------------------------------------------------------

  /** Text both readers treat alike, with nothing to expand. */
  predicate Fair(s: string) { Alike(s) && OneLine(s) && NoRef(s) }

  lemma FairPart(s: string, i: nat, j: nat)
    requires Fair(s) && i <= j <= |s|
    ensures Fair(s[i..j]) && Fair(s[i..])
  {
    NoRefSlice(s, i, j);
    NoRefTail(s, i);
    assert forall c | c in s[i..j] || c in s[i..] :: c in s;
  }

  /** The key and the rest as the hub has them. */
  function AsHub(cut: Option<(string, string)>): Option<Pair<string>> {
    if cut.None? then None else Some(Pair(Trim(WebSpace, cut.value.0), TrimStart(WebSpace, cut.value.1)))
  }

  /** Where the key may start, both readers cut the same key and rest. */
  lemma BodyAgrees(body: string)
    requires Fair(body) && (body != [] ==> !WebSpace(body[0]) && body[0] != '#')
    ensures Hub.CutAt(body) == AsHub(Editor.KeyAndRest(body))
    ensures Editor.KeyAndRest(body).Some? ==> Fair(Editor.KeyAndRest(body).value.1)
  {
    var i := IndexOf(body, '=');
    if i < |body| {
      FairPart(body, 0, i);
      FairPart(body, i + 1, |body|);
      assert body[0..i] == body[..i];
      AlikeTrims(body[..i]);
      AlikeTrims(body[i + 1..]);
      if i > 0 { Editor.TrimIsTrimmed(body[..i]); } else { assert body[..i] == []; }
    }
  }

  lemma TrimStartCons(ws: char -> bool, s: string)
    requires s != [] && ws(s[0])
    ensures TrimStart(ws, s) == TrimStart(ws, s[1..])
  {
    var i := SkipFrom(ws, s, 0);
    if i == |s| {
      assert TrimStart(ws, s[1..]) == [];
    } else {
      Editor.SkipIs(ws, s[1..], 0, i - 1);
    }
  }

  /** Without `export`. */
  lemma PlainAgrees(t: string)
    requires Fair(t) && t != [] && !WebSpace(t[0]) && t[0] != '#' && !Editor.SaysExport(t)
    requires !("export " <= t)
    ensures Hub.Cut(t) == AsHub(Editor.KeyAndRest(t))
  {
    AlikeTrims(t);
    Editor.TrimStartKeeps(WebSpace, t);
    BodyAgrees(t);
  }

  lemma AfterExport(t: string)
    requires Fair(t) && |t| > 6 && t[6] == ' '
    ensures var after := TrimStart(WebSpace, t[6..]);
      TrimStart(HubSpace, t[7..]) == after && Fair(after) && (after != [] ==> !WebSpace(after[0]))
  {
    var u := t[6..];
    FairPart(t, 6, |t|);
    FairPart(t, 7, |t|);
    AlikeTrims(t[7..]);
    assert u[0] == ' ' && u[1..] == t[7..];
    TrimStartCons(WebSpace, u);
    FairPart(u, SkipFrom(WebSpace, u, 0), |u|);
  }

  /** After `export `. */
  lemma ExportAgrees(t: string)
    requires Fair(t) && "export " <= t && !WebSpace(t[0])
    requires var after := TrimStart(WebSpace, t[6..]); after == [] || after[0] != '#'
    ensures Hub.Cut(t) == AsHub(Editor.KeyAndRest(TrimStart(WebSpace, t[6..])))
    ensures Fair(TrimStart(WebSpace, t[6..]))
  {
    assert t[6] == t[..7][6] == ' ' && t[0] == t[..7][0] == 'e';
    AlikeTrims(t);
    Editor.TrimStartKeeps(WebSpace, t);
    AfterExport(t);
    BodyAgrees(TrimStart(WebSpace, t[6..]));
  }

  lemma ExportIsHubs(t: string)
    requires Editor.SaysExport(t) ==> t[6] == ' '
    ensures Editor.SaysExport(t) <==> "export " <= t
  {
    if Editor.SaysExport(t) { assert t[..7] == t[..6] + [t[6]] == "export "; }
    if "export " <= t { assert t[..6] == t[..7][..6] == "export" && t[6] == t[..7][6] == ' '; }
  }

  /** A line that exports nothing assigns nothing. */
  lemma ExportWithoutKey(t: string)
    requires Editor.SaysExport(t) && Fair(t)
    requires var after := TrimStart(WebSpace, t[6..]);
      Editor.KeyAndRest(after).None? && Fair(after) && (after == [] || (after[0] != '=' && after[0] != '#'))
    ensures Editor.KeyAndRest(t).None?
  {
    var after := TrimStart(WebSpace, t[6..]);
    var k := |t| - |after|;
    assert t[k..] == after;
    assert forall j | k <= j < |t| :: t[j] == after[j - k];
    if IndexOf(after, '=') < |after| { FairPart(after, IndexOf(after, '=') + 1, |after|); }
    assert forall j | 6 <= j < k :: t[j] == t[6..][j - 6];
    assert forall j | 0 <= j < 6 :: t[j] == "export"[j];
    IndexOfIs(t, '=', |t|);
  }

  /** What the editor's pattern finds on a common line, in the hub's terms. */
  lemma MatchAgrees(t: string)
    requires Fair(t) && t != [] && !WebSpace(t[0]) && t[0] != '#' && CommonExport(t)
    ensures var m := Editor.Match(t);
      Hub.Cut(t) == AsHub(if m.None? then None else Some((m.value.1, m.value.2)))
  {
    Editor.TrimStartKeeps(WebSpace, t);
    ExportIsHubs(t);
    if Editor.SaysExport(t) {
      ExportAgrees(t);
      if Editor.KeyAndRest(TrimStart(WebSpace, t[6..])).None? { ExportWithoutKey(t); }
    } else {
      PlainAgrees(t);
    }
  }

  lemma TrimTwice(ws: char -> bool, s: string)
    ensures TrimStart(ws, TrimStart(ws, s)) == TrimStart(ws, s)
  {
  }

  lemma NoCr(line: string)
    requires OneLine(line)
    ensures DropCr(line) == line
  {
    if line != [] { assert line[|line| - 1] in line && LineEnd('\r'); }
  }

  lemma FairLine(line: string)
    requires CommonLine(line)
    ensures Fair(line) && Fair(TrimStart(WebSpace, line))
  {
    CommonIsAlike(line);
    FairPart(line, SkipFrom(WebSpace, line, 0), |line|);
  }

  lemma MatchTrims(line: string)
    ensures Editor.Match(TrimStart(WebSpace, line)) == Editor.Match(line)
    ensures CommonExport(line) ==> CommonExport(TrimStart(WebSpace, line))
  {
    TrimTwice(WebSpace, line);
  }

  lemma CutTrims(line: string)
    ensures Hub.Cut(TrimStart(HubSpace, line)) == Hub.Cut(line)
  {
    TrimTwice(HubSpace, line);
  }

  /** Both readers read a common line as the same assignment, or as none. */
  lemma LineAgrees(line: string, environ: Hub.Vars, file: Hub.Vars)
    requires CommonLine(line)
    ensures var k := Editor.Classify(line);
      Hub.Assigned(line, environ, file) == if k.Assign? then Some(Pair(k.key, k.value)) else None
  {
    var t := TrimStart(WebSpace, line);
    FairLine(line);
    NoCr(line);
    MatchTrims(line);
    CutTrims(line);
    AlikeTrims(line);
    if t != [] && t[0] != '#' {
      TrimTwice(WebSpace, line);
      MatchAgrees(t);
      if Editor.Match(t).Some? {
        MatchedRest(t);
        ValueAgrees(Editor.Match(t).value.2, environ, file);
      }
    }
  }

  lemma MatchedRest(t: string)
    requires Fair(t) && Editor.Match(t).Some? && TrimStart(WebSpace, t) == t
    ensures Fair(Editor.Match(t).value.2)
  {
    var body := t;
    if Editor.SaysExport(t) && Editor.KeyAndRest(TrimStart(WebSpace, t[6..])).Some? {
      FairPart(t, 6, |t|);
      FairPart(t[6..], SkipFrom(WebSpace, t[6..], 0), |t| - 6);
      body := TrimStart(WebSpace, t[6..]);
    }
    FairPart(body, IndexOf(body, '=') + 1, |body|);
  }

  lemma ValueAgrees(rest: string, environ: Hub.Vars, file: Hub.Vars)
    requires Fair(rest)
    ensures Hub.Value(TrimStart(WebSpace, rest), environ, file) == Editor.ValueOf(rest)
  {
    FairPart(rest, SkipFrom(WebSpace, rest, 0), |rest|);
    var r := TrimStart(WebSpace, rest);
    AlikeLiteral(r);
    NoRefLiteral(HubSpace, r);
    NothingToExpand(Hub.Literal(r).0, environ, file);
  }

  // ---- texts ---------------------------------------------------------------------------------------------------

  lemma ReadCons(line: string, rest: seq<string>, environ: Hub.Vars, file: Hub.Vars)
    ensures Hub.Read([line] + rest, environ, file) ==
            Hub.Read(rest, environ, Hub.Store(file, Hub.Assigned(line, environ, file)))
  {
    assert ([line] + rest)[1..] == rest;
  }

  /** One line changes what is listed alike. */
  lemma LineFolds(line: string, environ: Hub.Vars, file: Hub.Vars, more: Hub.Vars)
    requires CommonLine(line) && DistinctKeys(file) && more == Hub.Store(file, Hub.Assigned(line, environ, file))
    ensures DistinctKeys(more) && Js.Listed(more) == Lens.Folded(Editor.Classify(line), Js.Listed(file))
  {
    LineAgrees(line, environ, file);
    var k := Editor.Classify(line);
    if k.Assign? {
      Js.AssignListed(file, k.key, k.value);
      Js.DistinctPut(file, k.key, k.value);
    }
  }

  /** One line and the lines after it. */
  lemma LinesStep(line: string, rest: seq<string>, environ: Hub.Vars, file: Hub.Vars, more: Hub.Vars)
    requires CommonLine(line) && DistinctKeys(file) && more == Hub.Store(file, Hub.Assigned(line, environ, file))
    requires Js.Listed(Hub.Read(rest, environ, more)) == Lens.PlainFrom(Lens.ParseLines(rest), Js.Listed(more))
    ensures var lines := [line] + rest;
      Js.Listed(Hub.Read(lines, environ, file)) == Lens.PlainFrom(Lens.ParseLines(lines), Js.Listed(file))
  {
    LineFolds(line, environ, file, more);
    ReadCons(line, rest, environ, file);
    Lens.ParseCons(line, rest);
    Lens.PlainCons(Editor.Classify(line), Lens.ParseLines(rest), Js.Listed(file));
  }

  lemma {:induction false} LinesAgree(lines: seq<string>, environ: Hub.Vars, file: Hub.Vars)
    requires (forall line | line in lines :: CommonLine(line)) && DistinctKeys(file)
    ensures Js.Listed(Hub.Read(lines, environ, file)) == Lens.PlainFrom(Lens.ParseLines(lines), Js.Listed(file))
  {
    if lines != [] {
      var line, rest := lines[0], lines[1..];
      assert lines == [line] + rest;
      var more := Hub.Store(file, Hub.Assigned(line, environ, file));
      LineFolds(line, environ, file, more);
      LinesAgree(rest, environ, more);
      LinesStep(line, rest, environ, file, more);
    }
  }

  lemma NothingToChomp(pieces: seq<string>)
    requires forall p | p in pieces :: CommonLine(p)
    ensures Hub.ChompAll(pieces) == pieces
  {
    forall k | 0 <= k < |pieces| ensures DropCr(pieces[k]) == pieces[k] { NoCrToStrip(pieces[k]); }
  }

  lemma NoCrToStrip(p: string)
    requires CommonLine(p)
    ensures DropCr(p) == p
  {
    if p != [] { assert CommonChar(p[|p| - 1]); }
  }

  /** The hub's lines are the editor's, but for an empty last one. */
  lemma HubLines(text: string)
    requires CommonText(text)
    ensures var pieces := Split(text, '\n');
      Hub.Lines(text) == pieces || Hub.Lines(text) + [""] == pieces
  {
    var pieces := Split(text, '\n');
    var front := pieces[..|pieces| - 1];
    assert forall p | p in front :: p in pieces;
    NothingToChomp(front);
    LastPiece(front, pieces[|pieces| - 1], pieces);
  }

  lemma LastPiece(front: seq<string>, last: string, pieces: seq<string>)
    requires pieces != [] && front == pieces[..|pieces| - 1] && last == pieces[|pieces| - 1]
    ensures var lines := front + if last == [] then [] else [last]; lines == pieces || lines + [""] == pieces
  {
  }

  lemma {:induction false} PlainBlank(ks: seq<Editor.Kind>, acc: Hub.Vars)
    ensures Lens.PlainFrom(ks + [Editor.Blank], acc) == Lens.PlainFrom(ks, acc)
  {
    if ks == [] {
      assert ks + [Editor.Blank] == [Editor.Blank] && [Editor.Blank][1..] == [];
    } else {
      assert (ks + [Editor.Blank])[1..] == ks[1..] + [Editor.Blank];
      PlainBlank(ks[1..], Lens.Folded(ks[0], acc));
    }
  }

  /** The lines of a common text. */
  lemma CommonLines(text: string)
    requires CommonText(text)
    ensures forall line | line in Hub.Lines(text) :: CommonLine(line)
    ensures Lens.PlainFrom(Lens.ParseLines(Hub.Lines(text)), []) == Lens.PlainFrom(Lens.Parsed(text), [])
  {
    var pieces, lines := Split(text, '\n'), Hub.Lines(text);
    HubLines(text);
    assert forall line | line in lines :: line in pieces;
    if lines != pieces { BlankLast(lines); }
  }

  // ---- the order of the keys -----------------------------------------------------------------------------------

  function KeysOf(vars: Hub.Vars): (r: seq<string>)
    ensures |r| == |vars| && forall i | 0 <= i < |r| :: r[i] == vars[i].key
  {
    seq(|vars|, i requires 0 <= i < |vars| => vars[i].key)
  }

  function Noted(k: Editor.Kind, seen: seq<string>): seq<string> {
    if k.Assign? && k.key !in seen then seen + [k.key] else seen
  }

  /** The keys that the lines assign, after the keys `seen`, in the order in which each is first assigned. */
  function FirstKeys(ks: seq<Editor.Kind>, seen: seq<string>): seq<string>
    decreases |ks|
  {
    if ks == [] then seen else FirstKeys(ks[1..], Noted(ks[0], seen))
  }

  /** No key is one that an object lists before an earlier one. */
  predicate InOrder(keys: seq<string>) { forall i, j | 0 <= i < j < |keys| :: !Js.Before(keys[j], keys[i]) }

  lemma {:induction false} PutKeys(vars: Hub.Vars, key: string, v: string)
    ensures KeysOf(Put(vars, key, v)) == if key in KeysOf(vars) then KeysOf(vars) else KeysOf(vars) + [key]
    decreases |vars|
  {
    if vars == [] {
      assert KeysOf([Pair(key, v)]) == [key];
    } else {
      KeysCons(vars[0], vars[1..]);
      if vars[0].key == key {
        KeysCons(Pair(key, v), vars[1..]);
      } else {
        PutKeys(vars[1..], key, v);
        KeysCons(vars[0], Put(vars[1..], key, v));
      }
    }
  }

  lemma KeysCons(p: Pair<string>, rest: Hub.Vars)
    ensures KeysOf([p] + rest) == [p.key] + KeysOf(rest)
  {
  }

  lemma LineNotes(line: string, environ: Hub.Vars, file: Hub.Vars)
    requires CommonLine(line)
    ensures KeysOf(Hub.Store(file, Hub.Assigned(line, environ, file))) == Noted(Editor.Classify(line), KeysOf(file))
  {
    LineAgrees(line, environ, file);
    var k := Editor.Classify(line);
    if k.Assign? { PutKeys(file, k.key, k.value); }
  }

  lemma FirstCons(k: Editor.Kind, ks: seq<Editor.Kind>, seen: seq<string>)
    ensures FirstKeys([k] + ks, seen) == FirstKeys(ks, Noted(k, seen))
  {
    assert ([k] + ks)[1..] == ks;
  }

  /** The hub keeps the keys in the order in which the lines first assign them. */
  lemma {:induction false} ReadKeys(lines: seq<string>, environ: Hub.Vars, file: Hub.Vars)
    requires forall line | line in lines :: CommonLine(line)
    ensures KeysOf(Hub.Read(lines, environ, file)) == FirstKeys(Lens.ParseLines(lines), KeysOf(file))
    decreases |lines|
  {
    if lines != [] {
      var line, rest := lines[0], lines[1..];
      assert lines == [line] + rest;
      var more := Hub.Store(file, Hub.Assigned(line, environ, file));
      LineNotes(line, environ, file);
      ReadKeys(rest, environ, more);
      ReadCons(line, rest, environ, file);
      Lens.ParseCons(line, rest);
      FirstCons(Editor.Classify(line), Lens.ParseLines(rest), KeysOf(file));
    }
  }

  lemma {:induction false} FirstBlank(ks: seq<Editor.Kind>, seen: seq<string>)
    ensures FirstKeys(ks + [Editor.Blank], seen) == FirstKeys(ks, seen)
    decreases |ks|
  {
    if ks == [] {
      assert ks + [Editor.Blank] == [Editor.Blank] && [Editor.Blank][1..] == [];
    } else {
      assert (ks + [Editor.Blank])[1..] == ks[1..] + [Editor.Blank];
      FirstBlank(ks[1..], Noted(ks[0], seen));
    }
  }

  /** The keys of a common text, in the order in which the hub has them. */
  lemma TextKeys(text: string, environ: Hub.Vars)
    requires CommonText(text)
    ensures KeysOf(Hub.Read(Hub.Lines(text), environ, [])) == FirstKeys(Lens.Parsed(text), [])
  {
    var lines := Hub.Lines(text);
    CommonLines(text);
    ReadKeys(lines, environ, []);
    HubLines(text);
    if lines != Split(text, '\n') {
      ParseBlank(lines);
      FirstBlank(Lens.ParseLines(lines), []);
    }
  }

  lemma ParseBlank(lines: seq<string>)
    ensures Lens.ParseLines(lines + [""]) == Lens.ParseLines(lines) + [Editor.Blank]
  {
    assert Editor.Classify("") == Editor.Blank;
  }

  lemma OrderOfKeys(vars: Hub.Vars)
    ensures InOrder(KeysOf(vars)) <==> Js.Ordered(vars)
  {
    var keys := KeysOf(vars);
    if Js.Ordered(vars) {
      forall i, j | 0 <= i < j < |keys| ensures !Js.Before(keys[j], keys[i]) {
        assert keys[i] == vars[i].key && keys[j] == vars[j].key;
      }
    }
    if InOrder(keys) {
      forall i, j | 0 <= i < j < |vars| ensures !Js.Before(vars[j].key, vars[i].key) {
        assert keys[i] == vars[i].key && keys[j] == vars[j].key;
      }
    }
  }

  /** On the texts both are meant for, the editor's object lists the hub's keys and values: in the hub's order exactly
      if no key of the text is one that an object lists before a key that the text assigns earlier. */
  lemma ReadersAgree(text: string, environ: Hub.Vars)
    requires CommonText(text)
    ensures var hub, web := Hub.Read(Hub.Lines(text), environ, []), Lens.Plain(Lens.Values(text));
      web == Js.Listed(hub) && (web == hub <==> InOrder(FirstKeys(Lens.Parsed(text), [])))
  {
    var lines := Hub.Lines(text);
    CommonLines(text);
    LinesAgree(lines, environ, []);
    Lens.PlainFold(Lens.Parsed(text), 1, []);
    Js.ListedIsOrdered(Hub.Read(lines, environ, []));
    TextKeys(text, environ);
    OrderOfKeys(Hub.Read(lines, environ, []));
  }

  predicate NoIndex(ks: seq<Editor.Kind>) { forall k | k in ks && k.Assign? :: !Js.ArrayIndex(k.key) }

  lemma {:induction false} NoIndexInOrder(ks: seq<Editor.Kind>, seen: seq<string>)
    requires NoIndex(ks) && forall s | s in seen :: !Js.ArrayIndex(s)
    ensures forall s | s in FirstKeys(ks, seen) :: !Js.ArrayIndex(s)
    decreases |ks|
  {
    if ks != [] { NoIndexInOrder(ks[1..], Noted(ks[0], seen)); }
  }

  /** Without keys that look like array indices, the two lists are the same. */
  lemma SameOrder(text: string, environ: Hub.Vars)
    requires CommonText(text) && NoIndex(Lens.Parsed(text))
    ensures Lens.Plain(Lens.Values(text)) == Hub.Read(Hub.Lines(text), environ, [])
  {
    ReadersAgree(text, environ);
    NoIndexInOrder(Lens.Parsed(text), []);
  }

  /** A digit and a letter: the plainest of keys and values. */
  predicate Plainest(key: string, value: string) {
    |key| == 1 && |value| == 1 && '0' <= key[0] <= '9' && 'a' <= value[0] <= 'z'
  }

  lemma WrittenBare(key: string, value: string)
    requires Plainest(key, value)
    ensures Editor.FormatValue(value) == value && Editor.LineFor(false, key, value) == [key[0], '=', value[0]]
  {
    TrimmedIsFixed(WebSpace, value);
    assert IndexOf2(value, ' ', '#') == 1 && IndexOf2(value, '$', '{') == 1;
    assert Editor.BareOk(value);
    assert key + "=" + value == [key[0], '=', value[0]];
  }

  lemma ReadBare(key: string, value: string)
    requires Plainest(key, value)
    ensures Editor.Classify([key[0], '=', value[0]]) == Editor.Assign(key, value, false)
  {
    WrittenBare(key, value);
    Lens.UnitsWithin(Editor.LineFor(false, key, value));
    DigitIsGood(key);
    Editor.LineReadsBack(false, key, value);
  }

  lemma DigitIsGood(key: string)
    requires |key| == 1 && '0' <= key[0] <= '9'
    ensures Editor.GoodKey(key, false)
  {
  }

  lemma BareIsCommon(key: string, value: string)
    requires Plainest(key, value)
    ensures CommonLine([key[0], '=', value[0]])
  {
    var line := [key[0], '=', value[0]];
    ReadBare(key, value);
    Lens.UnitsWithin(line);
    Editor.TrimStartKeeps(WebSpace, line);
    assert !Editor.SaysExport(line);
  }

  /** The keys of two lines. */
  lemma TwoKeys(a: Editor.Kind, b: Editor.Kind)
    requires a.Assign? && b.Assign? && a.key != b.key
    ensures FirstKeys([a, b], []) == [a.key, b.key]
  {
    FirstCons(a, [b], []);
    FirstCons(b, [], [a.key]);
    assert [a] + [b] == [a, b] && [b] + [] == [b] && [] + [a.key] == [a.key];
  }

  lemma OneBeforeTwo()
    ensures Js.Before("1", "2")
  {
    assert |"1"| == 1 && |Js.NO_INDEX| == 10;
    assert Js.Lower("1", "2");
  }

  lemma TwoKinds(text: string, first: string, second: string, a: Editor.Kind, b: Editor.Kind)
    requires Split(text, '\n') == [first, second] && CommonLine(first) && CommonLine(second)
    requires Editor.Classify(first) == a && Editor.Classify(second) == b
    ensures CommonText(text) && Lens.Parsed(text) == [a, b]
  {
  }

  lemma TwoAssignments(text: string, a: string, x: string, b: string, y: string)
    requires Plainest(a, x) && Plainest(b, y) && text == [a[0], '=', x[0]] + ['\n'] + [b[0], '=', y[0]]
    ensures CommonText(text) && Lens.Parsed(text) == [Editor.Assign(a, x, false), Editor.Assign(b, y, false)]
  {
    var first, second := [a[0], '=', x[0]], [b[0], '=', y[0]];
    BareIsCommon(a, x);
    BareIsCommon(b, y);
    ReadBare(a, x);
    ReadBare(b, y);
    TwoLines(text, first, second);
    TwoKinds(text, first, second, Editor.Assign(a, x, false), Editor.Assign(b, y, false));
  }

  lemma LargerFirst(text: string, a: string, x: string, b: string, y: string)
    requires CommonText(text) && Js.Before(b, a) && a != b
    requires Lens.Parsed(text) == [Editor.Assign(a, x, false), Editor.Assign(b, y, false)]
    ensures Lens.Plain(Lens.Values(text)) != Hub.Read(Hub.Lines(text), [], [])
  {
    TwoKeys(Editor.Assign(a, x, false), Editor.Assign(b, y, false));
    NotInOrder(a, b);
    ReadersAgree(text, []);
  }

  /** The failing case: keys that look like indices, the larger first. */
  lemma IndicesAreSorted()
    ensures CommonText("2=x\n1=y")
    ensures Lens.Plain(Lens.Values("2=x\n1=y")) != Hub.Read(Hub.Lines("2=x\n1=y"), [], [])
  {
    var text := "2=x\n1=y";
    assert text == ['2', '=', 'x'] + ['\n'] + ['1', '=', 'y'];
    TwoAssignments(text, "2", "x", "1", "y");
    OneBeforeTwo();
    LargerFirst(text, "2", "x", "1", "y");
  }

  lemma NotInOrder(a: string, b: string)
    requires Js.Before(b, a)
    ensures !InOrder([a, b])
  {
    assert [a, b][1] == b && [a, b][0] == a;
  }

  lemma TwoLines(text: string, first: string, second: string)
    requires text == first + ['\n'] + second && '\n' !in first && '\n' !in second
    ensures Split(text, '\n') == [first, second]
  {
    SplitAt(first, '\n', second);
    SplitNone(second, '\n');
  }

  /** Every key has the same value for both. */
  lemma ValuesAgree(text: string, environ: Hub.Vars, key: string)
    requires CommonText(text)
    ensures Find(Lens.Plain(Lens.Values(text)), key) == Find(Hub.Read(Hub.Lines(text), environ, []), key)
  {
    ReadersAgree(text, environ);
    CommonLines(text);
    ReadIsDistinct(Hub.Lines(text), environ, []);
    Js.FindListed(Hub.Read(Hub.Lines(text), environ, []), key);
  }

  lemma {:induction false} ReadIsDistinct(lines: seq<string>, environ: Hub.Vars, file: Hub.Vars)
    requires DistinctKeys(file)
    ensures DistinctKeys(Hub.Read(lines, environ, file))
  {
    if lines != [] {
      var a := Hub.Assigned(lines[0], environ, file);
      if a.Some? { Js.DistinctPut(file, a.value.key, a.value.value); }
      ReadIsDistinct(lines[1..], environ, Hub.Store(file, a));
    }
  }

  lemma BlankLast(lines: seq<string>)
    ensures Lens.PlainFrom(Lens.ParseLines(lines + [""]), []) == Lens.PlainFrom(Lens.ParseLines(lines), [])
  {
    assert Editor.Classify("") == Editor.Blank;
    assert Lens.ParseLines(lines + [""]) == Lens.ParseLines(lines) + [Editor.Blank];
    PlainBlank(Lens.ParseLines(lines), []);
  }

  // ---- the budget ----------------------------------------------------------------------------------------------

  lemma {:induction false} UnescapeShrinks(body: string)
    ensures ByteLen(Unescape(body)) <= ByteLen(body)
  {
    if body != [] && body[0] != '"' && !(body[0] == '\\' && |body| == 1) {
      var used := if body[0] == '\\' then 2 else 1;
      var piece := if body[0] == '\\' then Escaped(body[1]) else [body[0]];
      UnescapeShrinks(body[used..]);
      ByteLenAppend(piece, Unescape(body[used..]));
      ByteLenAppend(body[..used], body[used..]);
      assert body == body[..used] + body[used..];
      ShortPiece(body[..used], piece);
    }
  }

  lemma ShortPiece(from: string, piece: string)
    requires (|from| == 1 && piece == from) || (|from| == 2 && from[0] == '\\' && piece == Escaped(from[1]))
    ensures ByteLen(piece) <= ByteLen(from)
  {
    if |from| == 2 {
      assert from == [from[0]] + [from[1]];
      ByteLenAppend([from[0]], [from[1]]);
      assert piece == [piece[0]] + piece[1..];
      assert |piece| == 2 ==> piece == from;
      assert [from[0]][1..] == [] && [from[1]][1..] == [];
      if |piece| == 1 { assert piece[1..] == []; }
    }
  }

  lemma SuffixShrinks(s: string, i: nat)
    requires i <= |s|
    ensures ByteLen(s[i..]) <= ByteLen(s)
  {
    assert s[..i] + s[i..] == s;
    ByteLenAppend(s[..i], s[i..]);
  }

  lemma PrefixShrinks(s: string, j: nat)
    requires j <= |s|
    ensures ByteLen(s[..j]) <= ByteLen(s)
  {
    assert s[..j] + s[j..] == s;
    ByteLenAppend(s[..j], s[j..]);
  }

  lemma LiteralShrinks(ws: char -> bool, rest: string)
    ensures ByteLen(LiteralBy(ws, rest)) <= ByteLen(rest)
  {
    if rest != [] { SuffixShrinks(rest, 1); }
    if rest != [] && rest[0] == '\'' {
      PrefixShrinks(rest[1..], IndexOf(rest[1..], '\''));
    } else if rest != [] && rest[0] == '"' {
      UnescapeShrinks(rest[1..]);
    } else {
      var k := IndexOf2(rest, ' ', '#');
      PrefixShrinks(rest, k);
      PrefixShrinks(rest[..k], SkipBack(ws, rest[..k], k));
    }
  }

  lemma TrimStartShrinks(ws: char -> bool, s: string)
    ensures ByteLen(TrimStart(ws, s)) <= ByteLen(s)
  {
    SuffixShrinks(s, SkipFrom(ws, s, 0));
  }

  lemma CutAtShrinks(body: string)
    requires Hub.CutAt(body).Some?
    ensures ByteLen(Hub.CutAt(body).value.value) <= ByteLen(body)
  {
    var i := IndexOf(body, '=');
    SuffixShrinks(body, i + 1);
    TrimStartShrinks(HubSpace, body[i + 1..]);
  }

  lemma CutShrinks(line: string)
    requires Hub.Cut(line).Some?
    ensures ByteLen(Hub.Cut(line).value.value) <= ByteLen(line)
  {
    var t := TrimStart(HubSpace, line);
    TrimStartShrinks(HubSpace, line);
    if "export " <= t {
      SuffixShrinks(t, 7);
      TrimStartShrinks(HubSpace, t[7..]);
      CutAtShrinks(TrimStart(HubSpace, t[7..]));
    } else {
      CutAtShrinks(t);
    }
  }

  function Bytes(lines: seq<string>): nat {
    if lines == [] then 0 else ByteLen(lines[0]) + Bytes(lines[1..])
  }

  lemma LineCost(line: string, environ: Hub.Vars, file: Hub.Vars)
    requires CommonLine(line)
    ensures Hub.Cost(Hub.Assigned(line, environ, file)) <= ByteLen(line)
  {
    if Hub.Cut(line).Some? {
      CutShrinks(line);
      var rest := Hub.Cut(line).value.value;
      LiteralShrinks(HubSpace, rest);
      CutIsFair(line);
      NoRefLiteral(HubSpace, rest);
      NothingToExpand(Hub.Literal(rest).0, environ, file);
    }
  }

  lemma NoRefTrim(s: string)
    requires NoRef(s)
    ensures NoRef(TrimStart(HubSpace, s))
  {
    NoRefTail(s, SkipFrom(HubSpace, s, 0));
  }

  lemma CutIsFair(line: string)
    requires CommonLine(line) && Hub.Cut(line).Some?
    ensures NoRef(Hub.Cut(line).value.value)
  {
    NoRefTrim(line);
    var t := TrimStart(HubSpace, line);
    var body := t;
    if "export " <= t {
      NoRefTail(t, 7);
      NoRefTrim(t[7..]);
      body := TrimStart(HubSpace, t[7..]);
    }
    assert Hub.Cut(line) == Hub.CutAt(body);
    NoRefTail(body, IndexOf(body, '=') + 1);
    NoRefTrim(body[IndexOf(body, '=') + 1..]);
  }

  lemma {:induction false} LinesCost(lines: seq<string>, environ: Hub.Vars, file: Hub.Vars)
    requires forall line | line in lines :: CommonLine(line)
    ensures Hub.Total(lines, environ, file) <= Bytes(lines)
  {
    if lines != [] {
      LineCost(lines[0], environ, file);
      LinesCost(lines[1..], environ, Hub.Store(file, Hub.Assigned(lines[0], environ, file)));
    }
  }

  lemma {:induction false} BytesOfSplit(pieces: seq<string>)
    ensures Bytes(pieces) <= ByteLen(Join(pieces, '\n'))
  {
    if |pieces| > 1 {
      BytesOfSplit(pieces[1..]);
      ByteLenAppend(pieces[0] + ['\n'], Join(pieces[1..], '\n'));
      ByteLenAppend(pieces[0], ['\n']);
    } else if |pieces| == 1 {
      assert pieces[1..] == [];
    }
  }

  /** The hub accepts every common text no longer than its budget, so there its answer is the editor's. */
  lemma BudgetSuffices(text: string, environ: Hub.Vars)
    requires CommonText(text) && ByteLen(text) <= Hub.MAX_ENV_EXPANDED
    ensures Hub.Total(Hub.Lines(text), environ, []) <= Hub.MAX_ENV_EXPANDED
  {
    var pieces, lines := Split(text, '\n'), Hub.Lines(text);
    HubLines(text);
    CommonLines(text);
    LinesCost(lines, environ, []);
    if lines != pieces { BytesAppend(lines, [""]); }
    JoinSplit(text, '\n');
    BytesOfSplit(pieces);
  }

  lemma {:induction false} BytesAppend(a: seq<string>, b: seq<string>)
    ensures Bytes(a + b) == Bytes(a) + Bytes(b)
  {
    if a == [] {
      assert a + b == b;
    } else {
      assert (a + b)[1..] == a[1..] + b;
      BytesAppend(a[1..], b);
    }
  }

  /** Both readers run on a text both are meant for. */
  method ReadBoth(text: string, environ: Hub.Vars) returns (hub: Hub.Vars, web: Lens.Slots)
    requires CommonText(text) && ByteLen(text) <= Hub.MAX_ENV_EXPANDED
    ensures Lens.Plain(web) == Js.Listed(hub)
    ensures Lens.Plain(web) == hub <==> InOrder(FirstKeys(Lens.Parsed(text), []))
    ensures hub == Hub.Read(Hub.Lines(text), environ, []) && web == Lens.Values(text)
  {
    ReadersAgree(text, environ);
    BudgetSuffices(text, environ);
    hub := Hub.ParseDotenv(text, environ);
    web := Lens.ReadValues(text);
  }
}
