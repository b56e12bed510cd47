/** What a reference in a value of the env file stands for: the environment's value, else the file's, else the
    default. */
module HubReference {
  import opened Text
  import opened DotenvSyntax
  import opened HubEnv

  predicate Without2(s: string, a: char, b: char) { forall k | 0 <= k < |s| - 1 :: s[k] == a ==> s[k + 1] != b }

  /** `${name}` or `${name:-default}`. */
  function Ref(name: string, default: Option<string>): string {
    "${" + name + (if default.Some? then ":-" + default.value else "") + "}"
  }

  /** Written so that it is read as one reference to `name`. */
  predicate Writes(name: string, default: Option<string>) {
    && '}' !in name && Without2(name, ':', '-') && (default.Some? ==> '}' !in default.value)
  }

  /** The value of a reference. */
  function Meant(environ: Vars, file: Vars, name: string, default: Option<string>): string {
    if Find(environ, name).Some? then Find(environ, name).value
    else if Find(file, name).Some? then Find(file, name).value
    else if default.Some? then default.value
    else ""
  }

  lemma SplitsName(environ: Vars, file: Vars, name: string, default: Option<string>)
    requires Writes(name, default)
    ensures Reference(environ, file, name + if default.Some? then ":-" + default.value else "") ==
            Meant(environ, file, name, default)
  {
    var inner := name + if default.Some? then ":-" + default.value else "";
    if default.Some? {
      assert inner[..|name|] == name && inner[|name| + 2..] == default.value;
      IndexOf2Is(inner, ':', '-', |name|);
    } else {
      assert inner == name;
      IndexOf2Is(inner, ':', '-', |name|);
    }
  }

  /** Where the first reference is. */
  lemma FirstRef(pre: string, inner: string, post: string)
    requires Without2(pre, '$', '{') && '}' !in inner
    ensures var v := pre + "${" + inner + "}" + post;
      HasRef(v) && Head(v) == pre && Inner(v) == inner && Tail(v) == post
  {
    var v := pre + "${" + inner + "}" + post;
    assert v[|pre|] == '$' && v[|pre| + 1] == '{';
    assert forall k | 0 <= k < |pre| :: v[k] == pre[k];
    IndexOf2Is(v, '$', '{', |pre|);
    var after := v[|pre| + 2..];
    assert after == inner + "}" + post;
    IndexOfIs(after, '}', |inner|);
    assert after[..|inner|] == inner && after[|inner| + 1..] == post && v[..|pre|] == pre;
  }

  /** The first reference of a value is replaced by what it stands for, and what follows is expanded likewise. */
  lemma ExpandsReference(pre: string, name: string, default: Option<string>, post: string, environ: Vars, file: Vars)
    requires Without2(pre, '$', '{') && Writes(name, default)
    ensures Expand(pre + Ref(name, default) + post, environ, file) ==
            pre + Meant(environ, file, name, default) + Expand(post, environ, file)
  {
    var inner := name + if default.Some? then ":-" + default.value else "";
    assert pre + Ref(name, default) + post == pre + "${" + inner + "}" + post;
    FirstRef(pre, inner, post);
    SplitsName(environ, file, name, default);
  }

  /** A reference that is not closed stands for itself. */
  lemma OpenStays(pre: string, tail: string, environ: Vars, file: Vars)
    requires Without2(pre, '$', '{') && '}' !in tail
    ensures Expand(pre + "${" + tail, environ, file) == pre + "${" + tail
  {
    var v := pre + "${" + tail;
    assert v[|pre|] == '$' && v[|pre| + 1] == '{';
    assert forall k | 0 <= k < |pre| :: v[k] == pre[k];
    IndexOf2Is(v, '$', '{', |pre|);
    assert v[|pre| + 2..] == tail;
    IndexOfIs(tail, '}', |tail|);
  }

  lemma NoneStays(v: string, environ: Vars, file: Vars)
    requires Without2(v, '$', '{')
    ensures Expand(v, environ, file) == v
  {
    IndexOf2Is(v, '$', '{', |v|);
  }

  // ---- a line that is a reference ----------------------------------------------------------------------------------

  /** A key that is read back from a line. */
  predicate CutKey(key: string) { key != [] && Trimmed(HubSpace, key) && '=' !in key }

  /** A key that a line can start with. */
  predicate PlainKey(key: string) { CutKey(key) && key[0] != '#' && !("export " <= key) }

  lemma CutsAt(key: string, rest: string)
    requires CutKey(key)
    ensures CutAt(key + "=" + rest) == Some(Pair(key, TrimStart(HubSpace, rest)))
  {
    var line := key + "=" + rest;
    TrimmedIsFixed(HubSpace, key);
    IndexOfIs(line, '=', |key|);
    assert line[..|key|] == key && line[|key| + 1..] == rest;
  }

  lemma StartsPlain(s: string)
    requires s != [] && !HubSpace(s[0])
    ensures TrimStart(HubSpace, s) == s
  {
  }

  /** The key says `export`, or the line does not. */
  lemma ExportInKey(key: string, rest: string)
    requires '=' !in key && "export " <= key + "=" + rest
    ensures "export " <= key
  {
    var line := key + "=" + rest;
    assert line[..7] == "export " && line[|key|] == '=';
    assert forall k | 0 <= k < 7 :: "export "[k] == line[..7][k] == line[k] != '=';
    assert key[..7] == line[..7];
  }

  lemma PlainStarts(key: string, rest: string)
    requires PlainKey(key)
    ensures var line := key + "=" + rest;
      line != [] && line[0] != '#' && !HubSpace(line[0]) && !("export " <= line)
  {
    var line := key + "=" + rest;
    assert line[0] == key[0];
    if "export " <= line { ExportInKey(key, rest); }
  }

  lemma CutsFrom(line: string)
    requires line != [] && line[0] != '#' && !HubSpace(line[0]) && !("export " <= line)
    ensures Cut(line) == CutAt(line)
  {
    StartsPlain(line);
  }

  lemma CutsPlain(key: string, rest: string)
    requires PlainKey(key)
    ensures Cut(key + "=" + rest) == Some(Pair(key, TrimStart(HubSpace, rest)))
  {
    PlainStarts(key, rest);
    CutsFrom(key + "=" + rest);
    CutsAt(key, rest);
  }

  lemma BareLiteral(rest: string)
    requires rest != [] && rest[0] != '\'' && rest[0] != '"' && Without2(rest, ' ', '#')
    requires !HubSpace(rest[|rest| - 1])
    ensures Literal(rest) == (rest, true)
  {
    IndexOf2Is(rest, ' ', '#', |rest|);
    assert rest[..|rest|] == rest;
  }

  lemma RefAsItIs(name: string, default: Option<string>)
    ensures var r := Ref(name, default); r != [] && r[0] == '$' && r[|r| - 1] == '}'
  {
    var r := Ref(name, default);
    assert r[0] == '$';
  }

  lemma RefExpands(name: string, default: Option<string>, environ: Vars, file: Vars)
    requires Writes(name, default)
    ensures Expand(Ref(name, default), environ, file) == Meant(environ, file, name, default)
  {
    var r, m := Ref(name, default), Meant(environ, file, name, default);
    ExpandsReference([], name, default, [], environ, file);
    assert [] + r + [] == r && [] + m + [] == m;
    NoneStays([], environ, file);
  }

  lemma RefValue(name: string, default: Option<string>, environ: Vars, file: Vars)
    requires Writes(name, default) && Without2(Ref(name, default), ' ', '#')
    ensures Value(Ref(name, default), environ, file) == Meant(environ, file, name, default)
  {
    RefAsItIs(name, default);
    BareLiteral(Ref(name, default));
    RefExpands(name, default, environ, file);
  }

  lemma AssignsValue(line: string, key: string, rest: string, value: string, environ: Vars, file: Vars)
    requires Cut(line) == Some(Pair(key, rest)) && Value(rest, environ, file) == value
    ensures Assigned(line, environ, file) == Some(Pair(key, value))
  {
  }

  /** A line that assigns a reference assigns what it stands for, the environment before the keys read so far. */
  lemma AssignsReference(key: string, name: string, default: Option<string>, environ: Vars, file: Vars)
    requires PlainKey(key) && Writes(name, default) && Without2(Ref(name, default), ' ', '#')
    ensures Assigned(key + "=" + Ref(name, default), environ, file) ==
            Some(Pair(key, Meant(environ, file, name, default)))
  {
    var rest, line := Ref(name, default), key + "=" + Ref(name, default);
    RefAsItIs(name, default);
    CutsPlain(key, rest);
    StartsPlain(rest);
    RefValue(name, default, environ, file);
    AssignsValue(line, key, rest, Meant(environ, file, name, default), environ, file);
  }

  lemma {:induction false} ReadSnoc(lines: seq<string>, line: string, environ: Vars, file: Vars)
    ensures var before := Read(lines, environ, file);
      Read(lines + [line], environ, file) == Store(before, Assigned(line, environ, before))
    decreases |lines|
  {
    if lines == [] {
      assert lines + [line] == [line] && [line][1..] == [];
    } else {
      assert (lines + [line])[1..] == lines[1..] + [line];
      ReadSnoc(lines[1..], line, environ, Store(file, Assigned(lines[0], environ, file)));
    }
  }

  /** One more line at the end of a text that ends its lines. */
  lemma LinesSnoc(text: string, line: string)
    requires '\n' !in line && line != []
    ensures Lines(text + ['\n'] + line) == Lines(text + ['\n']) + [line]
  {
    SplitAppend(text, line, '\n');
    SplitNone(line, '\n');
    assert text + ['\n'] == text + ['\n'] + [];
    SplitAppend(text, [], '\n');
    SplitNone([], '\n');
    var pieces := Split(text, '\n');
    assert (pieces + [line])[..|pieces|] == pieces && (pieces + [[]])[..|pieces|] == pieces;
  }

  function Ended(line: string, crlf: bool): string { if crlf then line + ['\r'] else line }

  /** Lines, each ended by LF or by CR LF. */
  function Terminated(lines: seq<string>, crlf: bool): string
    decreases |lines|
  {
    if lines == [] then "" else Ended(lines[0], crlf) + ['\n'] + Terminated(lines[1..], crlf)
  }

  lemma LinesCons(line: string, rest: string)
    requires '\n' !in line
    ensures Lines(line + ['\n'] + rest) == [DropCr(line)] + Lines(rest)
  {
    SplitAt(line, '\n', rest);
    ChompCons(line, Split(rest, '\n'));
  }

  lemma ChompCons(line: string, pieces: seq<string>)
    requires pieces != []
    ensures ChompAll(([line] + pieces)[..|pieces|]) == [DropCr(line)] + ChompAll(pieces[..|pieces| - 1])
    ensures ([line] + pieces)[|pieces|] == pieces[|pieces| - 1]
  {
    assert ([line] + pieces)[..|pieces|] == [line] + pieces[..|pieces| - 1];
  }

  lemma EndDropped(line: string, crlf: bool)
    requires '\n' !in line && (line == [] || line[|line| - 1] != '\r')
    ensures DropCr(Ended(line, crlf)) == line && '\n' !in Ended(line, crlf)
  {
    if crlf { assert (line + ['\r'])[..|line|] == line; }
  }

  /** Either line ending gives back the lines, so both give the same values. */
  lemma {:induction false} LinesAreRead(lines: seq<string>, crlf: bool)
    requires forall l | l in lines :: '\n' !in l && (l == [] || l[|l| - 1] != '\r')
    ensures Lines(Terminated(lines, crlf)) == lines
    decreases |lines|
  {
    if lines == [] {
      SplitNone("", '\n');
    } else {
      assert lines[0] in lines && forall l | l in lines[1..] :: l in lines;
      EndDropped(lines[0], crlf);
      LinesCons(Ended(lines[0], crlf), Terminated(lines[1..], crlf));
      LinesAreRead(lines[1..], crlf);
    }
  }

  /** The value of a key whose last line is a reference, whatever comes before. */
  lemma ReadsReference(text: string, key: string, name: string, default: Option<string>, environ: Vars)
    requires PlainKey(key) && Writes(name, default) && Without2(Ref(name, default), ' ', '#')
    requires '\n' !in key + "=" + Ref(name, default)
    ensures var file := Read(Lines(text + ['\n']), environ, []);
      Read(Lines(text + ['\n'] + (key + "=" + Ref(name, default))), environ, []) ==
      Put(file, key, Meant(environ, file, name, default))
  {
    var line := key + "=" + Ref(name, default);
    LinesSnoc(text, line);
    var before := Lines(text + ['\n']);
    ReadSnoc(before, line, environ, []);
    AssignsReference(key, name, default, environ, Read(before, environ, []));
  }

  /** So the text gives the key the environment's value if there is one, whatever the file says; else the file's; else
      the default. */
  lemma ReferenceIsFound(text: string, key: string, name: string, default: Option<string>, environ: Vars)
    requires PlainKey(key) && Writes(name, default) && Without2(Ref(name, default), ' ', '#')
    requires '\n' !in key + "=" + Ref(name, default)
    ensures var file := Read(Lines(text + ['\n']), environ, []);
      var found := Find(Read(Lines(text + ['\n'] + (key + "=" + Ref(name, default))), environ, []), key);
      && (Find(environ, name).Some? ==> found == Find(environ, name))
      && (Find(environ, name).None? && Find(file, name).Some? ==> found == Find(file, name))
      && (Find(environ, name).None? && Find(file, name).None? ==>
            found == Some(if default.Some? then default.value else ""))
  {
    ReadsReference(text, key, name, default, environ);
    var file := Read(Lines(text + ['\n']), environ, []);
    FindPut(file, key, Meant(environ, file, name, default), key);
  }
}
