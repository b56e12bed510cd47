/** The hub's dotenv reader: indexed lookups, `${VAR}` expansion and a byte budget, against a naive reader that scans
    the environment and the earlier keys one by one and counts nothing. */
module HubEnv {
  import opened Text
  import opened DotenvSyntax

  const MAX_ENV_EXPANDED: nat := 8 * 1024 * 1024

  type Vars = seq<Pair<string>>

  datatype Result<T> = Ok(value: T) | ExpansionTooLarge

  // ---- lines and assignments -----------------------------------------------------------------------------------

  function ChompAll(pieces: seq<string>): (r: seq<string>)
    ensures |r| == |pieces| && forall k | 0 <= k < |r| :: r[k] == DropCr(pieces[k])
  {
    seq(|pieces|, k requires 0 <= k < |pieces| => DropCr(pieces[k]))
  }

  /** The lines of a text: terminated by LF or CR LF; an unterminated last line is kept as it is. */
  function Lines(text: string): seq<string> {
    var pieces := Split(text, '\n');
    var n := |pieces| - 1;
    ChompAll(pieces[..n]) + if pieces[n] == [] then [] else [pieces[n]]
  }

  /** The key before the first `=` and what follows it. */
  function CutAt(line: string): Option<Pair<string>> {
    var i := IndexOf(line, '=');
    if i == |line| then None
    else
      var key := Trim(HubSpace, line[..i]);
      if key == [] then None else Some(Pair(key, TrimStart(HubSpace, line[i + 1..])))
  }

  /** The key of an assignment and the text after its `=`; nothing for blank lines, comments and bare keys. */
  function Cut(raw: string): Option<Pair<string>> { CutLine(TrimStart(HubSpace, raw)) }

  function CutLine(line: string): Option<Pair<string>> {
    if line == [] || line[0] == '#' then None
    else CutAt(if "export " <= line then TrimStart(HubSpace, line[7..]) else line)
  }

  /** The value before expansion, and whether it is expanded. */
  function Literal(rest: string): (string, bool) { (LiteralBy(HubSpace, rest), rest == [] || rest[0] != '\'') }

  // ---- the naive reader ----------------------------------------------------------------------------------------

  /** The environment comes first, then the earlier keys of the file, then the default. */
  function Resolve(environ: Vars, file: Vars, name: string, default: string): string {
    var e := Find(environ, name);
    if e.Some? then e.value
    else
      var f := Find(file, name);
      if f.Some? then f.value else default
  }

  /** `NAME` or `NAME:-default`. */
  function Reference(environ: Vars, file: Vars, inner: string): string {
    var k := IndexOf2(inner, ':', '-');
    if k == |inner| then Resolve(environ, file, inner, "")
    else Resolve(environ, file, inner[..k], inner[k + 2..])
  }

  /** The value holds a `${` closed by a `}`: what is before the first one, inside it and after it. */
  predicate HasRef(v: string) {
    var i := IndexOf2(v, '$', '{');
    i < |v| && IndexOf(v[i + 2..], '}') < |v[i + 2..]|
  }

  function Head(v: string): string { v[..IndexOf2(v, '$', '{')] }

  function Inner(v: string): string
    requires HasRef(v)
  {
    var after := v[IndexOf2(v, '$', '{') + 2..];
    after[..IndexOf(after, '}')]
  }

  function Tail(v: string): (r: string)
    requires HasRef(v)
    ensures |r| < |v|
  {
    var after := v[IndexOf2(v, '$', '{') + 2..];
    after[IndexOf(after, '}') + 1..]
  }

  function Expand(v: string, environ: Vars, file: Vars): string
    decreases |v|
  {
    if HasRef(v) then Head(v) + Reference(environ, file, Inner(v)) + Expand(Tail(v), environ, file) else v
  }

  function Value(rest: string, environ: Vars, file: Vars): string {
    var (v, expand) := Literal(rest);
    if expand then Expand(v, environ, file) else v
  }

  /** The key and the value one line assigns after the pairs `file`. */
  function Assigned(line: string, environ: Vars, file: Vars): Option<Pair<string>> {
    var cut := Cut(line);
    if cut.None? then None else Some(Pair(cut.value.key, Value(cut.value.value, environ, file)))
  }

  function Store(file: Vars, a: Option<Pair<string>>): Vars {
    if a.None? then file else Put(file, a.value.key, a.value.value)
  }

  function Cost(a: Option<Pair<string>>): nat { if a.None? then 0 else ByteLen(a.value.value) }

  /** The pairs read from `lines` after `file`. */
  function Read(lines: seq<string>, environ: Vars, file: Vars): Vars {
    if lines == [] then file
    else Read(lines[1..], environ, Store(file, Assigned(lines[0], environ, file)))
  }

  /** The bytes of all values assigned, overwritten ones included. */
  function Total(lines: seq<string>, environ: Vars, file: Vars): nat {
    if lines == [] then 0
    else
      var a := Assigned(lines[0], environ, file);
      Cost(a) + Total(lines[1..], environ, Store(file, a))
  }

  // ---- the indexes ---------------------------------------------------------------------------------------------

  /** `env` answers as scanning `environ` does. */
  ghost predicate Answers(env: map<string, string>, environ: Vars) {
    forall name :: Find(environ, name) == if name in env then Some(env[name]) else None
  }

  /** `index` maps each key to its slot, and no key has two. */
  ghost predicate Indexes(index: map<string, nat>, out: Vars) {
    && (forall k | 0 <= k < |out| :: out[k].key in index && index[out[k].key] == k)
    && (forall name | name in index :: index[name] < |out| && out[index[name]].key == name)
  }

  lemma IndexedAreDistinct(index: map<string, nat>, out: Vars)
    requires Indexes(index, out)
    ensures DistinctKeys(out)
  {
  }

  lemma IndexFinds(index: map<string, nat>, out: Vars, name: string)
    requires Indexes(index, out)
    ensures Find(out, name) == if name in index then Some(out[index[name]].value) else None
  {
    if name in index { FindAt(out, index[name]); } else { FindNone(out, name); }
  }

  method BuildEnv(environ: Vars) returns (env: map<string, string>)
    ensures Answers(env, environ)
  {
    env := map[];
    for k := 0 to |environ|
      invariant Answers(env, environ[..k])
    {
      var p := environ[k];
      forall name { FindSnoc(environ[..k], p, name); }
      assert environ[..k + 1] == environ[..k] + [p];
      if p.key !in env { env := env[p.key := p.value]; }
    }
    assert environ[..|environ|] == environ;
  }

  // ---- the reader ----------------------------------------------------------------------------------------------

  method UnescapeDouble(body: string) returns (out: string)
    ensures out == Unescape(body)
  {
    out := [];
    var chars := body;
    while chars != []
      invariant out + Unescape(chars) == Unescape(body)
      decreases |chars|
    {
      var c := chars[0];
      if c == '"' { return; }
      var piece, used := [c], 1;
      if c == '\\' {
        piece := if |chars| == 1 then "\\" else Escaped(chars[1]);
        used := if |chars| == 1 then 1 else 2;
      }
      assert Unescape(chars) == piece + Unescape(chars[used..]);
      Joined(out, piece, Unescape(chars[used..]));
      chars, out := chars[used..], out + piece;
    }
  }

  /** `acc` with `s` put after it, unless that would pass `max` bytes. */
  function Push(acc: string, s: string, max: nat): Option<string> {
    if ByteLen(acc) + ByteLen(s) <= max then Some(acc + s) else None
  }

  lemma PushMeans(acc: string, s: string, more: string, max: nat)
    ensures Push(acc, s, max).Some? ==> ByteLen(acc + s) <= max
    ensures Push(acc, s, max).None? ==> ByteLen(acc + s + more) > max
  {
    ByteLenAppend(acc, s);
    ByteLenAppend(acc + s, more);
  }

  /** The name and the default of `NAME` or `NAME:-default`, looked up through the indexes. */
  method LookUp(inner: string, env: map<string, string>, index: map<string, nat>, out: Vars,
                ghost environ: Vars) returns (value: string)
    requires Answers(env, environ) && Indexes(index, out)
    ensures value == Reference(environ, out, inner)
  {
    var k := IndexOf2(inner, ':', '-');
    var name := if k == |inner| then inner else inner[..k];
    var default := if k == |inner| then "" else inner[k + 2..];
    IndexFinds(index, out, name);
    if name in env {
      value := env[name];
    } else if name in index {
      value := out[index[name]].value;
    } else {
      value := default;
    }
  }

  /** `acc` is what has been expanded so far and `rest` what has not. */
  ghost predicate Midway(acc: string, rest: string, environ: Vars, out: Vars, max: nat, whole: string) {
    acc + Expand(rest, environ, out) == whole && ByteLen(acc) <= max
  }

  /** Expand the first reference of `rest`, whose `${` is at `i`; `last` once everything is written. */
  method ExpandOne(acc: string, rest: string, i: nat, env: map<string, string>, index: map<string, nat>,
                   out: Vars, max: nat, ghost environ: Vars, ghost whole: string)
    returns (r: Option<string>, rest': string, last: bool)
    requires Answers(env, environ) && Indexes(index, out)
    requires Midway(acc, rest, environ, out, max, whole) && i == IndexOf2(rest, '$', '{') < |rest|
    ensures r.None? ==> ByteLen(whole) > max
    ensures r.Some? && !last ==> Midway(r.value, rest', environ, out, max, whole) && |rest'| < |rest|
    ensures r.Some? && last ==> r.value == whole && ByteLen(whole) <= max
  {
    var after := rest[i + 2..];
    var j := IndexOf(after, '}');
    if j == |after| {
      OpenWhole(acc, rest, i);
      r := PushTwo(acc, rest[..i], rest[i..], max, "", whole);
      return r, "", true;
    }
    var value := LookUp(after[..j], env, index, out, environ);
    rest', last := after[j + 1..], false;
    assert HasRef(rest) && Head(rest) == rest[..i] && Inner(rest) == after[..j] && Tail(rest) == rest';
    ghost var more := Expand(rest', environ, out);
    Chain(acc, Head(rest), value, more);
    r := PushTwo(acc, rest[..i], value, max, more, whole);
  }

  lemma OpenWhole(acc: string, rest: string, i: nat)
    requires i <= |rest|
    ensures acc + rest[..i] + rest[i..] == acc + rest && acc + rest[..i] + rest[i..] + "" == acc + rest
  {
    Joined(acc, rest[..i], rest[i..]);
    assert rest[..i] + rest[i..] == rest;
  }

  lemma Chain(a: string, b: string, c: string, d: string)
    ensures a + (b + c + d) == a + b + c + d
  {
    Joined(a, b + c, d);
    Joined(a, b, c);
  }

  method ExpandVars(v: string, env: map<string, string>, index: map<string, nat>, out: Vars, max: nat,
                    ghost environ: Vars) returns (r: Option<string>)
    requires Answers(env, environ) && Indexes(index, out)
    ensures r == Push("", Expand(v, environ, out), max)
  {
    var acc, rest := "", v;
    ghost var whole := Expand(v, environ, out);
    assert "" + whole == whole;
    var i := IndexOf2(rest, '$', '{');
    while i < |rest|
      invariant i == IndexOf2(rest, '$', '{')
      invariant Midway(acc, rest, environ, out, max, whole)
      decreases |rest|
    {
      var step, rest', last := ExpandOne(acc, rest, i, env, index, out, max, environ, whole);
      if step.None? || last { return step; }
      acc, rest := step.value, rest';
      i := IndexOf2(rest, '$', '{');
    }
    PushMeans(acc, rest, "", max);
    assert acc + rest + "" == whole;
    r := Push(acc, rest, max);
  }

  method PushTwo(acc: string, s: string, t: string, max: nat, ghost more: string, ghost whole: string)
    returns (r: Option<string>)
    requires acc + s + t + more == whole
    ensures r.Some? ==> r.value == acc + s + t && ByteLen(r.value) <= max
    ensures r.None? ==> ByteLen(whole) > max
  {
    PushMeans(acc, s, t + more, max);
    Joined(acc + s, t, more);
    r := Push(acc, s, max);
    if r.None? { return; }
    PushMeans(acc + s, t, more, max);
    r := Push(acc + s, t, max);
  }

  /** A reader step after the key and the rest are cut: the value within the budget, or nothing. */
  method ReadValue(rest: string, env: map<string, string>, index: map<string, nat>, out: Vars, budget: nat,
                   ghost environ: Vars) returns (r: Option<string>)
    requires Answers(env, environ) && Indexes(index, out)
    ensures r == Push("", Value(rest, environ, out), budget)
  {
    var value, expand;
    if rest != [] && rest[0] == '\'' {
      value, expand := rest[1..][..IndexOf(rest[1..], '\'')], false;
    } else if rest != [] && rest[0] == '"' {
      value := UnescapeDouble(rest[1..]);
      expand := true;
    } else {
      value, expand := TrimEnd(HubSpace, rest[..IndexOf2(rest, ' ', '#')]), true;
    }
    if expand {
      r := ExpandVars(value, env, index, out, budget, environ);
    } else {
      assert "" + value == value;
      r := Push("", value, budget);
    }
  }

  /** Storing a value through the index is storing it by scanning. */
  lemma StoreIsPut(index: map<string, nat>, out: Vars, key: string, value: string)
    requires Indexes(index, out)
    ensures key in index ==> var out' := out[index[key] := Pair(key, value)];
      out' == Put(out, key, value) && Indexes(index, out')
    ensures key !in index ==> var out' := out + [Pair(key, value)];
      out' == Put(out, key, value) && Indexes(index[key := |out|], out')
  {
    PutAt(out, key, value, if key in index then index[key] else |out|);
  }

  /** Handle one line: the pairs and the index after it and what it cost, or nothing past the budget. */
  method ReadLine(line: string, env: map<string, string>, index: map<string, nat>, out: Vars, budget: nat,
                  ghost environ: Vars) returns (ok: bool, index': map<string, nat>, out': Vars, budget': nat)
    requires Answers(env, environ) && Indexes(index, out)
    ensures var a := Assigned(line, environ, out);
      && (ok <==> Cost(a) <= budget)
      && (ok ==> out' == Store(out, a) && Indexes(index', out') && budget' == budget - Cost(a))
  {
    ok, index', out', budget' := true, index, out, budget;
    var cut := Cut(line);
    if cut.None? { return; }
    var key := cut.value.key;
    var value := ReadValue(cut.value.value, env, index, out, budget, environ);
    ghost var v := Value(cut.value.value, environ, out);
    assert "" + v == v;
    if value.None? { return false, index, out, budget; }
    budget' := budget - ByteLen(value.value);
    StoreIsPut(index, out, key, value.value);
    if key in index {
      out' := out[index[key] := Pair(key, value.value)];
    } else {
      index' := index[key := |out|];
      out' := out + [Pair(key, value.value)];
    }
  }

  /** The hub's reader: exactly the naive reading when its values fit the budget, and nothing otherwise. */
  method TryParseDotenv(text: string, environ: Vars) returns (r: Result<Vars>, ghost index: map<string, nat>)
    ensures Total(Lines(text), environ, []) <= MAX_ENV_EXPANDED ==> r == Ok(Read(Lines(text), environ, []))
    ensures Total(Lines(text), environ, []) > MAX_ENV_EXPANDED ==> r == ExpansionTooLarge
    ensures r.Ok? ==> Indexes(index, r.value) && DistinctKeys(r.value)
  {
    var env := BuildEnv(environ);
    var budget := MAX_ENV_EXPANDED;
    var out: Vars, slots: map<string, nat> := [], map[];
    var rest := Lines(text);
    index := slots;
    while rest != []
      invariant Indexes(slots, out)
      invariant Read(rest, environ, out) == Read(Lines(text), environ, [])
      invariant Total(rest, environ, out) + (MAX_ENV_EXPANDED - budget) == Total(Lines(text), environ, [])
      decreases |rest|
    {
      var ok;
      ok, slots, out, budget := ReadLine(rest[0], env, slots, out, budget, environ);
      if !ok { return ExpansionTooLarge, index; }
      rest := rest[1..];
    }
    IndexedAreDistinct(slots, out);
    index := slots;
    r := Ok(out);
  }

  /** A file whose expansions grow too large is read as empty. */
  method ParseDotenv(text: string, environ: Vars) returns (out: Vars)
    ensures out == if Total(Lines(text), environ, []) <= MAX_ENV_EXPANDED then Read(Lines(text), environ, []) else []
  {
    var r, _ := TryParseDotenv(text, environ);
    out := if r.Ok? then r.value else [];
  }
}
