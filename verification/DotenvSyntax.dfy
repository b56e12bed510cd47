/** What the two dotenv readers share: white space, encoded lengths, the escapes of a double-quoted value, and
    dictionaries that keep the order of their keys. */
module DotenvSyntax {
  import opened Text

  /** White space for the hub: the Unicode White_Space property, as `trim` uses it. */
  predicate HubSpace(c: char) {
    c == ' ' || '\t' <= c <= '\r' || c == '\U{85}' || c == '\U{A0}' || c == '\U{1680}' || '\U{2000}' <= c <= '\U{200A}'
    || c == '\U{2028}' || c == '\U{2029}' || c == '\U{202F}' || c == '\U{205F}' || c == '\U{3000}'
  }

  /** White space for the browser: `trim` and `\s` leave out U+0085 and include U+FEFF. */
  predicate WebSpace(c: char) {
    (HubSpace(c) && c != '\U{85}') || c == '\U{FEFF}'
  }

  /** The characters a dot in a pattern does not match. */
  predicate LineEnd(c: char) { c == '\n' || c == '\r' || c == '\U{2028}' || c == '\U{2029}' }

  /** A dot matches every character of `s`. */
  predicate OneLine(s: string) { forall c | c in s :: !LineEnd(c) }

  /** A line without the CR at its end. */
  function DropCr(line: string): string {
    if line != [] && line[|line| - 1] == '\r' then line[..|line| - 1] else line
  }

  function Utf8Len(c: char): nat {
    if c < '\U{80}' then 1 else if c < '\U{800}' then 2 else if c < '\U{10000}' then 3 else 4
  }

  /** The length of a string in the hub: bytes of its UTF-8 form. */
  function ByteLen(s: string): nat {
    if s == [] then 0 else Utf8Len(s[0]) + ByteLen(s[1..])
  }

  /** The length of a string in the browser: UTF-16 code units. */
  function UnitLen(s: string): nat {
    if s == [] then 0 else (if s[0] < '\U{10000}' then 1 else 2) + UnitLen(s[1..])
  }

  lemma {:induction false} ByteLenAppend(a: string, b: string)
    ensures ByteLen(a + b) == ByteLen(a) + ByteLen(b)
  {
    if a == [] {
      assert a + b == b;
    } else {
      assert (a + b)[1..] == a[1..] + b;
      ByteLenAppend(a[1..], b);
    }
  }

  lemma {:induction false} UnitLenAppend(a: string, b: string)
    ensures UnitLen(a + b) == UnitLen(a) + UnitLen(b)
  {
    if a == [] {
      assert a + b == b;
    } else {
      assert (a + b)[1..] == a[1..] + b;
      UnitLenAppend(a[1..], b);
    }
  }

  /** What a backslash and the character after it stand for. */
  function Escaped(c: char): string {
    match c
    case 'n' => "\n"
    case 't' => "\t"
    case 'r' => "\r"
    case '"' => "\""
    case '\'' => "'"
    case '\\' => "\\"
    case _ => ['\\', c]
  }

  /** The value of what follows an opening double quote: up to the closing one, or all of it. */
  function Unescape(body: string): string {
    if body == [] || body[0] == '"' then []
    else if body[0] != '\\' then [body[0]] + Unescape(body[1..])
    else if |body| == 1 then "\\"
    else Escaped(body[1]) + Unescape(body[2..])
  }

  /** The value written after `=`, read with `ws` as white space: single quotes literal, double quotes with escapes,
      anything else up to a `#` after a space. */
  function LiteralBy(ws: char -> bool, rest: string): string {
    if rest != [] && rest[0] == '\'' then rest[1..][..IndexOf(rest[1..], '\'')]
    else if rest != [] && rest[0] == '"' then Unescape(rest[1..])
    else TrimEnd(ws, rest[..IndexOf2(rest, ' ', '#')])
  }

  // ---- ordered dictionaries ------------------------------------------------------------------------------------

  datatype Pair<V> = Pair(key: string, value: V)

  /** The first entry of a name. */
  function Find<V>(pairs: seq<Pair<V>>, name: string): Option<V> {
    if pairs == [] then None
    else if pairs[0].key == name then Some(pairs[0].value)
    else Find(pairs[1..], name)
  }

  /** The pairs with `key` set to `value`: in its place if it is there, else at the end. */
  function Put<V>(pairs: seq<Pair<V>>, key: string, value: V): seq<Pair<V>> {
    if pairs == [] then [Pair(key, value)]
    else if pairs[0].key == key then [Pair(key, value)] + pairs[1..]
    else [pairs[0]] + Put(pairs[1..], key, value)
  }

  /** The pairs without the entries of `key`. */
  function Drop<V>(pairs: seq<Pair<V>>, key: string): seq<Pair<V>> {
    if pairs == [] then []
    else if pairs[0].key == key then Drop(pairs[1..], key)
    else [pairs[0]] + Drop(pairs[1..], key)
  }

  predicate DistinctKeys<V>(pairs: seq<Pair<V>>) { forall i, j | 0 <= i < j < |pairs| :: pairs[i].key != pairs[j].key }

  lemma {:induction false} FindAt<V>(pairs: seq<Pair<V>>, k: nat)
    requires k < |pairs| && forall i | 0 <= i < k :: pairs[i].key != pairs[k].key
    ensures Find(pairs, pairs[k].key) == Some(pairs[k].value)
  {
    if k > 0 { FindAt(pairs[1..], k - 1); }
  }

  lemma {:induction false} FindNone<V>(pairs: seq<Pair<V>>, name: string)
    requires forall i | 0 <= i < |pairs| :: pairs[i].key != name
    ensures Find(pairs, name) == None
  {
    if pairs != [] { FindNone(pairs[1..], name); }
  }

  lemma {:induction false} PutAt<V>(pairs: seq<Pair<V>>, key: string, value: V, k: nat)
    requires k <= |pairs| && forall i | 0 <= i < k :: pairs[i].key != key
    requires k < |pairs| ==> pairs[k].key == key
    ensures Put(pairs, key, value) == if k < |pairs| then pairs[k := Pair(key, value)] else pairs + [Pair(key, value)]
  {
    if k > 0 { PutAt(pairs[1..], key, value, k - 1); }
  }

  lemma {:induction false} FindSnoc<V>(pairs: seq<Pair<V>>, p: Pair<V>, name: string)
    ensures Find(pairs + [p], name) ==
      if Find(pairs, name).Some? then Find(pairs, name) else if p.key == name then Some(p.value) else None
  {
    if pairs == [] {
      assert pairs + [p] == [p];
    } else {
      assert (pairs + [p])[1..] == pairs[1..] + [p];
      FindSnoc(pairs[1..], p, name);
    }
  }

  lemma {:induction false} FindPut<V>(pairs: seq<Pair<V>>, key: string, v: V, other: string)
    ensures Find(Put(pairs, key, v), key) == Some(v)
    ensures other != key ==> Find(Put(pairs, key, v), other) == Find(pairs, other)
  {
    if pairs != [] && pairs[0].key != key { FindPut(pairs[1..], key, v, other); }
  }

  lemma {:induction false} PutPut<V>(pairs: seq<Pair<V>>, key: string, v: V, w: V)
    ensures Put(Put(pairs, key, v), key, w) == Put(pairs, key, w)
  {
    if pairs != [] && pairs[0].key != key { PutPut(pairs[1..], key, v, w); }
  }
}
