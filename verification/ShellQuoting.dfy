/** Arguments quoted for a shell, and the words the shell reads from them (sections 2.2.1, 2.2.2 and 2.3 of the POSIX
    Shell Command Language). */
module ShellQuoting {
  import opened Text

  // ---- quoting ---------------------------------------------------------------------------------------------------

  predicate Bare(c: char) {
    'a' <= c <= 'z' || 'A' <= c <= 'Z' || '0' <= c <= '9' || c == '_' || c == '@' || c == '%' || c == '+' || c == '=' ||
    c == ':' || c == ',' || c == '.' || c == '/' || c == '-'
  }

  predicate AllBare(a: string) { forall c | c in a :: Bare(c) }

  /** What stands for a single quote between single quotes: one ends them, an escaped one, and one that opens them
      again. */
  const QUOTE := "'\\''"

  function Quote(a: string): string {
    if a != [] && AllBare(a) then a else ['\''] + Replace(a, '\'', QUOTE) + ['\'']
  }

  function Quotes(args: seq<string>): (r: seq<string>)
    ensures |r| == |args|
  {
    if args == [] then [] else [Quote(args[0])] + Quotes(args[1..])
  }

  function CliString(args: seq<string>): string { Join(Quotes(args), ' ') }

  // ---- the shell -------------------------------------------------------------------------------------------------

  predicate Blank(c: char) { c == ' ' || c == '\t' || c == '\n' }

  /** Characters that do something other than stand for themselves when they are not quoted. */
  predicate Special(c: char) {
    c == '|' || c == '&' || c == ';' || c == '<' || c == '>' || c == '(' || c == ')' || c == '$' || c == '`' ||
    c == '"' || c == '*' || c == '?' || c == '[' || c == '#' || c == '~'
  }

  function Then(word: string, rest: Option<seq<string>>): Option<seq<string>> {
    match rest
    case None => None
    case Some(words) => Some([word] + words)
  }

  /** The words of a command line, or none when it is not just words. `word` is the one being read, if there is one. */
  function Words(s: string, word: Option<string>, quoted: bool): Option<seq<string>>
    decreases |s|
  {
    var w := if word.Some? then word.value else [];
    if s == [] then
      if quoted then None else if word.Some? then Some([w]) else Some([])
    else if quoted then
      if s[0] == '\'' then Words(s[1..], Some(w), false) else Words(s[1..], Some(w + [s[0]]), true)
    else if s[0] == '\'' then Words(s[1..], Some(w), true)
    else if s[0] == '\\' then
      if |s| == 1 then None
      else if s[1] == '\n' then Words(s[2..], word, false)
      else Words(s[2..], Some(w + [s[1]]), false)
    else if Blank(s[0]) then
      if word.Some? then Then(w, Words(s[1..], None, false)) else Words(s[1..], None, false)
    else if Special(s[0]) then None
    else Words(s[1..], Some(w + [s[0]]), false)
  }

  // ---- round trip ------------------------------------------------------------------------------------------------

  lemma {:induction false} BareReads(a: string, t: string, w: string)
    requires AllBare(a)
    ensures Words(a + t, Some(w), false) == Words(t, Some(w + a), false)
    decreases |a|
  {
    if a == [] {
      assert a + t == t && w + a == w;
    } else {
      assert Bare(a[0]) && (a + t)[0] == a[0] && (a + t)[1..] == a[1..] + t;
      assert w + [a[0]] + a[1..] == w + a;
      BareReads(a[1..], t, w + [a[0]]);
    }
  }

  lemma QuoteReads(t: string, w: string)
    ensures Words(QUOTE + t, Some(w), true) == Words(t, Some(w + ['\'']), true)
  {
    var s := QUOTE + t;
    var escaped, again := ['\\', '\'', '\''] + t, ['\''] + t;
    assert s[0] == '\'' && s[1..] == escaped;
    assert Words(s, Some(w), true) == Words(escaped, Some(w), false);
    assert escaped[2..] == again && escaped[0] == '\\' && escaped[1] == '\'';
    assert Words(escaped, Some(w), false) == Words(again, Some(w + ['\'']), false);
    assert again[1..] == t;
  }

  lemma {:induction false} QuotedReads(a: string, t: string, w: string)
    ensures Words(Replace(a, '\'', QUOTE) + t, Some(w), true) == Words(t, Some(w + a), true)
    decreases |a|
  {
    if a == [] {
      assert [] + t == t && w + a == w;
    } else {
      var more := Replace(a[1..], '\'', QUOTE) + t;
      Joined(if a[0] == '\'' then QUOTE else [a[0]], Replace(a[1..], '\'', QUOTE), t);
      if a[0] == '\'' { QuoteReads(more, w); } else { assert ([a[0]] + more)[1..] == more; }
      QuotedReads(a[1..], t, w + [a[0]]);
      assert w + [a[0]] + a[1..] == w + a;
    }
  }

  /** A quoted argument is read as one word, whatever follows. */
  lemma ArgumentReads(a: string, t: string)
    ensures Words(Quote(a) + t, None, false) == Words(t, Some(a), false)
  {
    if a != [] && AllBare(a) {
      assert Bare(a[0]) && (a + t)[0] == a[0] && (a + t)[1..] == a[1..] + t;
      assert [a[0]] + a[1..] == a && [] + [a[0]] == [a[0]];
      assert Words(a + t, None, false) == Words(a[1..] + t, Some([a[0]]), false);
      BareReads(a[1..], t, [a[0]]);
    } else {
      var q := Replace(a, '\'', QUOTE);
      assert Quote(a) + t == ['\''] + (q + (['\''] + t));
      assert (['\''] + (q + (['\''] + t)))[1..] == q + (['\''] + t);
      QuotedReads(a, ['\''] + t, []);
      assert [] + a == a && (['\''] + t)[1..] == t;
    }
  }

  /** The shell reads back the arguments: all of them, empty ones and ones with quotes included, and nothing else. */
  lemma {:induction false} ShellReadsBack(args: seq<string>)
    ensures Words(CliString(args), None, false) == Some(args)
    decreases |args|
  {
    if |args| == 1 {
      assert Quotes(args) == [Quote(args[0])];
      assert Quote(args[0]) + [] == Quote(args[0]);
      ArgumentReads(args[0], []);
      assert [args[0]] == args;
    } else if |args| > 1 {
      var more := CliString(args[1..]);
      assert Quotes(args)[1..] == Quotes(args[1..]);
      assert CliString(args) == Quote(args[0]) + ([' '] + more);
      ArgumentReads(args[0], [' '] + more);
      assert ([' '] + more)[1..] == more;
      ShellReadsBack(args[1..]);
      assert [args[0]] + args[1..] == args;
    }
  }
}
