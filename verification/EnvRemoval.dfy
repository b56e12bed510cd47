/** What removing a key leaves of the lines of the env file. */
module EnvRemoval {
  import opened Text
  import opened DotenvSyntax
  import opened EnvEditor
  import opened EnvLens

  predicate Other(line: string, key: string) { !Assigns(Classify(line), key) }

  /** How many of the lines do not assign the key. */
  function Others(lines: seq<string>, key: string): nat
    decreases |lines|
  {
    if lines == [] then 0 else (if Other(lines[0], key) then 1 else 0) + Others(lines[1..], key)
  }

  lemma UnassignedCons(line: string, rest: seq<string>, key: string)
    ensures Unassigned([line] + rest, key) == (if Other(line, key) then [line] else []) + Unassigned(rest, key)
  {
    assert ([line] + rest)[1..] == rest;
  }

  lemma LinesJoined(a: seq<string>, b: seq<string>, c: seq<string>)
    ensures a + (b + c) == a + b + c
  {
  }

  lemma {:induction false} UnassignedAppend(a: seq<string>, b: seq<string>, key: string)
    ensures Unassigned(a + b, key) == Unassigned(a, key) + Unassigned(b, key)
    decreases |a|
  {
    if a == [] {
      assert a + b == b;
    } else {
      var line, rest := a[0], a[1..];
      assert a == [line] + rest && a + b == [line] + (rest + b);
      UnassignedAppend(rest, b, key);
      UnassignedCons(line, rest, key);
      UnassignedCons(line, rest + b, key);
      LinesJoined(if Other(line, key) then [line] else [], Unassigned(rest, key), Unassigned(b, key));
    }
  }

  lemma {:induction false} OthersCounted(lines: seq<string>, key: string)
    ensures |Unassigned(lines, key)| == Others(lines, key)
    decreases |lines|
  {
    if lines != [] { OthersCounted(lines[1..], key); }
  }

  /** Another line stands among what is kept, after as many as there are before it. */
  lemma OtherKept(lines: seq<string>, key: string, k: nat)
    requires k < |lines| && Other(lines[k], key)
    ensures var n, kept := Others(lines[..k], key), Unassigned(lines, key); n < |kept| && kept[n] == lines[k]
  {
    var front, back := lines[..k], lines[k + 1..];
    assert lines == front + ([lines[k]] + back);
    OthersCounted(front, key);
    UnassignedAppend(front, [lines[k]] + back, key);
    UnassignedCons(lines[k], back, key);
  }

  /** The lines of the text without the key: as many as do not assign it, and each of those, byte for byte, after as
      many as before. Where none is left the text is empty. */
  lemma RemoveKeepsOthers(text: string, key: string)
    ensures var lines, after := Split(text, '\n'), Split(Remove(text, key), '\n');
      var n := Others(lines, key);
      if n == 0 then Remove(text, key) == ""
      else |after| == n && forall k | 0 <= k < |lines| && Other(lines[k], key) ::
             Others(lines[..k], key) < n && after[Others(lines[..k], key)] == lines[k]
  {
    var lines := Split(text, '\n');
    OthersCounted(lines, key);
    SplitPieces(text, '\n');
    UnassignedWithin(lines, key);
    if Unassigned(lines, key) != [] { SplitJoin(Unassigned(lines, key), '\n'); }
    forall k | 0 <= k < |lines| && Other(lines[k], key)
      ensures Others(lines[..k], key) < |Unassigned(lines, key)| &&
              Unassigned(lines, key)[Others(lines[..k], key)] == lines[k]
    {
      OtherKept(lines, key, k);
    }
  }
}
