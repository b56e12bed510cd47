/** A diff as text: the changes with some unchanged lines around them, and a mark for each run of lines left out. */
module DiffText {
  import opened LineDiff

  datatype Shown = Line(op: Op) | Gap

  predicate Changed(ops: seq<Op>, j: int) { 0 <= j < |ops| && !ops[j].mark.Keep? }

  /** Line `i` is within `context` lines of `j`. */
  predicate InRange(ops: seq<Op>, context: nat, i: int, j: int) { 0 <= i < |ops| && i - context <= j <= i + context }

  /** Within `context` lines of a change. */
  predicate Near(ops: seq<Op>, context: nat, i: int) {
    exists j | 0 <= j < |ops| :: Changed(ops, j) && i - context <= j <= i + context
  }

  predicate HasChange(ops: seq<Op>) { exists j | 0 <= j < |ops| :: Changed(ops, j) }

  /** What is shown of the lines from `i` on; `gap` says whether lines right before were left out. */
  function Abridged(ops: seq<Op>, context: nat, i: nat, gap: bool): seq<Shown>
    requires i <= |ops|
    decreases |ops| - i
  {
    if i == |ops| then if gap then [Gap] else []
    else if Near(ops, context, i) then
      (if gap then [Gap, Line(ops[i])] else [Line(ops[i])]) + Abridged(ops, context, i + 1, false)
    else Abridged(ops, context, i + 1, true)
  }

  /** The lines near the changes among the first `n`. */
  method Window(ops: seq<Op>, context: nat) returns (keep: set<int>)
    ensures forall i :: i in keep <==> 0 <= i < |ops| && Near(ops, context, i)
  {
    keep := {};
    for n := 0 to |ops|
      invariant forall i | i in keep :: 0 <= i < |ops| && Near(ops, context, i)
      invariant forall i, j | 0 <= j < n && Changed(ops, j) && InRange(ops, context, i, j) :: i in keep
    {
      if !ops[n].mark.Keep? {
        assert Changed(ops, n);
        var low := if n < context then 0 else n - context;
        var high := if n + context < |ops| then n + context else |ops| - 1;
        for k := low to high + 1
          invariant forall i | i in keep :: 0 <= i < |ops| && Near(ops, context, i)
          invariant forall i, j | 0 <= j < n && Changed(ops, j) && InRange(ops, context, i, j) :: i in keep
          invariant forall i | low <= i < k :: i in keep
        {
          assert k - context <= n <= k + context;
          keep := keep + {k};
        }
      }
    }
  }

  /** One line of the abridged text. */
  lemma AbridgedStep(ops: seq<Op>, context: nat, i: nat, gap: bool, out: seq<Shown>)
    requires i < |ops|
    ensures out + Abridged(ops, context, i, gap) ==
      if Near(ops, context, i) then
        (if gap then out + [Gap] + [Line(ops[i])] else out + [Line(ops[i])]) + Abridged(ops, context, i + 1, false)
      else out + Abridged(ops, context, i + 1, true)
  {
    var more := Abridged(ops, context, i + 1, false);
    if gap {
      assert out + ([Gap, Line(ops[i])] + more) == out + [Gap] + [Line(ops[i])] + more;
    } else {
      assert out + ([Line(ops[i])] + more) == out + [Line(ops[i])] + more;
    }
  }

  method Abridge(ops: seq<Op>, context: nat) returns (out: seq<Shown>)
    ensures out == if HasChange(ops) then Abridged(ops, context, 0, false) else []
  {
    out := [];
    if !HasChange(ops) { return; }
    var keep := Window(ops, context);
    var gap := false;
    ghost var all := Abridged(ops, context, 0, false);
    for i := 0 to |ops|
      invariant out + Abridged(ops, context, i, gap) == all
    {
      AbridgedStep(ops, context, i, gap, out);
      if i in keep {
        if gap { out := out + [Gap]; }
        gap := false;
        out := out + [Line(ops[i])];
      } else {
        gap := true;
      }
    }
    if gap { out := out + [Gap]; }
  }

  // ---- what is shown ---------------------------------------------------------------------------------------------

  /** `out` stands for the lines from `i` on: a line for each one near a change, and one mark for each run of others,
      as long as the run can be. */
  predicate StandsFor(out: seq<Shown>, ops: seq<Op>, context: nat, i: nat)
    requires i <= |ops|
    decreases |out|
  {
    if out == [] then i == |ops|
    else if out[0].Line? then
      i < |ops| && out[0].op == ops[i] && Near(ops, context, i) && StandsFor(out[1..], ops, context, i + 1)
    else
      exists k | i < k <= |ops| ::
        && (forall j | i <= j < k :: !Near(ops, context, j))
        && (k < |ops| ==> Near(ops, context, k))
        && StandsFor(out[1..], ops, context, k)
  }

  lemma {:induction false} Stands(ops: seq<Op>, context: nat, i: nat, from: nat)
    requires from <= i <= |ops| && forall j | from <= j < i :: !Near(ops, context, j)
    ensures StandsFor(Abridged(ops, context, i, from < i), ops, context, from)
    decreases |ops| - i
  {
    var out := Abridged(ops, context, i, from < i);
    if i == |ops| {
      if from < i { assert out[1..] == [] && StandsFor(out[1..], ops, context, i); }
    } else if Near(ops, context, i) {
      Stands(ops, context, i + 1, i + 1);
      var rest := Abridged(ops, context, i + 1, false);
      assert ([Line(ops[i])] + rest)[1..] == rest;
      assert StandsFor([Line(ops[i])] + rest, ops, context, i);
      if from < i { assert out == [Gap] + ([Line(ops[i])] + rest) && out[1..] == [Line(ops[i])] + rest; }
    } else {
      Stands(ops, context, i + 1, from);
    }
  }

  /** The text shows every line near a change, in order, and nothing else but one mark for each run left out; and
      every change is shown. */
  lemma AbridgedStands(ops: seq<Op>, context: nat)
    ensures StandsFor(Abridged(ops, context, 0, false), ops, context, 0)
    ensures forall j | Changed(ops, j) :: Near(ops, context, j)
  {
    Stands(ops, context, 0, 0);
  }
}
