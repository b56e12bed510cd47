/** The arithmetic of the memory bars: widths in percent, one GPU split by engine, and the host's RAM. Figures are
    real numbers, and one that is missing or not a finite number is `None`. */
module Bars {
  import opened Text
  import opened DotenvSyntax

  type Figure = Option<real>

  const MIN_PCT := 1.2

  function Pos(v: Figure): (r: real)
    ensures r >= 0.0
  {
    if v.Some? && v.value > 0.0 then v.value else 0.0
  }

  function Max(a: real, b: real): real { if a >= b then a else b }

  function Min(a: real, b: real): real { if a <= b then a else b }

  function Sum(s: seq<real>): real
    decreases |s|
  {
    if s == [] then 0.0 else s[0] + Sum(s[1..])
  }

  lemma {:induction false} SumAppend(a: seq<real>, b: seq<real>)
    ensures Sum(a + b) == Sum(a) + Sum(b)
    decreases |a|
  {
    if a == [] {
      assert a + b == b;
    } else {
      assert (a + b)[1..] == a[1..] + b;
      SumAppend(a[1..], b);
    }
  }

  // ---- widths ----------------------------------------------------------------------------------------------------

  /** The share of one value in percent: it is something exactly if the value is. */
  function Raw(v: Figure, total: real): (p: real)
    requires total > 0.0
    ensures p >= 0.0 && (p > 0.0 <==> Pos(v) > 0.0)
  {
    Pos(v) / total * 100.0
  }

  function Raws(values: seq<Figure>, total: real): (r: seq<real>)
    requires total > 0.0
    ensures |r| == |values| && forall k | 0 <= k < |r| :: r[k] == Raw(values[k], total)
  {
    if values == [] then [] else [Raw(values[0], total)] + Raws(values[1..], total)
  }

  predicate NotNegative(raw: seq<real>) { forall k | 0 <= k < |raw| :: raw[k] >= 0.0 }

  /** A share that shows, but would be narrower than the least width. */
  predicate Small(p: real, min: real) { 0.0 < p < min }

  /** What the least widths take. */
  function Fixed(raw: seq<real>, min: real): real
    decreases |raw|
  {
    if raw == [] then 0.0 else (if Small(raw[0], min) then min else 0.0) + Fixed(raw[1..], min)
  }

  /** What the others would take. */
  function BigSum(raw: seq<real>, min: real): real
    decreases |raw|
  {
    if raw == [] then 0.0 else (if Small(raw[0], min) then 0.0 else raw[0]) + BigSum(raw[1..], min)
  }

  function Room(raw: seq<real>, min: real): real { Max(0.0, Min(100.0, Sum(raw)) - Fixed(raw, min)) }

  function Scale(raw: seq<real>, min: real): real {
    if BigSum(raw, min) > 0.0 then Room(raw, min) / BigSum(raw, min) else 0.0
  }

  function Width(p: real, min: real, scale: real): real { if Small(p, min) then min else p * scale }

  function Scaled(raw: seq<real>, min: real, scale: real): (r: seq<real>)
    ensures |r| == |raw|
  {
    if raw == [] then [] else [Width(raw[0], min, scale)] + Scaled(raw[1..], min, scale)
  }

  /** Widths in percent: values that show get at least `min`, the rest is shrunk to fit. */
  function Widths(values: seq<Figure>, total: real, min: real): (r: seq<real>)
    ensures |r| == |values|
  {
    if total <= 0.0 then seq(|values|, _ => 0.0)
    else Scaled(Raws(values, total), min, Scale(Raws(values, total), min))
  }

  lemma SumCons(x: real, s: seq<real>)
    ensures Sum([x] + s) == x + Sum(s)
  {
    assert ([x] + s)[1..] == s;
  }

  /** One more segment: `fixed`, `big` and `sum` are those of the others, the primed ones of all. */
  lemma OneMore(p: real, min: real, scale: real, fixed: real, big: real, sum: real, fixed': real, big': real)
    requires sum == fixed + big * scale
    requires fixed' == (if Small(p, min) then min else 0.0) + fixed
    requires big' == (if Small(p, min) then 0.0 else p) + big
    ensures Width(p, min, scale) + sum == fixed' + big' * scale
  {
    Distributes(p, big, scale);
  }

  lemma Distributes(a: real, b: real, c: real)
    ensures (a + b) * c == a * c + b * c
  {
  }

  lemma OneMoreWidth(raw: seq<real>, min: real, scale: real)
    requires raw != []
    ensures Sum(Scaled(raw, min, scale)) == Width(raw[0], min, scale) + Sum(Scaled(raw[1..], min, scale))
  {
    SumCons(Width(raw[0], min, scale), Scaled(raw[1..], min, scale));
  }

  lemma {:induction false} ScaledSum(raw: seq<real>, min: real, scale: real) returns (fixed: real, big: real, sum: real)
    ensures fixed == Fixed(raw, min) && big == BigSum(raw, min) && sum == Sum(Scaled(raw, min, scale))
    ensures sum == fixed + big * scale
    decreases |raw|
  {
    fixed, big, sum := Fixed(raw, min), BigSum(raw, min), Sum(Scaled(raw, min, scale));
    if raw != [] {
      var f, b, s := ScaledSum(raw[1..], min, scale);
      OneMoreWidth(raw, min, scale);
      OneMore(raw[0], min, scale, f, b, s, fixed, big);
    }
  }

  predicate ShowsBig(raw: seq<real>, min: real) { exists k | 0 <= k < |raw| :: raw[k] > 0.0 && !Small(raw[k], min) }

  lemma {:induction false} BigSumShows(raw: seq<real>, min: real)
    requires NotNegative(raw)
    ensures BigSum(raw, min) >= 0.0 && (BigSum(raw, min) > 0.0 <==> ShowsBig(raw, min))
    decreases |raw|
  {
    if raw != [] {
      var rest := raw[1..];
      assert forall k | 0 <= k < |rest| :: rest[k] == raw[k + 1];
      BigSumShows(rest, min);
      if ShowsBig(rest, min) {
        var k :| 0 <= k < |rest| && rest[k] > 0.0 && !Small(rest[k], min);
        assert raw[k + 1] > 0.0 && !Small(raw[k + 1], min);
      }
      if ShowsBig(raw, min) {
        var k :| 0 <= k < |raw| && raw[k] > 0.0 && !Small(raw[k], min);
        if k > 0 { assert rest[k - 1] == raw[k]; }
      }
    }
  }

  lemma QuotientTimes(a: real, b: real)
    requires b > 0.0
    ensures b * (a / b) == a
    ensures 0.0 <= a <= b ==> 0.0 <= a / b <= 1.0
  {
  }

  /** The scale fills the room with the segments that are not small. */
  lemma FillsRoom(big: real, room: real, scale: real)
    requires big >= 0.0 && scale == if big > 0.0 then room / big else 0.0
    ensures big * scale == if big > 0.0 then room else 0.0
  {
    if big > 0.0 { QuotientTimes(room, big); }
  }

  lemma ScaledTo(raw: seq<real>, min: real, scale: real, room: real)
    requires BigSum(raw, min) * scale == room
    ensures Sum(Scaled(raw, min, scale)) == Fixed(raw, min) + room
  {
    var fixed, big, sum := ScaledSum(raw, min, scale);
  }

  /** The figures, with nothing for one that is missing or not positive. */
  function Positives(values: seq<Figure>): seq<real>
    decreases |values|
  {
    if values == [] then [] else [Pos(values[0])] + Positives(values[1..])
  }

  lemma ShareTimes(v: Figure, total: real)
    requires total > 0.0
    ensures Raw(v, total) * total == 100.0 * Pos(v)
  {
    QuotientTimes(Pos(v), total);
  }

  /** The first value and its share. */
  lemma FirstShare(values: seq<Figure>, total: real) returns (p: real, v: real)
    requires total > 0.0 && values != []
    ensures Sum(Raws(values, total)) == p + Sum(Raws(values[1..], total))
    ensures Sum(Positives(values)) == v + Sum(Positives(values[1..])) && p * total == 100.0 * v
  {
    p, v := Raw(values[0], total), Pos(values[0]);
    ShareTimes(values[0], total);
    SumCons(p, Raws(values[1..], total));
    SumCons(v, Positives(values[1..]));
  }

  lemma OneMoreShare(p: real, total: real, v: real, shares: real, sum: real, shares': real, sum': real)
    requires p * total == 100.0 * v && shares * total == 100.0 * sum && shares' == p + shares && sum' == v + sum
    ensures shares' * total == 100.0 * sum'
  {
    Distributes(p, shares, total);
  }

  /** The shares are percentages: they add up to 100 if the values add up to the total. */
  lemma {:induction false} SharesAddUp(values: seq<Figure>, total: real) returns (shares: real, sum: real)
    requires total > 0.0
    ensures shares == Sum(Raws(values, total)) && sum == Sum(Positives(values))
    ensures shares * total == 100.0 * sum && (sum == total ==> shares == 100.0)
    decreases |values|
  {
    shares, sum := Sum(Raws(values, total)), Sum(Positives(values));
    if values != [] {
      var more, others := SharesAddUp(values[1..], total);
      var p, v := FirstShare(values, total);
      OneMoreShare(p, total, v, more, others, shares, sum);
    }
    if sum == total { OneFactor(shares, total, sum); }
  }

  lemma OneFactor(shares: real, total: real, sum: real)
    requires total > 0.0 && shares * total == 100.0 * sum && sum == total
    ensures shares == 100.0
  {
    QuotientTimes(100.0 * total, total);
  }

  /** Values that add up to the total fill the bar, if one of them is not small and the least widths fit. */
  lemma FullBarFills(values: seq<Figure>, total: real, min: real)
    requires total > 0.0 && Sum(Positives(values)) == total
    requires ShowsBig(Raws(values, total), min) && Fixed(Raws(values, total), min) <= 100.0
    ensures Sum(Widths(values, total, min)) == 100.0
  {
    var shares, sum := SharesAddUp(values, total);
    WidthsSum(values, total, min);
  }

  /** The sum of the widths: with a segment that is not small, all of the bar's values as far as 100 but at least the
      least widths; without one, the least widths. */
  lemma WidthsSum(values: seq<Figure>, total: real, min: real)
    requires total > 0.0
    ensures var raw := Raws(values, total); var fixed := Fixed(raw, min);
      Sum(Widths(values, total, min)) == if ShowsBig(raw, min) then Max(fixed, Min(100.0, Sum(raw))) else fixed
  {
    FilledBar(Raws(values, total), min);
  }

  lemma FilledBar(raw: seq<real>, min: real)
    requires NotNegative(raw)
    ensures var fixed := Fixed(raw, min);
      Sum(Scaled(raw, min, Scale(raw, min))) == if ShowsBig(raw, min) then Max(fixed, Min(100.0, Sum(raw))) else fixed
  {
    var big, room, scale := BigSum(raw, min), Room(raw, min), Scale(raw, min);
    BigSumShows(raw, min);
    FillsRoom(big, room, scale);
    ScaledTo(raw, min, scale, if big > 0.0 then room else 0.0);
  }

  /** The widths fit into the bar exactly if the least widths do. */
  lemma WidthsFit(values: seq<Figure>, total: real, min: real)
    requires total > 0.0
    ensures Sum(Widths(values, total, min)) <= 100.0 <==> Fixed(Raws(values, total), min) <= 100.0
  {
    WidthsSum(values, total, min);
  }

  lemma {:induction false} Split(raw: seq<real>, min: real)
    requires min >= 0.0
    ensures Sum(raw) <= Fixed(raw, min) + BigSum(raw, min)
    decreases |raw|
  {
    if raw != [] { Split(raw[1..], min); }
  }

  lemma ScaleShrinks(raw: seq<real>, min: real)
    requires min >= 0.0 && NotNegative(raw)
    ensures 0.0 <= Scale(raw, min) <= 1.0
  {
    Split(raw, min);
    BigSumShows(raw, min);
    if BigSum(raw, min) > 0.0 { QuotientTimes(Room(raw, min), BigSum(raw, min)); }
  }

  lemma {:induction false} ScaledAt(raw: seq<real>, min: real, scale: real, k: nat)
    requires k < |raw|
    ensures Scaled(raw, min, scale)[k] == Width(raw[k], min, scale)
    decreases k
  {
    if k > 0 { ScaledAt(raw[1..], min, scale, k - 1); }
  }

  lemma WidthIs(p: real, min: real, scale: real)
    requires p >= 0.0 && 0.0 <= scale <= 1.0
    ensures var w := Width(p, min, scale);
      if 0.0 < p < min then w == min else w == p * scale && 0.0 <= w <= p
  {
    Product(p, scale);
  }

  /** A segment that shows and is small is exactly as wide as the least width; the others only shrink, all by the same
      factor `scale`; and without a total nothing shows. `p` is the share. */
  lemma WidthsAre(values: seq<Figure>, total: real, min: real, k: nat) returns (p: real, scale: real)
    requires min >= 0.0 && k < |values|
    ensures total > 0.0 ==> p == Raws(values, total)[k] && scale == Scale(Raws(values, total), min)
    ensures var w := Widths(values, total, min)[k];
      if total <= 0.0 then w == 0.0 else if 0.0 < p < min then w == min else w == p * scale && 0.0 <= w <= p
  {
    p, scale := 0.0, 0.0;
    if total > 0.0 { p, scale := ShareWidth(Raws(values, total), min, k); }
  }

  lemma ShareWidth(raw: seq<real>, min: real, k: nat) returns (p: real, scale: real)
    requires NotNegative(raw) && min >= 0.0 && k < |raw|
    ensures p == raw[k] && scale == Scale(raw, min)
    ensures var w := Scaled(raw, min, Scale(raw, min))[k];
      if 0.0 < p < min then w == min else w == p * scale && 0.0 <= w <= p
  {
    p, scale := raw[k], Scale(raw, min);
    ScaleShrinks(raw, min);
    ScaledAt(raw, min, scale, k);
    WidthIs(p, min, scale);
  }

  lemma Product(a: real, b: real)
    requires a >= 0.0 && 0.0 <= b <= 1.0
    ensures 0.0 <= a * b <= a
  {
  }

  // ---- sorting and adding up -------------------------------------------------------------------------------------

  type Entries = seq<Pair<real>>

  function Total(entries: Entries): real
    decreases |entries|
  {
    if entries == [] then 0.0 else entries[0].value + Total(entries[1..])
  }

  function Shown(entries: Entries): (r: Entries)
    ensures forall e | e in r :: e.value > 0.0 && e in entries
    decreases |entries|
  {
    if entries == [] then []
    else if entries[0].value > 0.0 then [entries[0]] + Shown(entries[1..])
    else Shown(entries[1..])
  }

  function Insert(e: Pair<real>, sorted: Entries): Entries
    decreases |sorted|
  {
    if sorted == [] || sorted[0].value < e.value then [e] + sorted else [sorted[0]] + Insert(e, sorted[1..])
  }

  /** The largest first, equal ones in their order. */
  function Sorted(entries: Entries): Entries
    decreases |entries|
  {
    if entries == [] then [] else var n := |entries| - 1; Insert(entries[n], Sorted(entries[..n]))
  }

  predicate Descending(entries: Entries) {
    forall i, j | 0 <= i < j < |entries| :: entries[i].value >= entries[j].value
  }

  lemma TotalCons(e: Pair<real>, rest: Entries)
    ensures Total([e] + rest) == e.value + Total(rest)
  {
    assert ([e] + rest)[1..] == rest;
  }

  lemma {:induction false} Inserted(e: Pair<real>, sorted: Entries)
    ensures multiset(Insert(e, sorted)) == multiset(sorted) + multiset{e}
    ensures Total(Insert(e, sorted)) == Total(sorted) + e.value
    decreases |sorted|
  {
    if sorted == [] || sorted[0].value < e.value {
      TotalCons(e, sorted);
    } else {
      var first, rest := sorted[0], sorted[1..];
      Inserted(e, rest);
      TotalCons(first, Insert(e, rest));
      assert sorted == [first] + rest;
    }
  }

  lemma {:induction false} InsertWithin(e: Pair<real>, sorted: Entries)
    ensures forall x | x in Insert(e, sorted) :: x == e || x in sorted
    decreases |sorted|
  {
    if sorted != [] && sorted[0].value >= e.value { InsertWithin(e, sorted[1..]); }
  }

  lemma DescendingCons(first: Pair<real>, rest: Entries)
    requires Descending(rest) && forall x | x in rest :: first.value >= x.value
    ensures Descending([first] + rest)
  {
    var s := [first] + rest;
    forall i, j | 0 <= i < j < |s| ensures s[i].value >= s[j].value {
      assert s[j] == rest[j - 1];
      if i > 0 { assert s[i] == rest[i - 1]; }
    }
  }

  lemma DescendingTail(sorted: Entries)
    requires Descending(sorted) && sorted != []
    ensures Descending(sorted[1..]) && forall x | x in sorted :: sorted[0].value >= x.value
  {
  }

  lemma {:induction false} InsertDescends(e: Pair<real>, sorted: Entries)
    requires Descending(sorted)
    ensures Descending(Insert(e, sorted))
    decreases |sorted|
  {
    if sorted != [] {
      DescendingTail(sorted);
      if sorted[0].value < e.value {
        DescendingCons(e, sorted);
      } else {
        InsertDescends(e, sorted[1..]);
        InsertWithin(e, sorted[1..]);
        DescendingCons(sorted[0], Insert(e, sorted[1..]));
      }
    }
  }

  lemma KeepsOneMore(all: Entries, front: Entries, e: Pair<real>, sorted: Entries)
    requires all == front + [e] && multiset(sorted) == multiset(front) && Total(sorted) == Total(front)
    ensures multiset(Insert(e, sorted)) == multiset(all) && Total(Insert(e, sorted)) == Total(all)
  {
    Inserted(e, sorted);
    TotalAppend(front, [e]);
    TotalCons(e, []);
    assert [e] + [] == [e];
  }

  /** Sorting keeps the entries and their sum. */
  lemma {:induction false} SortedKeeps(entries: Entries)
    ensures multiset(Sorted(entries)) == multiset(entries) && Total(Sorted(entries)) == Total(entries)
    decreases |entries|
  {
    if entries != [] {
      var n := |entries| - 1;
      SortedKeeps(entries[..n]);
      assert entries == entries[..n] + [entries[n]];
      KeepsOneMore(entries, entries[..n], entries[n], Sorted(entries[..n]));
    }
  }

  lemma {:induction false} SortedDescends(entries: Entries)
    ensures Descending(Sorted(entries))
    decreases |entries|
  {
    if entries != [] {
      var n := |entries| - 1;
      SortedDescends(entries[..n]);
      InsertDescends(entries[n], Sorted(entries[..n]));
    }
  }

  /** The entries of one value. */
  function Of(entries: Entries, v: real): Entries
    decreases |entries|
  {
    if entries == [] then []
    else if entries[0].value == v then [entries[0]] + Of(entries[1..], v)
    else Of(entries[1..], v)
  }

  lemma OfCons(e: Pair<real>, rest: Entries, v: real)
    ensures Of([e] + rest, v) == if e.value == v then [e] + Of(rest, v) else Of(rest, v)
  {
    assert ([e] + rest)[1..] == rest;
  }

  lemma EntriesJoined(a: Entries, b: Entries, c: Entries)
    ensures a + (b + c) == a + b + c
  {
  }

  lemma {:induction false} OfSnoc(entries: Entries, e: Pair<real>, v: real)
    ensures Of(entries + [e], v) == Of(entries, v) + if e.value == v then [e] else []
    decreases |entries|
  {
    if entries == [] {
      assert entries + [e] == [e] + [];
      OfCons(e, [], v);
    } else {
      var first, rest := entries[0], entries[1..];
      assert entries == [first] + rest && entries + [e] == [first] + (rest + [e]);
      OfSnoc(rest, e, v);
      OfCons(first, rest, v);
      OfCons(first, rest + [e], v);
      EntriesJoined([first], Of(rest, v), if e.value == v then [e] else []);
    }
  }

  lemma {:induction false} OfInserted(e: Pair<real>, sorted: Entries, v: real)
    requires Descending(sorted)
    ensures Of(Insert(e, sorted), v) == Of(sorted, v) + if e.value == v then [e] else []
    decreases |sorted|
  {
    if sorted == [] {
      OfCons(e, [], v);
      assert [e] + [] == [e];
    } else {
      var first, rest := sorted[0], sorted[1..];
      DescendingTail(sorted);
      assert sorted == [first] + rest;
      OfCons(first, rest, v);
      if first.value < e.value {
        OfCons(e, sorted, v);
        if e.value == v { NoneOf(sorted, v); }
      } else {
        OfInserted(e, rest, v);
        OfCons(first, Insert(e, rest), v);
        EntriesJoined([first], Of(rest, v), if e.value == v then [e] else []);
      }
    }
  }

  lemma {:induction false} NoneOf(entries: Entries, v: real)
    requires forall e | e in entries :: e.value < v
    ensures Of(entries, v) == []
    decreases |entries|
  {
    if entries != [] { NoneOf(entries[1..], v); }
  }

  /** Entries of one value keep their order. */
  lemma {:induction false} SortedIsStable(entries: Entries, v: real)
    ensures Of(Sorted(entries), v) == Of(entries, v)
    decreases |entries|
  {
    if entries != [] {
      var n := |entries| - 1;
      assert entries == entries[..n] + [entries[n]];
      SortedIsStable(entries[..n], v);
      SortedDescends(entries[..n]);
      OfInserted(entries[n], Sorted(entries[..n]), v);
      OfSnoc(entries[..n], entries[n], v);
    }
  }

  lemma {:induction false} TotalAppend(a: Entries, b: Entries)
    ensures Total(a + b) == Total(a) + Total(b)
    decreases |a|
  {
    if a == [] {
      assert a + b == b;
    } else {
      assert (a + b)[1..] == a[1..] + b;
      TotalAppend(a[1..], b);
    }
  }

  /** Leaving out what is nothing does not change the sum. */
  lemma {:induction false} ShownTotal(entries: Entries)
    requires forall e | e in entries :: e.value >= 0.0
    ensures Total(Shown(entries)) == Total(entries)
    decreases |entries|
  {
    if entries != [] {
      ShownTotal(entries[1..]);
      if entries[0].value > 0.0 { assert ([entries[0]] + Shown(entries[1..]))[1..] == Shown(entries[1..]); }
    }
  }

  // ---- one GPU ---------------------------------------------------------------------------------------------------

  datatype Proc = Proc(instance: Option<string>, used: Figure)

  /** It belongs to an instance. */
  predicate Owned(p: Proc) { p.instance.Some? && p.instance.value != [] }

  function Gib(p: Proc): real { if p.used.Some? then p.used.value else 0.0 }

  function ValueOf(groups: Entries, id: string): real { match Find(groups, id) case Some(x) => x case None => 0.0 }

  function Add(groups: Entries, id: string, g: real): Entries {
    Put(groups, id, ValueOf(groups, id) + g)
  }

  /** Memory by instance. */
  function Grouped(procs: seq<Proc>): Entries
    decreases |procs|
  {
    if procs == [] then []
    else
      var n := |procs| - 1;
      if Owned(procs[n]) then Add(Grouped(procs[..n]), procs[n].instance.value, Gib(procs[n])) else Grouped(procs[..n])
  }

  /** Memory of the processes of `id`, or of the ones without an instance. */
  function UsedBy(procs: seq<Proc>, id: Option<string>): real
    decreases |procs|
  {
    if procs == [] then 0.0
    else
      var n := |procs| - 1;
      var of := procs[n].instance;
      var mine := if id.Some? then of == id else of.None? || of == Some("");
      UsedBy(procs[..n], id) + if mine then Gib(procs[n]) else 0.0
  }

  function Attributed(procs: seq<Proc>): real
    decreases |procs|
  {
    if procs == [] then 0.0
    else var n := |procs| - 1; Attributed(procs[..n]) + if Owned(procs[n]) then Gib(procs[n]) else 0.0
  }

  /** Memory of all processes whose figure is known. */
  function Known(procs: seq<Proc>): real
    decreases |procs|
  {
    if procs == [] then 0.0
    else
      var n := |procs| - 1;
      Known(procs[..n]) + match procs[n].used case Some(used) => used case None => 0.0
  }

  method Group(procs: seq<Proc>) returns (groups: Entries, otherKnown: real)
    ensures groups == Grouped(procs) && otherKnown == UsedBy(procs, None)
  {
    groups, otherKnown := [], 0.0;
    for i := 0 to |procs|
      invariant groups == Grouped(procs[..i]) && otherKnown == UsedBy(procs[..i], None)
    {
      assert procs[..i + 1][..i] == procs[..i];
      var p := procs[i];
      if Owned(p) { groups := Add(groups, p.instance.value, Gib(p)); } else { otherKnown := otherKnown + Gib(p); }
    }
    assert procs[..|procs|] == procs;
  }

  lemma {:induction false} AddTotal(groups: Entries, id: string, g: real)
    ensures Total(Add(groups, id, g)) == Total(groups) + g
    decreases |groups|
  {
    var was := ValueOf(groups, id);
    if groups == [] {
      assert Add(groups, id, g) == [Pair(id, was + g)] && [Pair(id, was + g)][1..] == [];
    } else if groups[0].key == id {
      assert Add(groups, id, g)[1..] == groups[1..];
    } else {
      AddTotal(groups[1..], id, g);
      var rest := Add(groups[1..], id, g);
      assert Add(groups, id, g) == [groups[0]] + rest && ([groups[0]] + rest)[1..] == rest;
    }
  }

  /** Grouping loses nothing: the groups add up to what the processes of instances use, each group to its own, and with
      those of no instance they are all there are; no group is without a name. */
  lemma {:induction false} GroupingConserves(procs: seq<Proc>, id: string)
    ensures Total(Grouped(procs)) == Attributed(procs)
    ensures Attributed(procs) + UsedBy(procs, None) == Known(procs)
    ensures Find(Grouped(procs), "") == None
    ensures id != [] ==> UsedBy(procs, Some(id)) == ValueOf(Grouped(procs), id)
    decreases |procs|
  {
    if procs != [] {
      var n := |procs| - 1;
      GroupingConserves(procs[..n], id);
      if Owned(procs[n]) {
        var groups, own, g := Grouped(procs[..n]), procs[n].instance.value, Gib(procs[n]);
        AddTotal(groups, own, g);
        FindPut(groups, own, ValueOf(groups, own) + g, id);
        FindPut(groups, own, ValueOf(groups, own) + g, "");
      }
    }
  }

  datatype Gpu = Gpu(total: Figure, used: Figure, free: Figure, procs: seq<Proc>)

  function Engines(procs: seq<Proc>): Entries { Sorted(Shown(Grouped(procs))) }

  /** The driver's own figure, if it gives one. */
  function DriverUsed(gpu: Gpu): Figure {
    if gpu.used.Some? then gpu.used else if gpu.free.Some? then Some(Pos(gpu.total) - gpu.free.value) else None
  }

  function UsedOf(gpu: Gpu): real {
    var total, sum := Pos(gpu.total), Total(Engines(gpu.procs)) + UsedBy(gpu.procs, None);
    var used := Max(0.0, if DriverUsed(gpu).Some? then DriverUsed(gpu).value else sum);
    if total > 0.0 then Min(total, used) else used
  }

  /** The bar of a GPU: engines, the largest first, then what others use and what is free, as far as they show. */
  function GpuBar(gpu: Gpu): Entries {
    Split3(Engines(gpu.procs), UsedOf(gpu), Pos(gpu.total))
  }

  function Split3(engines: Entries, used: real, total: real): Entries {
    Bar(engines, Max(0.0, used - Total(engines)), Max(0.0, total - used), "free")
  }

  /** Engines, what others use and the rest, as far as they show. */
  function Bar(engines: Entries, other: real, rest: real, name: string): Entries {
    Shown(engines + [Pair("other", other), Pair(name, rest)])
  }

  lemma EnginesPositive(procs: seq<Proc>)
    ensures forall e | e in Engines(procs) :: e.value > 0.0
  {
    SortedPositive(Shown(Grouped(procs)));
  }

  /** The bar of a GPU with memory of its own adds up to it exactly if the engines use no more than the figure shown as
      used. */
  lemma GpuBarTotal(gpu: Gpu)
    requires Pos(gpu.total) > 0.0
    ensures Total(GpuBar(gpu)) == Max(Total(Engines(gpu.procs)), UsedOf(gpu)) + Pos(gpu.total) - UsedOf(gpu)
    ensures Total(GpuBar(gpu)) == Pos(gpu.total) <==> Total(Engines(gpu.procs)) <= UsedOf(gpu)
  {
    EnginesPositive(gpu.procs);
    SplitTotal(Engines(gpu.procs), UsedOf(gpu), Pos(gpu.total));
  }

  lemma SplitTotal(engines: Entries, used: real, total: real)
    requires (forall e | e in engines :: e.value > 0.0) && used <= total
    ensures Total(Split3(engines, used, total)) == Max(Total(engines), used) + total - used
  {
    BarTotal(engines, Max(0.0, used - Total(engines)), Max(0.0, total - used), "free");
  }

  lemma BarTotal(engines: Entries, other: real, rest: real, name: string)
    requires (forall e | e in engines :: e.value > 0.0) && other >= 0.0 && rest >= 0.0
    ensures Total(Bar(engines, other, rest, name)) == Total(engines) + other + rest
  {
    var tail := [Pair("other", other), Pair(name, rest)];
    ShownTotal(engines + tail);
    TotalAppend(engines, tail);
    assert tail[1..] == [Pair(name, rest)] && [Pair(name, rest)][1..] == [];
    assert Total(tail) == other + Total([Pair(name, rest)]);
  }

  /** With no negative process that is when the processes of the instances use no more than the memory nor, with a
      driver's figure, than that. */
  lemma GpuBarIsFull(gpu: Gpu)
    requires Pos(gpu.total) > 0.0 && forall p | p in gpu.procs :: Gib(p) >= 0.0
    ensures Total(GpuBar(gpu)) == Pos(gpu.total) <==>
            && Attributed(gpu.procs) <= Pos(gpu.total)
            && (DriverUsed(gpu).Some? ==> Attributed(gpu.procs) <= Max(0.0, DriverUsed(gpu).value))
  {
    GpuBarTotal(gpu);
    GroupingConserves(gpu.procs, []);
    GroupsNotNegative(gpu.procs);
    ShownTotal(Grouped(gpu.procs));
    SortedKeeps(Shown(Grouped(gpu.procs)));
    OthersNotNegative(gpu.procs);
  }

  lemma {:induction false} OthersNotNegative(procs: seq<Proc>)
    requires forall p | p in procs :: Gib(p) >= 0.0
    ensures UsedBy(procs, None) >= 0.0 && Attributed(procs) >= 0.0
    decreases |procs|
  {
    if procs != [] { OthersNotNegative(procs[..|procs| - 1]); }
  }

  /** A segment that shows. */
  function Part(name: string, v: real): Entries { if v > 0.0 then [Pair(name, v)] else [] }

  lemma {:induction false} ShownAfter(entries: Entries, tail: Entries)
    requires forall e | e in entries :: e.value > 0.0
    ensures Shown(entries + tail) == entries + Shown(tail)
    decreases |entries|
  {
    if entries == [] {
      assert entries + tail == tail;
    } else {
      assert (entries + tail)[1..] == entries[1..] + tail;
      ShownAfter(entries[1..], tail);
      EntriesJoined([entries[0]], entries[1..], Shown(tail));
      assert [entries[0]] + entries[1..] == entries;
    }
  }

  lemma ShownCons(e: Pair<real>, rest: Entries)
    ensures Shown([e] + rest) == Part(e.key, e.value) + Shown(rest)
  {
    assert ([e] + rest)[1..] == rest && [] + Shown(rest) == Shown(rest);
  }

  lemma ShownParts(a: string, x: real, b: string, y: real)
    ensures Shown([Pair(a, x), Pair(b, y)]) == Part(a, x) + Part(b, y)
  {
    ShownCons(Pair(a, x), [Pair(b, y)]);
    ShownCons(Pair(b, y), []);
    assert [Pair(a, x)] + [Pair(b, y)] == [Pair(a, x), Pair(b, y)] && [Pair(b, y)] + [] == [Pair(b, y)];
    assert Part(b, y) + [] == Part(b, y);
  }

  /** The driver's figure, or the memory less what the driver says is free, or what all processes use. */
  function UsedFigure(gpu: Gpu, total: real): real {
    match (gpu.used, gpu.free)
    case (Some(u), _) => u
    case (None, Some(f)) => total - f
    case (None, None) => Attributed(gpu.procs) + UsedBy(gpu.procs, None)
  }

  lemma UsedIs(gpu: Gpu, total: real)
    requires gpu.total == Some(total) && total > 0.0 && forall p | p in gpu.procs :: Gib(p) >= 0.0
    requires 0.0 <= UsedFigure(gpu, total) <= total
    ensures UsedOf(gpu) == UsedFigure(gpu, total)
  {
    EnginesUse(gpu.procs);
  }

  lemma SplitSegments(engines: Entries, used: real, total: real)
    requires (forall e | e in engines :: e.value > 0.0) && Total(engines) <= used <= total
    ensures Split3(engines, used, total) == engines + Part("other", used - Total(engines)) + Part("free", total - used)
  {
    var other, rest := used - Total(engines), total - used;
    ShownAfter(engines, [Pair("other", other), Pair("free", rest)]);
    ShownParts("other", other, "free", rest);
    EntriesJoined(engines, Part("other", other), Part("free", rest));
  }

  /** The bar, segment by segment: the engines, then what others use of the used figure, then the rest of the memory. */
  lemma GpuSegments(gpu: Gpu, total: real)
    requires gpu.total == Some(total) && total > 0.0 && forall p | p in gpu.procs :: Gib(p) >= 0.0
    requires Attributed(gpu.procs) <= UsedFigure(gpu, total) <= total
    ensures var used := UsedFigure(gpu, total);
      GpuBar(gpu) == Engines(gpu.procs) + Part("other", used - Attributed(gpu.procs)) + Part("free", total - used)
  {
    OthersNotNegative(gpu.procs);
    EnginesUse(gpu.procs);
    EnginesPositive(gpu.procs);
    UsedIs(gpu, total);
    SplitSegments(Engines(gpu.procs), UsedFigure(gpu, total), total);
  }

  /** The engines' segments add up to what the processes of instances use. */
  lemma EnginesUse(procs: seq<Proc>)
    requires forall p | p in procs :: Gib(p) >= 0.0
    ensures Total(Engines(procs)) == Attributed(procs)
  {
    GroupingConserves(procs, []);
    GroupsNotNegative(procs);
    ShownTotal(Grouped(procs));
    SortedKeeps(Shown(Grouped(procs)));
  }

  lemma {:induction false} GroupsNotNegative(procs: seq<Proc>)
    requires forall p | p in procs :: Gib(p) >= 0.0
    ensures forall e | e in Grouped(procs) :: e.value >= 0.0
    decreases |procs|
  {
    if procs != [] {
      var n := |procs| - 1;
      GroupsNotNegative(procs[..n]);
      if Owned(procs[n]) {
        FoundNotNegative(Grouped(procs[..n]), procs[n].instance.value);
        PutNotNegative(Grouped(procs[..n]), procs[n].instance.value,
                       ValueOf(Grouped(procs[..n]), procs[n].instance.value) + Gib(procs[n]));
      }
    }
  }

  lemma {:induction false} FoundNotNegative(groups: Entries, id: string)
    requires forall e | e in groups :: e.value >= 0.0
    ensures Find(groups, id).Some? ==> Find(groups, id).value >= 0.0
    decreases |groups|
  {
    if groups != [] && groups[0].key != id { FoundNotNegative(groups[1..], id); }
  }

  lemma {:induction false} PutNotNegative(groups: Entries, id: string, g: real)
    requires (forall e | e in groups :: e.value >= 0.0) && g >= 0.0
    ensures forall e | e in Put(groups, id, g) :: e.value >= 0.0
    decreases |groups|
  {
    if groups != [] && groups[0].key != id { PutNotNegative(groups[1..], id, g); }
  }

  /** The failing case: a driver's figure above the memory is cut to it, and engines above that overfill the bar,
      though they use no more than the driver says. */
  lemma DriverAboveTotal()
    ensures var gpu := Gpu(Some(10.0), Some(12.0), None, [Proc(Some("a"), Some(11.0))]);
      Attributed(gpu.procs) <= DriverUsed(gpu).value && Total(GpuBar(gpu)) != Pos(gpu.total)
  {
    var procs := [Proc(Some("a"), Some(11.0))];
    var gpu := Gpu(Some(10.0), Some(12.0), None, procs);
    assert procs[..0] == [];
    GpuBarTotal(gpu);
    GroupingConserves(procs, []);
    assert forall p | p in procs :: Gib(p) >= 0.0;
    GroupsNotNegative(procs);
    ShownTotal(Grouped(procs));
    SortedKeeps(Shown(Grouped(procs)));
  }

  // ---- the host --------------------------------------------------------------------------------------------------

  datatype Engine = Engine(id: string, gib: Figure)

  function Running(engines: seq<Engine>): Entries
    decreases |engines|
  {
    if engines == [] then []
    else if Pos(engines[0].gib) > 0.0 then [Pair(engines[0].id, engines[0].gib.value)] + Running(engines[1..])
    else Running(engines[1..])
  }

  datatype System = System(items: Entries, usedSum: real)

  /** What is used besides the engines, which use `sum`. */
  function OtherUsed(used: Figure, sum: real): (r: real)
    ensures r >= 0.0
  {
    Max(0.0, (if used.Some? then used.value else sum) - sum)
  }

  function SystemBar(engines: seq<Engine>, used: Figure, available: Figure): System {
    var eng := Sorted(Running(engines));
    var other := OtherUsed(used, Total(eng));
    System(Bar(eng, other, Pos(available), "available"), Total(eng) + other)
  }

  lemma {:induction false} RunningPositive(engines: seq<Engine>)
    ensures forall e | e in Running(engines) :: e.value > 0.0
    decreases |engines|
  {
    if engines != [] { RunningPositive(engines[1..]); }
  }

  lemma RunningSorted(engines: seq<Engine>)
    ensures (forall e | e in Sorted(Running(engines)) :: e.value > 0.0)
    ensures Total(Sorted(Running(engines))) == Total(Running(engines))
  {
    RunningPositive(engines);
    SortedPositive(Running(engines));
    SortedKeeps(Running(engines));
  }

  /** The segments of the host's bar add up to the used sum and what is available. */
  lemma SystemBarTotal(engines: seq<Engine>, used: Figure, available: Figure)
    ensures var bar := SystemBar(engines, used, available); Total(bar.items) == bar.usedSum + Pos(available)
  {
    RunningSorted(engines);
    var eng := Sorted(Running(engines));
    BarTotal(eng, OtherUsed(used, Total(eng)), Pos(available), "available");
  }

  /** The used sum is the used figure exactly if the engines use no more than it. */
  lemma UsedSumIsUsed(engines: seq<Engine>, used: real, available: Figure)
    ensures SystemBar(engines, Some(used), available).usedSum == used <==> Total(Running(engines)) <= used
  {
    RunningSorted(engines);
  }

  /** The host's bar, segment by segment. */
  lemma SystemSegments(engines: seq<Engine>, used: Figure, available: Figure)
    ensures var sum := Total(Running(engines));
      var other := if used.Some? && used.value > sum then used.value - sum else 0.0;
      SystemBar(engines, used, available).items ==
      Sorted(Running(engines)) + Part("other", other) + Part("available", Pos(available))
  {
    RunningSorted(engines);
    var eng, other := Sorted(Running(engines)), OtherUsed(used, Total(Running(engines)));
    ShownAfter(eng, [Pair("other", other), Pair("available", Pos(available))]);
    ShownParts("other", other, "available", Pos(available));
    EntriesJoined(eng, Part("other", other), Part("available", Pos(available)));
  }

  lemma SortedPositive(entries: Entries)
    requires forall e | e in entries :: e.value > 0.0
    ensures forall e | e in Sorted(entries) :: e.value > 0.0
  {
    SortedKeeps(entries);
    forall e | e in Sorted(entries) ensures e.value > 0.0 {
      assert e in multiset(Sorted(entries));
      assert e in entries;
    }
  }
}
