/** Array indices as numbers (section 6.1.7 of ECMA-262). */
module JsIndices {
  import opened Text
  import opened JsObject

  predicate Digit(c: char) { '0' <= c <= '9' }

  predicate Digits(s: string) { forall c | c in s :: Digit(c) }

  /** A number as it is written: without leading zeros. */
  predicate Numeral(s: string) { s != [] && Digits(s) && (|s| > 1 ==> s[0] != '0') }

  function DigitOf(c: char): (d: nat)
    requires Digit(c)
    ensures d <= 9
  {
    c as nat - '0' as nat
  }

  function Pow10(n: nat): (p: nat)
    ensures p >= 1
  {
    if n == 0 then 1 else 10 * Pow10(n - 1)
  }

  /** The number that digits stand for: ten times that of all but the last, and the last. */
  function Number(s: string): nat
    requires Digits(s)
    decreases |s|
  {
    if s == [] then 0 else 10 * Number(s[..|s| - 1]) + DigitOf(s[|s| - 1])
  }

  lemma Times(d: nat, a: nat, b: nat)
    ensures 10 * (d * a + b) == d * (10 * a) + 10 * b
  {
  }

  /** By its first digit. */
  lemma {:induction false} FirstDigit(s: string)
    requires Digits(s) && s != []
    ensures Number(s) == DigitOf(s[0]) * Pow10(|s| - 1) + Number(s[1..])
    decreases |s|
  {
    var n := |s| - 1;
    if n == 0 {
      assert s[..0] == [] && s[1..] == [];
    } else {
      var front := s[..n];
      FirstDigit(front);
      assert front[1..] == s[1..][..n - 1] && s[1..][n - 1] == s[n];
      Times(DigitOf(s[0]), Pow10(n - 1), Number(front[1..]));
    }
  }

  lemma {:induction false} Bounded(s: string)
    requires Digits(s)
    ensures Number(s) < Pow10(|s|)
    decreases |s|
  {
    if s != [] { Bounded(s[..|s| - 1]); }
  }

  /** The first digit decides, whatever is less than its place value after it. */
  lemma PlaceDecides(d: nat, e: nat, place: nat, x: nat, y: nat)
    requires d < e && x < place
    ensures d * place + x < e * place + y
  {
    assert (d + 1) * place <= e * place;
  }

  /** Of numerals of one length the lower one is the smaller number. */
  lemma {:induction false} LowerIsLess(a: string, b: string)
    requires Digits(a) && Digits(b) && |a| == |b|
    ensures Lower(a, b) <==> Number(a) < Number(b)
    decreases |a|
  {
    if a != [] {
      var x, y, place := Number(a[1..]), Number(b[1..]), Pow10(|a| - 1);
      FirstDigit(a);
      FirstDigit(b);
      Bounded(a[1..]);
      Bounded(b[1..]);
      LowerIsLess(a[1..], b[1..]);
      if a[0] < b[0] { PlaceDecides(DigitOf(a[0]), DigitOf(b[0]), place, x, y); }
      if b[0] < a[0] { PlaceDecides(DigitOf(b[0]), DigitOf(a[0]), place, y, x); }
    }
  }

  lemma {:induction false} Grows(m: nat, n: nat)
    requires m <= n
    ensures Pow10(m) <= Pow10(n)
    decreases n
  {
    if m < n { Grows(m, n - 1); }
  }

  lemma ShorterIsLess(a: string, b: string)
    requires Numeral(a) && Numeral(b) && |a| < |b|
    ensures Number(a) < Number(b)
  {
    Bounded(a);
    Grows(|a|, |b| - 1);
    FirstDigit(b);
    AtLeast(DigitOf(b[0]), Pow10(|b| - 1));
  }

  lemma AtLeast(d: nat, place: nat)
    requires d >= 1
    ensures d * place >= place
  {
  }

  /** Numerals are compared as numbers. */
  lemma SmallerIsLess(a: string, b: string)
    requires Numeral(a) && Numeral(b)
    ensures Smaller(a, b) <==> Number(a) < Number(b)
  {
    if |a| == |b| { LowerIsLess(a, b); }
    if |a| < |b| { ShorterIsLess(a, b); }
    if |b| < |a| { ShorterIsLess(b, a); }
  }

  lemma NextDigit(s: string, c: char)
    requires Digits(s) && Digit(c)
    ensures Digits(s + [c]) && Number(s + [c]) == 10 * Number(s) + DigitOf(c)
  {
    assert (s + [c])[..|s|] == s;
  }

  lemma FirstFive()
    ensures Digits("42949") && Number("42949") == 42949
  {
    NextDigit("", '4');
    NextDigit("4", '2');
    NextDigit("42", '9');
    NextDigit("429", '4');
    NextDigit("4294", '9');
    assert "" + ['4'] == "4" && "4" + ['2'] == "42" && "42" + ['9'] == "429";
    assert "429" + ['4'] == "4294" && "4294" + ['9'] == "42949";
  }

  lemma LimitIs()
    ensures Numeral(NO_INDEX) && Number(NO_INDEX) == 4294967295
  {
    FirstFive();
    NextDigit("42949", '6');
    NextDigit("429496", '7');
    NextDigit("4294967", '2');
    NextDigit("42949672", '9');
    NextDigit("429496729", '5');
    assert "42949" + ['6'] == "429496" && "429496" + ['7'] == "4294967" && "4294967" + ['2'] == "42949672";
    assert "42949672" + ['9'] == "429496729" && "429496729" + ['5'] == NO_INDEX;
  }

  /** A key is an array index exactly if it is the numeral of a number up to 2^32 - 2. */
  lemma ArrayIndexIs(s: string)
    ensures ArrayIndex(s) <==> Numeral(s) && Number(s) <= 0xFFFF_FFFE
  {
    LimitIs();
    if Numeral(s) { SmallerIsLess(s, NO_INDEX); }
  }

  /** An object lists one key before another, whenever they were added, exactly if it is an index and the other is none
      or a larger one. */
  lemma ListedBefore(a: string, b: string)
    ensures Before(a, b) <==> ArrayIndex(a) && (ArrayIndex(b) ==> Number(a) < Number(b))
  {
    if ArrayIndex(a) && ArrayIndex(b) { SmallerIsLess(a, b); }
  }
}
