/** JavaScript numbers as the pages use them: an exact real or NaN, with the
    truthiness test behind `a || b` and `parseFloat` on digit strings. */
module JsNumber {
  import opened Decimal

  /** A JavaScript number. Binary floating point is replaced by exact reals;
      NaN is kept because `parseFloat` can produce it. */
  datatype Num = Finite(value: real) | NaN

  /** `!n`: NaN and zero are falsy. */
  predicate Falsy(n: Num)
  {
    n.NaN? || n.value == 0.0
  }

  /** `a || b` on numbers. */
  function Or(a: Num, b: Num): (r: Num)
    ensures !Falsy(a) ==> r == a
    ensures Falsy(a) ==> r == b
  {
    if Falsy(a) then b else a
  }

  /** `a + b`; NaN is absorbing. */
  function Plus(a: Num, b: Num): (r: Num)
    ensures r.NaN? <==> a.NaN? || b.NaN?
  {
    if a.NaN? || b.NaN? then NaN else Finite(a.value + b.value)
  }

  /** `a - b`; NaN is absorbing. */
  function Minus(a: Num, b: Num): (r: Num)
    ensures r.NaN? <==> a.NaN? || b.NaN?
  {
    if a.NaN? || b.NaN? then NaN else Finite(a.value - b.value)
  }

  /** `x` moved `k` decimal places to the right of the point. */
  function Shift(x: real, k: nat): (r: real)
    ensures x >= 0.0 ==> r >= 0.0
  {
    if k == 0 then x else Shift(x, k - 1) / 10.0
  }

  /** The number of leading decimal digits of `s`. */
  function LeadingDigits(s: string): (n: nat)
    ensures n <= |s| && AllDigits(s[..n])
    ensures n < |s| ==> !IsDigit(s[n])
  {
    if s == [] || !IsDigit(s[0]) then 0
    else
      var k := LeadingDigits(s[1..]);
      assert s[..k + 1] == [s[0]] + s[1..][..k];
      k + 1
  }

  /** Strings made only of digits and dots: what the pages' patterns capture
      once commas are removed. */
  predicate DigitsAndDots(s: string)
  {
    forall i :: 0 <= i < |s| ==> IsDigit(s[i]) || s[i] == '.'
  }

  /** The value of the leading digits of `s`. */
  function LeadingValue(s: string): nat
  {
    DigitsValue(s[..LeadingDigits(s)])
  }

  /** `parseFloat(s)` for a string of digits and dots: the longest prefix of
      the form `digits [. digits]` or `. digits` is read; NaN if there is none. */
  function ParseFloat(s: string): (r: Num)
    requires DigitsAndDots(s)
    ensures r.NaN? <==> s == [] || (s[0] == '.' && (|s| == 1 || !IsDigit(s[1])))
    ensures r.Finite? ==> r.value >= 0.0
  {
    var i := LeadingDigits(s);
    if i < |s| && s[i] == '.' then
      var rest := s[i + 1..];
      var f := LeadingDigits(rest);
      if i == 0 && f == 0 then NaN
      else Finite(LeadingValue(s) as real + Shift(LeadingValue(rest) as real, f))
    else if i == 0 then NaN
    else Finite(LeadingValue(s) as real)
  }

  /** Leading digits of a digit string followed by something else. */
  lemma LeadingDigitsAppend(a: string, b: string)
    requires AllDigits(a) && (b == [] || !IsDigit(b[0]))
    ensures LeadingDigits(a + b) == |a|
  {
    if a != [] {
      LeadingDigitsAppend(a[1..], b);
      assert (a + b)[1..] == a[1..] + b;
    }
  }

  /** `parseFloat` reads back Java's `%.2f` text of a non-negative centavo
      amount exactly: the amount in pesos. */
  lemma ParseFloatOfCentavos(c: nat, tail: string)
    requires tail == [] || !IsDigit(tail[0])
    requires DigitsAndDots(tail)
    ensures DigitsAndDots(FormatCentavos(c) + tail)
    ensures ParseFloat(FormatCentavos(c) + tail) == Finite(c as real / 100.0)
  {
    FormatCentavosThen(c, tail);
    ParseFloatOfDecimal(NatToString(c / 100), Cents(c), tail);
    NatToStringRoundTrip(c / 100);
    PesosAndCentavos(c);
  }

  lemma FormatCentavosThen(c: nat, tail: string)
    ensures FormatCentavos(c) + tail == NatToString(c / 100) + ("." + (Cents(c) + tail))
  {
  }

  /** `parseFloat` of "W.CC" followed by a non-digit reads W and CC. */
  lemma ParseFloatOfDecimal(w: string, cents: string, tail: string)
    requires w != [] && AllDigits(w) && |cents| == 2 && AllDigits(cents)
    requires tail == [] || !IsDigit(tail[0])
    requires DigitsAndDots(tail)
    ensures DigitsAndDots(w + ("." + (cents + tail)))
    ensures ParseFloat(w + ("." + (cents + tail)))
            == Finite(DigitsValue(w) as real + DigitsValue(cents) as real / 100.0)
  {
    var s := w + ("." + (cents + tail));
    DecimalDigitsAndDots(w, cents, tail);
    LeadingOfAppend(w, "." + (cents + tail));
    LeadingOfAppend(cents, tail);
    AfterPoint(w, cents + tail);
    ParseFloatAtPointTwo(s, |w|);
  }

  lemma AfterPoint(w: string, rest: string)
    ensures (w + ("." + rest))[|w| + 1..] == rest
  {
  }

  /** The leading digits of a digit string followed by a non-digit are that
      string. */
  lemma LeadingOfAppend(a: string, b: string)
    requires AllDigits(a) && (b == [] || !IsDigit(b[0]))
    ensures LeadingDigits(a + b) == |a| && LeadingValue(a + b) == DigitsValue(a)
  {
    LeadingDigitsAppend(a, b);
    assert (a + b)[..|a|] == a;
  }

  /** `parseFloat` of digits, a point and more digits. */
  lemma ParseFloatAtPoint(s: string, i: nat, f: nat)
    requires DigitsAndDots(s) && 0 < i < |s| && LeadingDigits(s) == i && s[i] == '.'
    requires LeadingDigits(s[i + 1..]) == f
    ensures ParseFloat(s) == Finite(LeadingValue(s) as real + Shift(LeadingValue(s[i + 1..]) as real, f))
  {
  }

  /** `parseFloat` of digits, a point and two more digits. */
  lemma ParseFloatAtPointTwo(s: string, i: nat)
    requires DigitsAndDots(s) && 0 < i < |s| && LeadingDigits(s) == i && s[i] == '.'
    requires LeadingDigits(s[i + 1..]) == 2
    ensures ParseFloat(s) == Finite(LeadingValue(s) as real + LeadingValue(s[i + 1..]) as real / 100.0)
  {
    ParseFloatAtPoint(s, i, 2);
    ShiftTwo(LeadingValue(s[i + 1..]) as real);
  }

  lemma ShiftTwo(x: real)
    ensures Shift(x, 2) == x / 100.0
  {
    assert Shift(x, 1) == x / 10.0;
  }

  lemma DecimalDigitsAndDots(w: string, cents: string, tail: string)
    requires AllDigits(w) && AllDigits(cents) && DigitsAndDots(tail)
    ensures DigitsAndDots(w + ("." + (cents + tail)))
  {
    var s := w + ("." + (cents + tail));
    forall k | 0 <= k < |s| ensures IsDigit(s[k]) || s[k] == '.' {
      if k < |w| { assert s[k] == w[k]; }
      else if k == |w| { assert s[k] == '.'; }
      else if k < |w| + 1 + |cents| { assert s[k] == cents[k - |w| - 1]; }
      else { assert s[k] == tail[k - |w| - 1 - |cents|]; }
    }
  }

  lemma PesosAndCentavos(c: nat)
    ensures (c / 100) as real + (c % 100) as real / 100 as real == c as real / 100.0
  {
    var q, m := c / 100, c % 100;
    assert c == q * 100 + m;
    assert c as real == q as real * 100.0 + m as real;
  }
}
