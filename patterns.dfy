/** The regular expressions the pages use to read numbers and names out of
    log remarks, as a small pattern language: a sequence of literal pieces
    and `\s*` runs, then one capture group. `s.match(re)` without the `g`
    flag is the group of the leftmost match. Pieces are matched greedily
    without backtracking, which is exact for every pattern here: no literal
    that follows `\s*` starts with a space, and the one group that can
    begin with a space (`\s*([^(]+)`) is modelled with its backtracking. */
module Patterns {
  import opened Wrappers
  import opened Text
  import opened Decimal
  import opened JsNumber

  /** One piece before the group: literal text, or `\s*`. */
  datatype Piece = Lit(text: string) | Spaces

  /** The capture group that ends a pattern:
      `Run(false)` is `([\d.]+)`, `Run(true)` is `([0-9,.]+)`,
      `Money` is `([0-9,]+(?:\.[0-9]{2})?)`, and `SpacedText` is
      `\s*([^(]+)`, spaces before the group included. */
  datatype Group = Run(commas: bool) | Money | SpacedText

  datatype Pattern = Pattern(pieces: seq<Piece>, group: Group, ignoreCase: bool)

  predicate IsDigitOrDot(c: char) { IsDigit(c) || c == '.' }
  predicate IsDigitOrComma(c: char) { IsDigit(c) || c == ',' }
  predicate IsNumeral(c: char) { IsDigit(c) || c == ',' || c == '.' }
  predicate IsNotOpenParen(c: char) { c != '(' }

  /** What a group of a numeric pattern captures: digits, commas and dots. */
  predicate Numerals(s: string)
  {
    forall i :: 0 <= i < |s| ==> IsNumeral(s[i])
  }

  /** The `i` flag: ASCII letters compare without case. */
  function Fold(c: char, ignoreCase: bool): char
  {
    if ignoreCase then UpperChar(c) else c
  }

  /** The literal `x` matches `s` at `i`. */
  predicate LitAt(s: string, i: nat, x: string, ignoreCase: bool)
  {
    i + |x| <= |s| && forall k :: 0 <= k < |x| ==> Fold(s[i + k], ignoreCase) == Fold(x[k], ignoreCase)
  }

  /** The length of the longest run of `inClass` characters from `i`: `[...]*`. */
  function RunFrom(s: string, i: nat, inClass: char -> bool): (n: nat)
    requires i <= |s|
    ensures i + n <= |s|
    ensures forall k :: i <= k < i + n ==> inClass(s[k])
    ensures i + n < |s| ==> !inClass(s[i + n])
    decreases |s| - i
  {
    if i == |s| || !inClass(s[i]) then 0 else 1 + RunFrom(s, i + 1, inClass)
  }

  /** The run is determined by where the class stops. */
  lemma RunFromExact(s: string, i: nat, n: nat, inClass: char -> bool)
    requires i + n <= |s|
    requires forall k :: i <= k < i + n ==> inClass(s[k])
    requires i + n == |s| || !inClass(s[i + n])
    ensures RunFrom(s, i, inClass) == n
    decreases n
  {
    if n > 0 {
      RunFromExact(s, i + 1, n - 1, inClass);
    }
  }

  /** A literal matches where its text stands. */
  lemma LitAtSlice(s: string, i: nat, x: string, ignoreCase: bool)
    requires i + |x| <= |s| && s[i..i + |x|] == x
    ensures LitAt(s, i, x, ignoreCase)
  {
    forall k | 0 <= k < |x| ensures s[i + k] == x[k] {
      assert s[i + k] == s[i..i + |x|][k];
    }
  }

  /** One space before a non-space is a `\s*` run of length one. */
  lemma OneSpace(s: string, i: nat)
    requires i + 1 < |s| && IsJsSpace(s[i]) && !IsJsSpace(s[i + 1])
    ensures RunFrom(s, i, IsJsSpace) == 1
  {
    RunFromExact(s, i, 1, IsJsSpace);
  }

  /** Where one piece, started at `i`, ends. */
  function Step(s: string, i: nat, p: Piece, ignoreCase: bool): (r: Option<nat>)
    requires i <= |s|
    ensures r.Some? ==> i <= r.value <= |s|
  {
    match p
    case Lit(x) => if LitAt(s, i, x, ignoreCase) then Some(i + |x|) else None
    case Spaces => Some(i + RunFrom(s, i, IsJsSpace))
  }

  /** Where the pieces, started at `i`, end. */
  function MatchPieces(s: string, i: nat, pieces: seq<Piece>, ignoreCase: bool): (r: Option<nat>)
    requires i <= |s|
    ensures r.Some? ==> i <= r.value <= |s|
    decreases |pieces|
  {
    if pieces == [] then Some(i)
    else
      match MatchPieces(s, i, pieces[..|pieces| - 1], ignoreCase)
      case None => None
      case Some(j) => Step(s, j, pieces[|pieces| - 1], ignoreCase)
  }

  /** The text the group captures when it starts at `j`. */
  function GroupAt(s: string, j: nat, g: Group): (r: Option<string>)
    requires j <= |s|
    ensures r.Some? ==> r.value != []
    ensures r.Some? && g.Run? && !g.commas ==> DigitsAndDots(r.value)
    ensures r.Some? && !g.SpacedText? ==> Numerals(r.value)
  {
    match g
    case Run(commas) =>
      var n := RunFrom(s, j, if commas then IsNumeral else IsDigitOrDot);
      if n == 0 then None else Some(s[j..j + n])
    case Money =>
      var n := RunFrom(s, j, IsDigitOrComma);
      if n == 0 then None
      else if j + n + 3 <= |s| && s[j + n] == '.' && IsDigit(s[j + n + 1]) && IsDigit(s[j + n + 2]) then
        Some(s[j..j + n + 3])
      else Some(s[j..j + n])
    case SpacedText =>
      var w := RunFrom(s, j, IsJsSpace);
      if j + w < |s| && s[j + w] != '(' then
        Some(s[j + w..j + w + RunFrom(s, j + w, IsNotOpenParen)])
      else if w > 0 then
        // `[^(]+` backtracks into the spaces and captures the last one
        Some([s[j + w - 1]])
      else None
  }

  /** The group of a match that starts at `i`, if one does. */
  function MatchAt(s: string, i: nat, pat: Pattern): Option<string>
    requires i <= |s|
  {
    match MatchPieces(s, i, pat.pieces, pat.ignoreCase)
    case None => None
    case Some(j) => GroupAt(s, j, pat.group)
  }

  /** The least position from `from` up to `n` where `p` holds. */
  function FirstWhere(p: nat -> bool, from: nat, n: nat): (r: Option<nat>)
    requires from <= n
    ensures r.Some? ==> from <= r.value <= n && p(r.value)
    ensures r.Some? ==> forall k :: from <= k < r.value ==> !p(k)
    ensures r.None? ==> forall k :: from <= k <= n ==> !p(k)
    decreases n - from
  {
    if p(from) then Some(from)
    else if from == n then None
    else FirstWhere(p, from + 1, n)
  }

  /** Whether a match of `pat` starts at `k`. */
  function MatchesAt(s: string, pat: Pattern): nat -> bool
  {
    (k: nat) => k <= |s| && MatchAt(s, k, pat).Some?
  }

  /** The leftmost position, from `from` on, where a match starts. */
  function FirstMatch(s: string, pat: Pattern, from: nat): (r: Option<nat>)
    requires from <= |s|
    ensures r.Some? ==> from <= r.value <= |s| && MatchAt(s, r.value, pat).Some?
    ensures r.Some? ==> forall k :: from <= k < r.value ==> MatchAt(s, k, pat).None?
    ensures r.None? ==> forall k :: from <= k <= |s| ==> MatchAt(s, k, pat).None?
  {
    var r := FirstWhere(MatchesAt(s, pat), from, |s|);
    assert forall k: nat :: MatchesAt(s, pat)(k) == (k <= |s| && MatchAt(s, k, pat).Some?);
    r
  }

  /** `s.match(pat)?.[1]`: the group of the leftmost match. */
  function Search(s: string, pat: Pattern): (r: Option<string>)
    ensures r.None? <==> forall k :: 0 <= k <= |s| ==> MatchAt(s, k, pat).None?
    ensures r.Some? && !pat.group.SpacedText? ==> Numerals(r.value)
    ensures r.Some? && pat.group.Run? && !pat.group.commas ==> DigitsAndDots(r.value)
  {
    match FirstMatch(s, pat, 0)
    case None => None
    case Some(i) => MatchAt(s, i, pat)
  }

  /** A match at `i` with none before it is the one `Search` reports. */
  lemma LeftmostMatch(s: string, pat: Pattern, i: nat)
    requires i <= |s| && MatchAt(s, i, pat).Some?
    requires forall k :: 0 <= k < i ==> MatchAt(s, k, pat).None?
    ensures Search(s, pat) == MatchAt(s, i, pat)
  {
  }

  /** `parseFloat(g.replace(/,/g, ''))` for a numeric group. */
  function ParseAmount(g: string): (r: Num)
    requires Numerals(g)
    ensures r.Finite? ==> r.value >= 0.0
  {
    var plain := RemoveAll(g, ',');
    assert DigitsAndDots(plain) by {
      forall i | 0 <= i < |plain| ensures IsDigit(plain[i]) || plain[i] == '.' {
        assert plain[i] in g;
      }
    }
    ParseFloat(plain)
  }

  /** A numeral without commas is read as `parseFloat` reads it. */
  lemma ParseAmountWithoutCommas(g: string)
    requires DigitsAndDots(g)
    ensures Numerals(g) && ParseAmount(g) == ParseFloat(g)
  {
    RemoveAllAbsent(g, ',');
  }

  lemma {:induction false} RemoveAllAbsent(s: string, c: char)
    requires c !in s
    ensures RemoveAll(s, c) == s
  {
    if s != [] {
      RemoveAllAbsent(s[1..], c);
    }
  }

  /** The text `%.2f` writes for a non-negative amount is digits and one dot,
      with two digits after the dot. */
  lemma FormatCentavosShape(c: nat)
    ensures var f := FormatCentavos(c);
            |f| >= 4 && DigitsAndDots(f) && IsDigit(f[0])
            && f[|f| - 3] == '.' && IsDigit(f[|f| - 2]) && IsDigit(f[|f| - 1])
            && forall i :: 0 <= i < |f| - 3 ==> IsDigit(f[i])
  {
    var w := NatToString(c / 100);
    var f := FormatCentavos(c);
    assert f == w + "." + Cents(c);
    forall i | 0 <= i < |f| ensures IsDigit(f[i]) || f[i] == '.' {
      if i < |w| { assert f[i] == w[i]; }
      else if i > |w| { assert f[i] == Cents(c)[i - |w| - 1]; }
    }
  }
}
