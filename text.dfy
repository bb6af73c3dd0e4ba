/** String helpers with the semantics of the Java and JavaScript string
    methods the pawnshop code calls (contains/includes, toUpperCase,
    toLowerCase, trim), restricted to what the model needs. */
module Text {
  import opened Wrappers

  /** `sub` occurs in `s` starting at index `i`. */
  predicate OccursAt(s: string, sub: string, i: nat)
  {
    i + |sub| <= |s| && s[i..i + |sub|] == sub
  }

  /** Java `String.contains` / JavaScript `String.prototype.includes`. */
  predicate Contains(s: string, sub: string)
  {
    exists i | 0 <= i <= |s| - |sub| :: OccursAt(s, sub, i)
  }

  lemma ContainsAt(s: string, sub: string, i: nat)
    requires OccursAt(s, sub, i)
    ensures Contains(s, sub)
  {
  }

  /** The index of the first occurrence of `c` in `s` (Java `indexOf(char)`). */
  function IndexOfChar(s: string, c: char): (r: Option<nat>)
    ensures r.Some? ==> r.value < |s| && s[r.value] == c && c !in s[..r.value]
    ensures r.None? <==> c !in s
  {
    if s == [] then None
    else if s[0] == c then Some(0)
    else
      match IndexOfChar(s[1..], c)
      case None => None
      case Some(k) =>
        assert s[1..][..k] == s[1..k + 1];
        assert s[..k + 1] == [s[0]] + s[1..k + 1];
        Some(k + 1)
  }

  /** ASCII upper-casing of one character. */
  function UpperChar(c: char): char
  {
    if 'a' <= c <= 'z' then (c as int - 32) as char else c
  }

  /** ASCII lower-casing of one character. */
  function LowerChar(c: char): char
  {
    if 'A' <= c <= 'Z' then (c as int + 32) as char else c
  }

  /** `toUpperCase()` on ASCII letters; every other character is kept. */
  function ToUpper(s: string): (r: string)
    ensures |r| == |s| && forall i :: 0 <= i < |s| ==> r[i] == UpperChar(s[i])
  {
    seq(|s|, i requires 0 <= i < |s| => UpperChar(s[i]))
  }

  /** `toLowerCase()` on ASCII letters; every other character is kept. */
  function ToLower(s: string): (r: string)
    ensures |r| == |s| && forall i :: 0 <= i < |s| ==> r[i] == LowerChar(s[i])
  {
    seq(|s|, i requires 0 <= i < |s| => LowerChar(s[i]))
  }

  /** Upper-casing twice is upper-casing once. */
  lemma ToUpperIdempotent(s: string)
    ensures ToUpper(ToUpper(s)) == ToUpper(s)
  {
    var u := ToUpper(s);
    forall i | 0 <= i < |s|
      ensures ToUpper(u)[i] == u[i]
    {
      assert UpperChar(UpperChar(s[i])) == UpperChar(s[i]);
    }
  }

  /** Characters removed by Java's `String.trim()`: every code point up to U+0020. */
  predicate IsJavaSpace(c: char)
  {
    c <= ' '
  }

  /** Characters removed by JavaScript's `trim()` and matched by `\s`:
      WhiteSpace and LineTerminator of ECMA-262. */
  predicate IsJsSpace(c: char)
  {
    c == ' ' || c == '\t' || c == '\n' || c == '\r' || c == '\U{000B}' || c == '\U{000C}'
    || c == '\U{00A0}' || c == '\U{1680}' || ('\U{2000}' <= c <= '\U{200A}')
    || c == '\U{2028}' || c == '\U{2029}' || c == '\U{202F}' || c == '\U{205F}'
    || c == '\U{3000}' || c == '\U{FEFF}'
  }

  /** The number of leading characters of `s` that satisfy `space`. */
  function LeadingCount(s: string, space: char -> bool): (n: nat)
    ensures n <= |s|
    ensures forall i :: 0 <= i < n ==> space(s[i])
    ensures n < |s| ==> !space(s[n])
  {
    if s == [] || !space(s[0]) then 0 else 1 + LeadingCount(s[1..], space)
  }

  /** The number of trailing characters of `s` that satisfy `space`. */
  function TrailingCount(s: string, space: char -> bool): (n: nat)
    ensures n <= |s|
    ensures forall i :: |s| - n <= i < |s| ==> space(s[i])
    ensures n < |s| ==> !space(s[|s| - 1 - n])
  {
    if s == [] || !space(s[|s| - 1]) then 0 else 1 + TrailingCount(s[..|s| - 1], space)
  }

  /** Removes leading and trailing characters satisfying `space`. */
  function TrimWith(s: string, space: char -> bool): (r: string)
    ensures r != [] ==> !space(r[0]) && !space(r[|r| - 1])
    ensures r == [] <==> forall i :: 0 <= i < |s| ==> space(s[i])
    ensures |r| <= |s|
  {
    var a := LeadingCount(s, space);
    if a == |s| then
      assert s == s[0..0] + s;
      []
    else
      var b := TrailingCount(s, space);
      assert a < |s| - b;
      s[a..|s| - b]
  }

  /** Java `String.trim()`. */
  function JavaTrim(s: string): string
  {
    TrimWith(s, IsJavaSpace)
  }

  /** JavaScript `String.prototype.trim()`. */
  function JsTrim(s: string): string
  {
    TrimWith(s, IsJsSpace)
  }

  /** A string that starts and ends with a non-space character is its own trim. */
  lemma TrimWithUnchanged(s: string, space: char -> bool)
    requires s != [] && !space(s[0]) && !space(s[|s| - 1])
    ensures TrimWith(s, space) == s
  {
    assert LeadingCount(s, space) == 0;
    assert TrailingCount(s, space) == 0;
  }

  /** Removes every occurrence of `c` (`replace(/,/g, '')` for c = ','). */
  function RemoveAll(s: string, c: char): (r: string)
    ensures c !in r
    ensures |r| <= |s|
    ensures forall x :: x in r ==> x in s
  {
    if s == [] then []
    else (if s[0] == c then [] else [s[0]]) + RemoveAll(s[1..], c)
  }
}
