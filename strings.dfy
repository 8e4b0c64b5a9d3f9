/** Character and string helpers with the semantics of the JavaScript built-ins
    the scrapers use: `toLowerCase`/`toUpperCase` (ASCII letters), the regular
    expression class `\s`, `trim`, `includes`, `startsWith`, `parseFloat` on
    digit/dot strings and the decimal text of a number. */
module Strings {
  import opened Wrappers

  /** The characters of the regular-expression class `\s` (white space and
      line terminators), which is also what `trim` removes. */
  predicate IsSpace(c: char)
  {
    c == ' ' || c == '\t' || c == '\n' || c == '\U{B}' || c == '\U{C}' || c == '\r'
    || c == '\U{A0}' || c == '\U{1680}' || ('\U{2000}' <= c <= '\U{200A}')
    || c == '\U{2028}' || c == '\U{2029}' || c == '\U{202F}' || c == '\U{205F}'
    || c == '\U{3000}' || c == '\U{FEFF}'
  }

  predicate IsDigit(c: char)
  {
    '0' <= c <= '9'
  }

  /** The class `[a-z0-9]`. */
  predicate IsLowerAlnum(c: char)
  {
    ('a' <= c <= 'z') || IsDigit(c)
  }

  predicate AllDigits(s: string)
  {
    forall i :: 0 <= i < |s| ==> IsDigit(s[i])
  }

  function LowerChar(c: char): (r: char)
    ensures 'A' <= c <= 'Z' ==> r as int == c as int + 32
    ensures !('A' <= c <= 'Z') ==> r == c
  {
    if 'A' <= c <= 'Z' then (c as int + 32) as char else c
  }

  function UpperChar(c: char): (r: char)
    ensures 'a' <= c <= 'z' ==> r as int == c as int - 32
    ensures !('a' <= c <= 'z') ==> r == c
  {
    if 'a' <= c <= 'z' then (c as int - 32) as char else c
  }

  /** `s.toLowerCase()` on ASCII letters. */
  function Lower(s: string): (r: string)
    ensures |r| == |s| && forall i :: 0 <= i < |s| ==> r[i] == LowerChar(s[i])
  {
    seq(|s|, i requires 0 <= i < |s| => LowerChar(s[i]))
  }

  /** `s.toUpperCase()` on ASCII letters. */
  function Upper(s: string): (r: string)
    ensures |r| == |s| && forall i :: 0 <= i < |s| ==> r[i] == UpperChar(s[i])
  {
    seq(|s|, i requires 0 <= i < |s| => UpperChar(s[i]))
  }

  lemma UpperConcat(a: string, b: string)
    ensures Upper(a + b) == Upper(a) + Upper(b)
  {
  }

  lemma LowerConcat(a: string, b: string)
    ensures Lower(a + b) == Lower(a) + Lower(b)
  {
  }

  /** Lower-casing leaves a string without upper-case ASCII letters alone. */
  lemma LowerNoLetters(s: string)
    requires forall i :: 0 <= i < |s| ==> !('A' <= s[i] <= 'Z')
    ensures Lower(s) == s
  {
  }

  /** Upper-casing leaves a string without lower-case ASCII letters alone. */
  lemma {:induction false} UpperNoLetters(s: string)
    requires forall i :: 0 <= i < |s| ==> !('a' <= s[i] <= 'z')
    ensures Upper(s) == s
  {
  }

  /** `s.replace(/[^...]/g, '')`: keeps exactly the characters that pass. */
  function KeepChars(s: string, keep: char -> bool): (r: string)
    ensures |r| <= |s|
    ensures forall i :: 0 <= i < |r| ==> keep(r[i])
    ensures (forall i :: 0 <= i < |s| ==> keep(s[i])) ==> r == s
    ensures (forall i :: 0 <= i < |s| ==> !keep(s[i])) ==> r == []
    decreases |s|
  {
    if s == [] then []
    else (if keep(s[0]) then [s[0]] else []) + KeepChars(s[1..], keep)
  }

  lemma {:induction false} KeepCharsConcat(a: string, b: string, keep: char -> bool)
    ensures KeepChars(a + b, keep) == KeepChars(a, keep) + KeepChars(b, keep)
    decreases |a|
  {
    if a == [] {
      assert a + b == b;
    } else {
      assert (a + b)[1..] == a[1..] + b;
      KeepCharsConcat(a[1..], b, keep);
    }
  }

  /** `s.trimStart()`: drops the longest white-space prefix. */
  function TrimStart(s: string): (r: string)
    ensures |r| <= |s| && r == s[|s| - |r|..]
    ensures forall i :: 0 <= i < |s| - |r| ==> IsSpace(s[i])
    ensures |r| > 0 ==> !IsSpace(r[0])
    decreases |s|
  {
    if |s| > 0 && IsSpace(s[0]) then TrimStart(s[1..]) else s
  }

  /** `s.trimEnd()`: drops the longest white-space suffix. */
  function TrimEnd(s: string): (r: string)
    ensures |r| <= |s| && r == s[..|r|]
    ensures forall i :: |r| <= i < |s| ==> IsSpace(s[i])
    ensures |r| > 0 ==> !IsSpace(r[|r| - 1])
    decreases |s|
  {
    if |s| > 0 && IsSpace(s[|s| - 1]) then TrimEnd(s[..|s| - 1]) else s
  }

  /** How many leading characters `trim` drops. */
  function TrimOffset(s: string): (k: nat)
    ensures k <= |s|
  {
    |s| - |TrimStart(s)|
  }

  /** `s.trim()`: the slice of `s` left after dropping white space at both
      ends; a string whose ends are not white space is returned unchanged. */
  function Trim(s: string): (r: string)
    ensures TrimOffset(s) + |r| <= |s| && r == s[TrimOffset(s)..TrimOffset(s) + |r|]
    ensures |r| > 0 ==> !IsSpace(r[0]) && !IsSpace(r[|r| - 1])
    ensures forall i :: 0 <= i < TrimOffset(s) ==> IsSpace(s[i])
    ensures forall i :: TrimOffset(s) + |r| <= i < |s| ==> IsSpace(s[i])
    ensures (|s| == 0 || (!IsSpace(s[0]) && !IsSpace(s[|s| - 1]))) ==> r == s
  {
    TrimEnd(TrimStart(s))
  }

  /** `p` occurs in `s` starting at index `i`. */
  predicate OccursAt(s: string, p: string, i: int)
  {
    0 <= i && i + |p| <= |s| && s[i..i + |p|] == p
  }

  /** `s.includes(p)`. */
  predicate Contains(s: string, p: string)
  {
    exists i | 0 <= i <= |s| - |p| :: OccursAt(s, p, i)
  }

  /** `s.startsWith(p)`. */
  predicate StartsWith(s: string, p: string)
  {
    |p| <= |s| && s[..|p|] == p
  }

  /** `s.endsWith(p)`. */
  predicate EndsWith(s: string, p: string)
  {
    |p| <= |s| && s[|s| - |p|..] == p
  }

  /** An occurrence of `p` in `a + n + b` that cannot use any character of
      the non-empty middle `n` lies in `a` or in `b`. */
  lemma ContainsAroundGap(a: string, n: string, b: string, p: string)
    requires |n| > 0
    requires forall k :: 0 <= k < |n| ==> n[k] !in p
    requires Contains(a + n + b, p)
    ensures Contains(a, p) || Contains(b, p)
  {
    var s := a + n + b;
    var i :| 0 <= i <= |s| - |p| && OccursAt(s, p, i);
    if |p| == 0 {
      assert OccursAt(a, p, 0);
    } else if i + |p| <= |a| {
      assert s[i..i + |p|] == a[i..i + |p|];
      assert OccursAt(a, p, i);
    } else if i >= |a| + |n| {
      var j := i - |a| - |n|;
      assert s[|a| + |n|..] == b;
      assert s[i..i + |p|] == s[|a| + |n|..][j..j + |p|];
      assert s[i..i + |p|] == b[j..j + |p|];
      assert OccursAt(b, p, j);
    } else {
      OccurrenceChar(s, p, i, if i < |a| then |a| else i);
      assert false;
    }
  }

  lemma OccurrenceChar(s: string, p: string, i: int, k: int)
    ensures OccursAt(s, p, i) && i <= k < i + |p| ==> s[k] == p[k - i]
  {
    if OccursAt(s, p, i) && i <= k < i + |p| {
      assert s[i..i + |p|][k - i] == s[k];
    }
  }

  /** An occurrence in the middle part is an occurrence in the whole. */
  lemma ContainsInside(a: string, b: string, c: string, p: string)
    requires Contains(b, p)
    ensures Contains(a + b + c, p)
  {
    var i :| 0 <= i <= |b| - |p| && OccursAt(b, p, i);
    assert (a + b + c)[|a| + i..|a| + i + |p|] == b[i..i + |p|];
    assert OccursAt(a + b + c, p, |a| + i);
  }

  /** A string in which no three consecutive characters, upper-cased, spell
      `p[k..k+3]` does not contain `p` after upper-casing. */
  lemma UpperLacksTriple(s: string, p: string, k: nat)
    requires k + 3 <= |p|
    requires forall i :: 0 <= i < |s| - 2 ==>
      !(UpperChar(s[i]) == p[k] && UpperChar(s[i + 1]) == p[k + 1] && UpperChar(s[i + 2]) == p[k + 2])
    ensures !Contains(Upper(s), p)
  {
    var u := Upper(s);
    forall i | 0 <= i <= |u| - |p| ensures !OccursAt(u, p, i) {
      var w := u[i..i + |p|];
      assert !(w[k] == p[k] && w[k + 1] == p[k + 1] && w[k + 2] == p[k + 2]);
    }
  }

  // ---------------------------------------------------------------- numbers

  function DigitValue(c: char): (d: nat)
    requires IsDigit(c)
    ensures d < 10
  {
    c as int - '0' as int
  }

  function DigitChar(d: nat): (c: char)
    requires d < 10
    ensures IsDigit(c) && DigitValue(c) == d
  {
    ('0' as int + d) as char
  }

  function Pow10(n: nat): (r: nat)
    ensures r >= 1
  {
    if n == 0 then 1 else 10 * Pow10(n - 1)
  }

  /** The value of a string of decimal digits (0 for the empty string). */
  function DigitsValue(s: string): (v: nat)
    requires AllDigits(s)
    ensures v < Pow10(|s|)
    decreases |s|
  {
    if s == [] then 0 else 10 * DigitsValue(s[..|s| - 1]) + DigitValue(s[|s| - 1])
  }

  /** The decimal text of a natural number, without leading zeros. */
  function NatText(n: nat): (r: string)
    ensures |r| > 0 && AllDigits(r)
    decreases n
  {
    if n < 10 then [DigitChar(n)] else NatText(n / 10) + [DigitChar(n % 10)]
  }

  /** NatText is read back by DigitsValue. */
  lemma {:induction false} NatTextValue(n: nat)
    ensures DigitsValue(NatText(n)) == n
    decreases n
  {
    if n >= 10 {
      NatTextValue(n / 10);
      var r := NatText(n);
      assert r[..|r| - 1] == NatText(n / 10);
    }
  }

  /** Up to `fuel` fraction digits of `f`, stopping once the rest is zero. */
  function FractionDigits(f: real, fuel: nat): (r: string)
    requires 0.0 <= f < 1.0
    ensures AllDigits(r) && |r| <= fuel
    decreases fuel
  {
    if fuel == 0 || f == 0.0 then []
    else
      var d := (f * 10.0).Floor;
      [DigitChar(d)] + FractionDigits(f * 10.0 - d as real, fuel - 1)
  }

  /** The decimal text of a number as `String(x)` writes it, without the
      exponent notation JavaScript switches to for very large or very small
      magnitudes, and with at most 20 fraction digits. */
  function NumberText(x: real): (r: string)
    ensures |r| > 0
    ensures forall i :: 0 <= i < |r| ==> IsDigit(r[i]) || r[i] == '-' || r[i] == '.'
    ensures x == x.Floor as real && x >= 0.0 ==> r == NatText(x.Floor)
  {
    var m := if x < 0.0 then -x else x;
    var whole := m.Floor;
    var frac := FractionDigits(m - whole as real, 20);
    (if x < 0.0 then "-" else "") + NatText(whole) + (if frac == [] then "" else "." + frac)
  }

  /** The value of the decimal numeral `w.f` for digit strings `w` and `f`. */
  function DecimalValue(w: string, f: string): (v: real)
    requires AllDigits(w) && AllDigits(f)
    ensures v >= DigitsValue(w) as real
  {
    DigitsValue(w) as real + DigitsValue(f) as real / Pow10(|f|) as real
  }

  /** The longest prefix of `s` made of digits. */
  function LeadingDigits(s: string): (r: string)
    ensures |r| <= |s| && r == s[..|r|] && AllDigits(r)
    ensures |r| < |s| ==> !IsDigit(s[|r|])
    decreases |s|
  {
    if |s| > 0 && IsDigit(s[0]) then [s[0]] + LeadingDigits(s[1..]) else []
  }

  /** `parseFloat(s)` for a string of digits and dots, which is how the source
      always calls it: the longest prefix of the form `digits[.digits]` is read,
      and a string that starts with neither a digit nor a dot followed by a
      digit is not a number (`NaN`, here `None`). */
  function ParseDecimal(s: string): (r: Option<real>)
    ensures r.None? <==> !(|s| > 0 && IsDigit(s[0])) && !(|s| > 1 && s[0] == '.' && IsDigit(s[1]))
    ensures r.Some? ==> r.value >= 0.0
  {
    var a := LeadingDigits(s);
    var rest := s[|a|..];
    if |rest| > 0 && rest[0] == '.' then
      var b := LeadingDigits(rest[1..]);
      if a == [] && b == [] then None
      else Some(DecimalValue(a, b))
    else if a == [] then None
    else Some(DigitsValue(a) as real)
  }

  /** A non-empty digit string is read as its value. */
  lemma ParseDecimalDigits(s: string)
    requires |s| > 0 && AllDigits(s)
    ensures ParseDecimal(s) == Some(DigitsValue(s) as real)
  {
    LeadingDigitsOf(s, []);
    assert s + [] == s;
  }

  /** Reading `w.f` with digit strings `w` (non-empty) and `f`. */
  lemma ParseDecimalPoint(w: string, f: string)
    requires |w| > 0 && AllDigits(w) && AllDigits(f)
    ensures ParseDecimal(w + "." + f) == Some(DecimalValue(w, f))
  {
    var s := w + ("." + f);
    assert s == w + "." + f;
    LeadingDigitsOf(w, "." + f);
    var rest := s[|w|..];
    assert rest == "." + f;
    assert rest[1..] == f;
    LeadingDigitsOf(f, []);
    assert f + [] == f;
    assert LeadingDigits(rest[1..]) == f;
  }

  lemma {:induction false} LeadingDigitsOf(w: string, t: string)
    requires AllDigits(w)
    requires |t| > 0 ==> !IsDigit(t[0])
    ensures LeadingDigits(w + t) == w
    decreases |w|
  {
    if |w| > 0 {
      assert (w + t)[1..] == w[1..] + t;
      LeadingDigitsOf(w[1..], t);
    }
  }
}
