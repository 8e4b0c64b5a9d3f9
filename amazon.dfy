/** The text parsers of the Amazon adapter (`scrapers/retailers/amazon.js`):
    split prices, compact counts such as "1.2k", the star-rating label, image
    URLs and the anti-bot page test.  The regular expressions are modelled by
    `MatchRun`, the leftmost match of "a maximal run of some characters,
    optional white space, then a fixed phrase". */
module Amazon {
  import opened Wrappers
  import opened Strings
  import opened Seqs
  import opened JsValues
  import opened Parse

  // ------------------------------------------------------ regex matching

  /** Where a run of `isRun` characters starting at `i` ends. */
  function RunEnd(s: string, i: nat, isRun: char -> bool): (j: nat)
    requires i <= |s|
    ensures i <= j <= |s|
    ensures forall k :: i <= k < j ==> isRun(s[k])
    ensures j < |s| ==> !isRun(s[j])
    decreases |s| - i
  {
    if i < |s| && isRun(s[i]) then RunEnd(s, i + 1, isRun) else i
  }

  /** `\s*` starting at `j`: where the white space ends. */
  function SkipSpaces(s: string, j: nat): (k: nat)
    requires j <= |s|
    ensures j <= k <= |s|
    ensures forall m :: j <= m < k ==> IsSpace(s[m])
    ensures k < |s| ==> !IsSpace(s[k])
    decreases |s| - j
  {
    if j < |s| && IsSpace(s[j]) then SkipSpaces(s, j + 1) else j
  }

  lemma {:induction false} RunEndAt(s: string, i: nat, j: nat, isRun: char -> bool)
    requires i <= j <= |s|
    requires forall k :: i <= k < j ==> isRun(s[k])
    requires j < |s| ==> !isRun(s[j])
    ensures RunEnd(s, i, isRun) == j
    decreases j - i
  {
    if i < j {
      RunEndAt(s, i + 1, j, isRun);
    }
  }

  lemma {:induction false} SkipSpacesAt(s: string, j: nat, k: nat)
    requires j <= k <= |s|
    requires forall m :: j <= m < k ==> IsSpace(s[m])
    requires k < |s| ==> !IsSpace(s[k])
    ensures SkipSpaces(s, j) == k
    decreases k - j
  {
    if j < k {
      SkipSpacesAt(s, j + 1, k);
    }
  }

  /** The pattern `([run]+)\s*phrase` matches with its group starting at `a`:
      a run starts there (the character before is not a run character, so a
      match further into the run would only be a later one), and after the
      run and any white space the phrase follows. */
  predicate RunMatchAt(s: string, isRun: char -> bool, phrase: string, a: nat)
  {
    a < |s| && isRun(s[a]) && (a == 0 || !isRun(s[a - 1]))
    && StartsWith(s[SkipSpaces(s, RunEnd(s, a, isRun))..], phrase)
  }

  /** The leftmost match of `([run]+)\s*phrase` at or after `i`: where its
      group starts.  `i` must not be inside a run. */
  function MatchRun(s: string, isRun: char -> bool, phrase: string, i: nat): (r: Option<nat>)
    requires i <= |s|
    requires i == 0 || i == |s| || !isRun(s[i - 1]) || !isRun(s[i])
    ensures r.Some? <==> exists a :: i <= a < |s| && RunMatchAt(s, isRun, phrase, a)
    ensures r.Some? ==> i <= r.value < |s| && RunMatchAt(s, isRun, phrase, r.value)
    ensures r.Some? ==> forall a :: i <= a < r.value ==> !RunMatchAt(s, isRun, phrase, a)
    decreases |s| - i
  {
    if i == |s| then None
    else if !isRun(s[i]) then MatchRun(s, isRun, phrase, i + 1)
    else
      var j := RunEnd(s, i, isRun);
      if StartsWith(s[SkipSpaces(s, j)..], phrase) then
        assert RunMatchAt(s, isRun, phrase, i);
        Some(i)
      else
        assert forall a :: i <= a < j ==> !RunMatchAt(s, isRun, phrase, a) by {
          forall a | i < a < j ensures !RunMatchAt(s, isRun, phrase, a) {
            assert isRun(s[a - 1]);
          }
        }
        MatchRun(s, isRun, phrase, j)
  }

  /** `Math.round`: halves go up. */
  function Round(x: real): (n: int)
    ensures x - 0.5 < n as real <= x + 0.5
    ensures x >= 0.0 ==> n >= 0
  {
    (x + 0.5).Floor
  }

  // ---------------------------------------------------------- parsePrice

  /** `/[^0-9]/g` removed. */
  function Digits(s: string): (r: string)
    ensures AllDigits(r)
  {
    KeepChars(s, IsDigit)
  }

  /** `parsePrice(whole, fraction)` for the texts of the whole and fraction
      price elements: `null` when neither has text or the whole part has no
      digit, otherwise the value of `<whole digits>.<fraction digits or 00>`. */
  function ParsePrice(whole: string, fraction: string): (r: Option<real>)
    ensures r.None? <==> Digits(whole) == []
    ensures r.Some? && Digits(fraction) == [] ==> r.value == DigitsValue(Digits(whole)) as real
    ensures r.Some? && Digits(fraction) != [] ==> r.value == DecimalValue(Digits(whole), Digits(fraction))
  {
    if whole == [] && fraction == [] then None
    else
      var wholeClean := Digits(whole);
      var fractionClean := Digits(fraction);
      if wholeClean == [] then None
      else
        var amount := wholeClean + "." + (if fractionClean == [] then "00" else fractionClean);
        AmountParses(wholeClean, if fractionClean == [] then "00" else fractionClean);
        ZeroCents(wholeClean);
        SafeNumber(Str(amount))
  }

  /** `safeNumber` reads `w.f` for digit strings as the decimal it spells. */
  lemma AmountParses(w: string, f: string)
    requires |w| > 0 && AllDigits(w) && AllDigits(f)
    ensures SafeNumber(Str(w + "." + f)) == Some(DecimalValue(w, f))
  {
    var s := w + "." + f;
    forall i | 0 <= i < |s| ensures NumberChar(s[i]) {
      if i < |w| { assert s[i] == w[i]; }
      else if i > |w| { assert s[i] == f[i - |w| - 1]; }
    }
    SafeNumberOfNumberText(s);
    ParseDecimalPoint(w, f);
  }

  /** The fraction "00" adds nothing. */
  lemma ZeroCents(w: string)
    requires AllDigits(w)
    ensures DecimalValue(w, "00") == DigitsValue(w) as real
  {
    assert "00"[..1] == "0";
    assert "0"[..0] == [];
    assert DigitsValue("00") == 0;
  }

  /** Two digit characters spell the number below 100 they were made from. */
  lemma TwoDigits(c: nat)
    requires c < 100
    ensures DigitsValue([DigitChar(c / 10), DigitChar(c % 10)]) == c
  {
    var f := [DigitChar(c / 10), DigitChar(c % 10)];
    assert f[..1] == [DigitChar(c / 10)];
    assert f[..1][..0] == [];
  }

  /** Dollar and cent texts as the page shows them ("$1,234" and "99") read
      as dollars plus cents. */
  lemma PriceFromDollarsAndCents(prefix: string, dollars: nat, cents: nat)
    requires forall i :: 0 <= i < |prefix| ==> !IsDigit(prefix[i])
    requires cents < 100
    ensures ParsePrice(prefix + NatText(dollars), [DigitChar(cents / 10), DigitChar(cents % 10)]).Some?
    ensures ParsePrice(prefix + NatText(dollars), [DigitChar(cents / 10), DigitChar(cents % 10)]).value
      == dollars as real + cents as real / 100.0
  {
    var text := NatText(dollars);
    var f := [DigitChar(cents / 10), DigitChar(cents % 10)];
    DigitsAfterPrefix(prefix, text);
    DigitsAfterPrefix([], f);
    NatTextValue(dollars);
    TwoDigits(cents);
    CentsValue(text, f);
  }

  /** Removing the non-digits from a decorated digit string leaves the
      digits. */
  lemma DigitsAfterPrefix(prefix: string, digits: string)
    requires forall i :: 0 <= i < |prefix| ==> !IsDigit(prefix[i])
    requires AllDigits(digits)
    ensures Digits(prefix + digits) == digits
  {
    KeepCharsConcat(prefix, digits, IsDigit);
    assert KeepChars(prefix, IsDigit) == [];
    assert KeepChars(digits, IsDigit) == digits;
    assert [] + digits == digits;
  }

  lemma CentsValue(w: string, f: string)
    requires AllDigits(w) && AllDigits(f) && |f| == 2
    ensures DecimalValue(w, f) == DigitsValue(w) as real + DigitsValue(f) as real / 100.0
  {
    assert Pow10(|f|) == 100;
  }

  // ---------------------------------------------------- parseCompactNumber

  predicate NotComma(c: char)
  {
    c != ','
  }

  /** `String(text).toLowerCase().replace(/,/g, '').trim()`. */
  function CompactCleaned(s: string): string
  {
    Trim(KeepChars(Lower(s), NotComma))
  }

  /** The value scaled by the optional `k`/`m` suffix found at `k`, after
      the number and any white space (the text is already lower case). */
  function Scaled(value: real, s: string, k: nat): (r: real)
    requires k <= |s|
    ensures value >= 0.0 ==> r >= 0.0
    ensures k < |s| && s[k] == 'k' ==> r == value * 1000.0
    ensures k < |s| && s[k] == 'm' ==> r == value * 1000000.0
    ensures !(k < |s| && (s[k] == 'k' || s[k] == 'm')) ==> r == value
  {
    if k < |s| && s[k] == 'k' then value * 1000.0
    else if k < |s| && s[k] == 'm' then value * 1000000.0
    else value
  }

  /** `parseCompactNumber(text)`. */
  function ParseCompactNumber(text: JsValue): (r: Option<real>)
    ensures !Truthy(text) ==> r.None?
    ensures r.Some? ==> r.value >= 0.0 && r.value == r.value.Floor as real
  {
    if !Truthy(text) then None else CompactValue(CompactCleaned(ToJsString(text)))
  }

  /** What `parseCompactNumber` reads from the cleaned text: the first run of
      digits and dots, scaled by a following `k` or `m` and rounded; `null`
      when there is no such run or it is not a number. */
  function CompactValue(cleaned: string): (r: Option<real>)
    ensures MatchRun(cleaned, NumberChar, "", 0).None? ==> r.None?
    ensures MatchRun(cleaned, NumberChar, "", 0).Some? ==>
      var a := MatchRun(cleaned, NumberChar, "", 0).value;
      var end := RunEnd(cleaned, a, NumberChar);
      var value := ParseDecimal(cleaned[a..end]);
      && (r.None? <==> value.None?)
      && (r.Some? ==> r.value == Round(Scaled(value.value, cleaned, SkipSpaces(cleaned, end))) as real)
    ensures r.Some? ==> r.value >= 0.0 && r.value == r.value.Floor as real
  {
    var m := MatchRun(cleaned, NumberChar, "", 0);
    if m.None? then
      NoRunNoNumber(cleaned);
      SafeNumber(Str(cleaned))
    else
      var end := RunEnd(cleaned, m.value, NumberChar);
      var value := ParseDecimal(cleaned[m.value..end]);
      if value.None? then None
      else
        var n := Round(Scaled(value.value, cleaned, SkipSpaces(cleaned, end)));
        Some(n as real)
  }

  /** Text without any digit or dot has no number. */
  lemma NoRunNoNumber(s: string)
    requires MatchRun(s, NumberChar, "", 0).None?
    ensures SafeNumber(Str(s)).None?
  {
    forall i | 0 <= i < |s| ensures !NumberChar(s[i]) {
      if NumberChar(s[i]) {
        RunStartMatches(s, i);
      }
    }
    assert KeepChars(s, NumberChar) == [];
  }

  /** Every run of digits and dots matches `([0-9.]+)\s*`. */
  lemma RunStartMatches(s: string, i: nat)
    requires i < |s| && NumberChar(s[i])
    ensures RunMatchAt(s, NumberChar, "", RunStart(s, NumberChar, i))
  {
    var a := RunStart(s, NumberChar, i);
    assert StartsWith(s[SkipSpaces(s, RunEnd(s, a, NumberChar))..], "");
  }

  /** The start of the run a run character belongs to. */
  function RunStart(s: string, isRun: char -> bool, i: nat): (a: nat)
    requires i < |s| && isRun(s[i])
    ensures a <= i && isRun(s[a]) && (a == 0 || !isRun(s[a - 1]))
    decreases i
  {
    if i > 0 && isRun(s[i - 1]) then RunStart(s, isRun, i - 1) else i
  }

  /** "<n>k" counts thousands. */
  lemma CompactThousands(n: nat)
    ensures ParseCompactNumber(Str(NatText(n) + "k")).Some?
    ensures ParseCompactNumber(Str(NatText(n) + "k")).value == (n * 1000) as real
  {
    CompactSuffixed(n, 'k', 1000);
  }

  /** "<n>m" counts millions. */
  lemma CompactMillions(n: nat)
    ensures ParseCompactNumber(Str(NatText(n) + "m")) == Some((n * 1000000) as real)
  {
    CompactSuffixed(n, 'm', 1000000);
  }

  lemma CompactSuffixed(n: nat, suffix: char, factor: nat)
    requires (suffix == 'k' && factor == 1000) || (suffix == 'm' && factor == 1000000)
    ensures ParseCompactNumber(Str(NatText(n) + [suffix])) == Some((n * factor) as real)
  {
    SuffixedCleaned(NatText(n), suffix);
    CompactValueSuffixed(NatText(n), n, suffix, factor);
  }

  /** Digits followed by a lower-case suffix are cleaned to themselves. */
  lemma SuffixedCleaned(digits: string, suffix: char)
    requires AllDigits(digits) && (suffix == 'k' || suffix == 'm')
    ensures ParseCompactNumber(Str(digits + [suffix])) == CompactValue(digits + [suffix])
  {
    var s := digits + [suffix];
    forall i | 0 <= i < |s| ensures !('A' <= s[i] <= 'Z') && s[i] != ',' {
      if i < |digits| { assert s[i] == digits[i]; }
    }
    CleanedUnchanged(s);
    assert Truthy(Str(s)) && ToJsString(Str(s)) == s;
  }

  lemma CompactValueSuffixed(digits: string, n: nat, suffix: char, factor: nat)
    requires digits == NatText(n)
    requires (suffix == 'k' && factor == 1000) || (suffix == 'm' && factor == 1000000)
    ensures CompactValue(digits + [suffix]) == Some((n * factor) as real)
  {
    var s := digits + [suffix];
    FirstRunAtStart(s);
    forall i | 0 <= i < |digits| ensures NumberChar(s[i]) {
      assert s[i] == digits[i];
    }
    RunEndAt(s, 0, |digits|, NumberChar);
    SkipSpacesAt(s, |digits|, |digits|);
    assert s[0..|digits|] == digits;
    ParseDecimalDigits(digits);
    NatTextValue(n);
    var value := ParseDecimal(s[0..|digits|]).value;
    assert value == n as real;
    assert Scaled(value, s, |digits|) == (n * factor) as real;
    RoundWhole(n * factor);
  }

  /** Without a suffix, "<w>.<f>" is rounded half up to a whole number. */
  lemma CompactRounds(w: string, f: string)
    requires |w| > 0 && AllDigits(w) && AllDigits(f)
    ensures ParseCompactNumber(Str(w + "." + f)) == Some(Round(DecimalValue(w, f)) as real)
  {
    var s := w + "." + f;
    DecimalTextChars(w, f);
    CompactOfNumberText(s);
    ParseDecimalPoint(w, f);
  }

  /** A plain "<n>" is n. */
  lemma CompactWhole(n: nat)
    ensures ParseCompactNumber(Str(NatText(n))) == Some(n as real)
  {
    var s := NatText(n);
    CompactOfNumberText(s);
    ParseDecimalDigits(s);
    NatTextValue(n);
    RoundWhole(n);
  }

  /** Text of digits and dots that opens with a digit is cleaned to itself
      and read whole, without a suffix. */
  lemma CompactOfNumberText(s: string)
    requires |s| > 0 && IsDigit(s[0])
    requires forall i :: 0 <= i < |s| ==> NumberChar(s[i])
    ensures ParseCompactNumber(Str(s)) == Some(Round(ParseDecimal(s).value) as real)
  {
    NumberTextCleaned(s);
    CompactValueOfNumberText(s);
  }

  lemma NumberTextCleaned(s: string)
    requires |s| > 0 && forall i :: 0 <= i < |s| ==> NumberChar(s[i])
    ensures ParseCompactNumber(Str(s)) == CompactValue(s)
  {
    forall i | 0 <= i < |s| ensures !('A' <= s[i] <= 'Z') && s[i] != ',' && !IsSpace(s[i]) {
      assert NumberChar(s[i]);
    }
    CleanedUnchanged(s);
    assert Truthy(Str(s)) && ToJsString(Str(s)) == s;
  }

  lemma CompactValueOfNumberText(s: string)
    requires |s| > 0 && IsDigit(s[0])
    requires forall i :: 0 <= i < |s| ==> NumberChar(s[i])
    ensures CompactValue(s) == Some(Round(ParseDecimal(s).value) as real)
  {
    FirstRunAtStart(s);
    RunEndAt(s, 0, |s|, NumberChar);
    SkipSpacesAt(s, |s|, |s|);
    assert s[0..|s|] == s;
  }

  lemma RoundWhole(k: int)
    ensures Round(k as real) == k
  {
  }

  /** Cleaning leaves text without capitals, commas or surrounding white
      space as it is. */
  lemma CleanedUnchanged(s: string)
    requires forall i :: 0 <= i < |s| ==> !('A' <= s[i] <= 'Z') && s[i] != ','
    requires |s| > 0 ==> !IsSpace(s[0]) && !IsSpace(s[|s| - 1])
    ensures CompactCleaned(s) == s
  {
    LowerNoLetters(s);
    assert KeepChars(s, NotComma) == s;
  }

  /** Text that opens with a digit matches `([0-9.]+)\s*` at its start. */
  lemma FirstRunAtStart(s: string)
    requires |s| > 0 && IsDigit(s[0])
    ensures MatchRun(s, NumberChar, "", 0) == Some(0)
  {
    assert StartsWith(s[SkipSpaces(s, RunEnd(s, 0, NumberChar))..], "");
    assert RunMatchAt(s, NumberChar, "", 0);
  }

  /** Thousands separators are ignored: removing a comma changes nothing. */
  lemma CompactIgnoresCommas(a: string, b: string)
    ensures ParseCompactNumber(Str(a + "," + b)) == ParseCompactNumber(Str(a + b))
  {
    CleanedIgnoresCommas(a, b);
    assert ToJsString(Str(a + "," + b)) == a + "," + b;
    if a + b == [] {
      assert CompactCleaned(a + b) == [] by {
        assert Lower([]) == [];
        assert KeepChars([], NotComma) == [];
      }
    } else {
      assert ToJsString(Str(a + b)) == a + b;
    }
  }

  lemma CleanedIgnoresCommas(a: string, b: string)
    ensures CompactCleaned(a + "," + b) == CompactCleaned(a + b)
  {
    var la, lb := Lower(a), Lower(b);
    LowerConcat(a + ",", b);
    LowerConcat(a, ",");
    LowerConcat(a, b);
    assert Lower(",") == ",";
    DropComma(la, lb);
  }

  lemma DropComma(la: string, lb: string)
    ensures KeepChars(la + "," + lb, NotComma) == KeepChars(la + lb, NotComma)
  {
    KeepCharsConcat(la + ",", lb, NotComma);
    KeepCharsConcat(la, ",", NotComma);
    KeepCharsConcat(la, lb, NotComma);
    assert KeepChars(",", NotComma) == [];
    assert KeepChars(la, NotComma) + [] == KeepChars(la, NotComma);
  }

  // ---------------------------------------------------- parseRatingReviews

  predicate ReviewChar(c: char)
  {
    IsDigit(c) || c == '.' || c == ','
  }

  datatype RatingReviews = RatingReviews(rating: Option<real>, reviews: Option<real>)

  /** `parseRatingReviews(labelText)`: the number before "out of 5" is the
      rating, the number (with separators) before "review" is the review
      count; both case-insensitive. */
  function ParseRatingReviews(labelText: string): (r: RatingReviews)
    ensures labelText == [] ==> r.rating.None? && r.reviews.None?
    ensures r.rating.Some? ==>
      r.rating.value >= 0.0 && exists a :: RunMatchAt(Lower(labelText), NumberChar, "out of 5", a)
    ensures (forall a :: !RunMatchAt(Lower(labelText), NumberChar, "out of 5", a)) ==> r.rating.None?
    ensures r.reviews.Some? ==> exists a :: RunMatchAt(Lower(labelText), ReviewChar, "review", a)
    ensures (forall a :: !RunMatchAt(Lower(labelText), ReviewChar, "review", a)) ==> r.reviews.None?
  {
    if labelText == [] then RatingReviews(None, None)
    else
      var text := Lower(labelText);
      var ratingAt := MatchRun(text, NumberChar, "out of 5", 0);
      var reviewAt := MatchRun(text, ReviewChar, "review", 0);
      RatingReviews(
        if ratingAt.Some? then SafeNumber(Str(text[ratingAt.value..RunEnd(text, ratingAt.value, NumberChar)])) else None,
        if reviewAt.Some? then ParseCompactNumber(Str(text[reviewAt.value..RunEnd(text, reviewAt.value, ReviewChar)])) else None)
  }

  /** A label that opens with "<w>.<f> out of 5" has rating w.f. */
  lemma RatingFromLabel(w: string, f: string, rest: string)
    requires |w| > 0 && AllDigits(w) && AllDigits(f)
    ensures ParseRatingReviews(w + "." + f + " out of 5" + rest).rating.Some?
    ensures ParseRatingReviews(w + "." + f + " out of 5" + rest).rating.value == DecimalValue(w, f)
  {
    var number := w + "." + f;
    DecimalTextChars(w, f);
    LowerOfRatingLabel(number, rest);
    var text := number + " out of 5" + Lower(rest);
    RatingRunAtStart(number, Lower(rest));
    assert text[0..|number|] == number;
    AmountParses(w, f);
  }

  /** The rating is the number `safeNumber` reads from the group of the
      leftmost "<run> out of 5" match, and the review count the number
      `parseCompactNumber` reads from the group of the leftmost
      "<run> review" match. */
  lemma RatingReviewsGroups(labelText: string, text: string)
    requires labelText != [] && text == Lower(labelText)
    ensures MatchRun(text, NumberChar, "out of 5", 0).Some? ==>
      var a := MatchRun(text, NumberChar, "out of 5", 0).value;
      ParseRatingReviews(labelText).rating == SafeNumber(Str(text[a..RunEnd(text, a, NumberChar)]))
    ensures MatchRun(text, ReviewChar, "review", 0).Some? ==>
      var a := MatchRun(text, ReviewChar, "review", 0).value;
      ParseRatingReviews(labelText).reviews == ParseCompactNumber(Str(text[a..RunEnd(text, a, ReviewChar)]))
  {
  }

  /** A label "<n> reviews" has review count n. */
  lemma ReviewCountFromLabel(n: nat)
    ensures ParseRatingReviews(NatText(n) + " reviews").reviews == Some(n as real)
  {
    var digits := NatText(n);
    var text := digits + " reviews";
    forall i | 0 <= i < |text| ensures !('A' <= text[i] <= 'Z') {
      if i < |digits| { assert text[i] == digits[i]; }
    }
    LowerNoLetters(text);
    forall i | 0 <= i < |digits| ensures ReviewChar(text[i]) {
      assert text[i] == digits[i];
    }
    RunEndAt(text, 0, |digits|, ReviewChar);
    assert text == digits + " " + "review" + "s";
    PhraseAfterSpace(digits, "review", "s");
    assert RunMatchAt(text, ReviewChar, "review", 0);
    assert text[0..|digits|] == digits;
    CompactWhole(n);
  }

  /** The characters of `w.f` are digits and one dot. */
  lemma DecimalTextChars(w: string, f: string)
    requires |w| > 0 && AllDigits(w) && AllDigits(f)
    ensures IsDigit((w + "." + f)[0])
    ensures forall i :: 0 <= i < |w + "." + f| ==> NumberChar((w + "." + f)[i])
  {
    var number := w + "." + f;
    forall i | 0 <= i < |number| ensures NumberChar(number[i]) {
      if i < |w| { assert number[i] == w[i]; }
      else if i > |w| { assert number[i] == f[i - |w| - 1]; }
    }
  }

  lemma LowerOfRatingLabel(number: string, rest: string)
    requires forall i :: 0 <= i < |number| ==> NumberChar(number[i])
    ensures Lower(number + " out of 5" + rest) == number + " out of 5" + Lower(rest)
  {
    var head := number + " out of 5";
    forall i | 0 <= i < |head| ensures !('A' <= head[i] <= 'Z') {
      if i < |number| { assert head[i] == number[i]; }
    }
    LowerNoLetters(head);
    LowerConcat(head, rest);
  }

  /** In "<number> out of 5<tail>" the rating pattern matches the number. */
  lemma RatingRunAtStart(number: string, tail: string)
    requires |number| > 0 && IsDigit(number[0])
    requires forall i :: 0 <= i < |number| ==> NumberChar(number[i])
    ensures MatchRun(number + " out of 5" + tail, NumberChar, "out of 5", 0) == Some(0)
    ensures RunEnd(number + " out of 5" + tail, 0, NumberChar) == |number|
  {
    var text := number + " out of 5" + tail;
    forall i | 0 <= i < |number| ensures NumberChar(text[i]) {
      assert text[i] == number[i];
    }
    RunEndAt(text, 0, |number|, NumberChar);
    assert text == number + " " + "out of 5" + tail;
    PhraseAfterSpace(number, "out of 5", tail);
    assert RunMatchAt(text, NumberChar, "out of 5", 0);
  }

  /** After `head`, one space and then `phrase` follow. */
  lemma PhraseAfterSpace(head: string, phrase: string, tail: string)
    requires |phrase| > 0 && !IsSpace(phrase[0])
    ensures SkipSpaces(head + " " + phrase + tail, |head|) == |head| + 1
    ensures StartsWith((head + " " + phrase + tail)[|head| + 1..], phrase)
  {
    var text := head + " " + phrase + tail;
    assert text[|head|] == ' ';
    assert text[|head| + 1] == phrase[0];
    SkipSpacesAt(text, |head|, |head| + 1);
    assert text[|head| + 1..][..|phrase|] == phrase;
  }

  // ------------------------------------------------ normalizeAmazonImage

  /** `normalizeAmazonImage(url)`; `None` is null or undefined. */
  function NormalizeAmazonImage(url: Option<string>): (r: string)
    ensures url.None? || url.value == [] ==> r == []
    ensures url.Some? && StartsWith(url.value, "//") ==> r == "https:" + url.value
    ensures url.Some? && !StartsWith(url.value, "//") ==> r == url.value
  {
    if url.None? || url.value == [] then []
    else if StartsWith(url.value, "//") then "https:" + url.value
    else url.value
  }

  /** Normalising twice is normalising once: the result never starts with
      "//". */
  lemma NormalizeAmazonImageIdempotent(url: Option<string>)
    ensures NormalizeAmazonImage(Some(NormalizeAmazonImage(url))) == NormalizeAmazonImage(url)
    ensures !StartsWith(NormalizeAmazonImage(url), "//")
  {
    var r := NormalizeAmazonImage(url);
    if url.Some? && StartsWith(url.value, "//") {
      assert r[0] == 'h';
    }
  }

  // ------------------------------------------------------ isAmazonBlocked

  const BlockMarkers: seq<string> := ["captcha", "robot check", "enter the characters"]

  /** `/captcha|robot check|enter the characters/i.test(html || '')`. */
  function IsAmazonBlocked(html: Option<string>): (blocked: bool)
    ensures html.None? ==> !blocked
    ensures blocked <==> exists i :: 0 <= i < |BlockMarkers| && Contains(Lower(html.GetOr([])), BlockMarkers[i])
  {
    var text := Lower(html.GetOr([]));
    assert BlockMarkers[0] == "captcha" && BlockMarkers[1] == "robot check" && BlockMarkers[2] == "enter the characters";
    Contains(text, "captcha") || Contains(text, "robot check") || Contains(text, "enter the characters")
  }

  /** A marker in any letter case anywhere in the page blocks it. */
  lemma BlockedByMarker(before: string, word: string, after: string, i: nat)
    requires i < |BlockMarkers| && Lower(word) == BlockMarkers[i]
    ensures IsAmazonBlocked(Some(before + word + after))
  {
    LowerConcat(before + word, after);
    LowerConcat(before, word);
    var text := Lower(before + word + after);
    assert text == Lower(before) + BlockMarkers[i] + Lower(after);
    assert OccursAt(text, BlockMarkers[i], |before|);
  }
}
