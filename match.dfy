/** The cross-retailer title matcher of `scrapers/match.js`: text
    normalisation, token and bigram Jaccard similarity, keyword classification,
    the type-match penalty, the price-plausibility score and the selection of
    the best-scoring Amazon candidate. */
module Match {
  import opened Wrappers
  import opened Strings
  import opened Seqs
  import opened JsValues

  // ------------------------------------------------------- normalizeText

  /** The `replace(/[^a-z0-9\s]/g, ' ')` step: anything that is neither a
      lower-case letter, a digit nor white space becomes a space. */
  function MaskChar(c: char): (r: char)
    ensures IsLowerAlnum(r) || IsSpace(r)
  {
    if IsLowerAlnum(c) || IsSpace(c) then c else ' '
  }

  /** Every character is `[a-z0-9]` or white space (what the mask leaves). */
  predicate Masked(s: string)
  {
    forall i :: 0 <= i < |s| ==> IsLowerAlnum(s[i]) || IsSpace(s[i])
  }

  /** Every character is `[a-z0-9]` or a plain space. */
  predicate WordChars(s: string)
  {
    forall i :: 0 <= i < |s| ==> IsLowerAlnum(s[i]) || s[i] == ' '
  }

  /** No two spaces in a row. */
  predicate SingleSpaced(s: string)
  {
    forall i :: 0 <= i < |s| - 1 ==> !(s[i] == ' ' && s[i + 1] == ' ')
  }

  /** The `replace(/\s+/g, ' ')` step: every run of white space becomes one
      space; other characters are kept. */
  function CollapseSpaces(s: string): (r: string)
    ensures |r| <= |s|
    ensures |r| == 0 <==> |s| == 0
    ensures |s| > 0 ==> (r[0] == ' ' <==> IsSpace(s[0]))
    ensures Masked(s) ==> WordChars(r)
    ensures SingleSpaced(r)
    decreases |s|
  {
    if s == [] then []
    else if IsSpace(s[0]) then [' '] + CollapseSpaces(TrimStart(s[1..]))
    else [s[0]] + CollapseSpaces(s[1..])
  }

  /** A string whose only white space is single spaces is its own collapse. */
  lemma {:induction false} CollapseSpacesFixed(s: string)
    requires WordChars(s) && SingleSpaced(s)
    ensures CollapseSpaces(s) == s
    decreases |s|
  {
    if s != [] {
      var t := s[1..];
      SliceKeeps(s, 1, |s|);
      CollapseSpacesFixed(t);
      if IsSpace(s[0]) {
        assert s[0] == ' ';
        assert t != [] ==> t[0] != ' ' && !IsSpace(t[0]);
        assert TrimStart(t) == t;
      }
    }
  }

  lemma SliceKeeps(s: string, a: nat, b: nat)
    requires a <= b <= |s|
    ensures WordChars(s) ==> WordChars(s[a..b])
    ensures SingleSpaced(s) ==> SingleSpaced(s[a..b])
  {
    var t := s[a..b];
    assert forall i :: 0 <= i < |t| ==> t[i] == s[a + i];
  }

  /** `normalizeText(text)`: lower-case, punctuation to spaces, white space
      runs to one space, trimmed; null and undefined give ''. */
  function NormalizeText(text: Option<string>): (r: string)
    ensures text.None? ==> r == ""
    ensures WordChars(r) && SingleSpaced(r)
    ensures |r| > 0 ==> r[0] != ' ' && r[|r| - 1] != ' '
  {
    var s := if text.Some? then text.value else "";
    var masked := Map(Lower(s), MaskChar);
    MaskedMap(Lower(s));
    var collapsed := CollapseSpaces(masked);
    TrimKeeps(collapsed);
    Trim(collapsed)
  }

  /** Trimming keeps the character class and the single spacing, and leaves
      no space at either end. */
  lemma TrimKeeps(s: string)
    ensures WordChars(s) ==> WordChars(Trim(s))
    ensures SingleSpaced(s) ==> SingleSpaced(Trim(s))
    ensures |Trim(s)| > 0 ==> Trim(s)[0] != ' ' && Trim(s)[|Trim(s)| - 1] != ' '
  {
    var r := Trim(s);
    SliceKeeps(s, TrimOffset(s), TrimOffset(s) + |r|);
    assert IsSpace(' ');
  }

  lemma MaskedMap(s: string)
    ensures Masked(Map(s, MaskChar))
  {
  }

  lemma LowerKeepsWordChars(r: string)
    requires WordChars(r)
    ensures Lower(r) == r
  {
    var lowered := Lower(r);
    forall i | 0 <= i < |r| ensures lowered[i] == r[i] {
      assert IsLowerAlnum(r[i]) || r[i] == ' ';
    }
  }

  lemma MaskKeepsWordChars(r: string)
    requires WordChars(r)
    ensures Map(r, MaskChar) == r
  {
    var masked := Map(r, MaskChar);
    forall i | 0 <= i < |r| ensures masked[i] == r[i] {
      assert IsLowerAlnum(r[i]) || r[i] == ' ';
    }
  }

  /** Normalising twice is normalising once. */
  lemma NormalizeTextIdempotent(text: Option<string>)
    ensures NormalizeText(Some(NormalizeText(text))) == NormalizeText(text)
  {
    var r := NormalizeText(text);
    LowerKeepsWordChars(r);
    MaskKeepsWordChars(r);
    CollapseSpacesFixed(r);
    if |r| > 0 {
      assert IsLowerAlnum(r[0]) && IsLowerAlnum(r[|r| - 1]);
    }
    assert Trim(r) == r;
  }

  // ------------------------------------------------------------ tokenSet

  const Stopwords: set<string> := {
    "the", "and", "or", "for", "with", "a", "an", "of", "to", "in", "on", "at", "by",
    "from", "edition", "standard", "deluxe", "ultimate", "bundle", "new", "sale"
  }

  /** `s.split(sep)`: the pieces between separators, empty ones included. */
  function Split(s: string, sep: char): (r: seq<string>)
    ensures |r| >= 1
    ensures forall i :: 0 <= i < |r| ==> sep !in r[i]
    decreases |s|
  {
    if s == [] then [""]
    else
      var init := Split(s[..|s| - 1], sep);
      var c := s[|s| - 1];
      if c == sep then init + [""]
      else init[..|init| - 1] + [init[|init| - 1] + [c]]
  }

  /** The pieces joined back with the separator. */
  function Join(pieces: seq<string>, sep: char): string
    decreases |pieces|
  {
    if pieces == [] then ""
    else if |pieces| == 1 then pieces[0]
    else Join(pieces[..|pieces| - 1], sep) + [sep] + pieces[|pieces| - 1]
  }

  /** Splitting loses nothing: joining the pieces gives the string back. */
  lemma {:induction false} SplitJoin(s: string, sep: char)
    ensures Join(Split(s, sep), sep) == s
    decreases |s|
  {
    if s != [] {
      var init := Split(s[..|s| - 1], sep);
      SplitJoin(s[..|s| - 1], sep);
      var c := s[|s| - 1];
      if c != sep {
        var pieces := init[..|init| - 1] + [init[|init| - 1] + [c]];
        assert pieces[..|pieces| - 1] == init[..|init| - 1];
        if |init| > 1 {
          assert init[..|init| - 1][..|init| - 2] == init[..|init| - 2];
        }
      } else {
        var pieces := init + [""];
        assert pieces[..|pieces| - 1] == init;
      }
      assert s == s[..|s| - 1] + [c];
    }
  }

  predicate IsToken(t: string)
  {
    t != "" && t !in Stopwords
  }

  /** `Array.from(tokenSet(text))`: the words of the normalised text that are
      neither empty nor stop words, each once, in order of first occurrence. */
  function TokenList(text: string): (r: seq<string>)
    ensures forall i :: 0 <= i < |r| ==> r[i] != "" && r[i] !in Stopwords
    ensures Distinct(r)
  {
    var words := Filter(Split(NormalizeText(Some(text)), ' '), IsToken);
    var r := FirstPerKey(words, (t: string) => t);
    FirstPerKeyProperties(words, (t: string) => t);
    r
  }

  /** `tokenSet(text)` as a set. */
  function TokenSet(text: string): set<string>
  {
    Elems(TokenList(text))
  }

  lemma TokenSetSize(text: string)
    ensures |TokenSet(text)| == |TokenList(text)|
  {
    DistinctCard(TokenList(text));
  }

  // ----------------------------------------------------------- Jaccard

  /** The Jaccard index the source computes: the intersection size over
      `|A| + |B| - |A ∩ B|`, and 0 when either set is empty. */
  function Jaccard(a: set<string>, b: set<string>): real
  {
    if |a| == 0 || |b| == 0 then 0.0
    else |a * b| as real / (|a| + |b| - |a * b|) as real
  }

  /** The denominator is the size of the union, so it is positive when both
      sets are non-empty and never smaller than the intersection. */
  lemma UnionSize(a: set<string>, b: set<string>)
    ensures |a| + |b| - |a * b| == |a + b|
    ensures |a * b| <= |a| && |a * b| <= |b|
    ensures |a + b| >= |a| && |a + b| >= |b|
  {
    assert a == (a - b) + (a * b);
    assert b == (b - a) + (a * b);
    assert a + b == (a - b) + (b - a) + (a * b);
  }

  lemma JaccardBounds(a: set<string>, b: set<string>)
    ensures 0.0 <= Jaccard(a, b) <= 1.0
    ensures |a| == 0 || |b| == 0 ==> Jaccard(a, b) == 0.0
    ensures a == b && |a| > 0 ==> Jaccard(a, b) == 1.0
  {
    UnionSize(a, b);
    if a == b {
      assert a * b == a;
    }
  }

  lemma JaccardSymmetric(a: set<string>, b: set<string>)
    ensures Jaccard(a, b) == Jaccard(b, a)
  {
    assert a * b == b * a;
  }

  /** `jaccardFromSets(setA, setB)`: counts the common elements in a loop. */
  method JaccardFromSets(setA: set<string>, setB: set<string>) returns (r: real)
    ensures r == Jaccard(setA, setB)
    ensures 0.0 <= r <= 1.0
  {
    JaccardBounds(setA, setB);
    if |setA| == 0 || |setB| == 0 {
      return 0.0;
    }
    var intersection := 0;
    var rest := setA;
    while rest != {}
      invariant rest <= setA
      invariant intersection == |(setA - rest) * setB|
      decreases |rest|
    {
      var token :| token in rest;
      ghost var seen := (setA - rest) * setB;
      if token in setB {
        assert (setA - (rest - {token})) * setB == seen + {token};
        intersection := intersection + 1;
      } else {
        assert (setA - (rest - {token})) * setB == seen;
      }
      rest := rest - {token};
    }
    assert setA - rest == setA;
    UnionSize(setA, setB);
    var union := |setA| + |setB| - intersection;
    r := intersection as real / union as real;
  }

  /** `jaccardSimilarity(a, b)`: Jaccard index of the two token sets. */
  method JaccardSimilarity(a: string, b: string) returns (r: real)
    ensures r == Jaccard(TokenSet(a), TokenSet(b))
    ensures 0.0 <= r <= 1.0
    ensures TokenList(a) == [] || TokenList(b) == [] ==> r == 0.0
  {
    TokenSetSize(a);
    TokenSetSize(b);
    r := JaccardFromSets(TokenSet(a), TokenSet(b));
  }

  // ----------------------------------------------------------- bigrams

  /** The strings `tokens[i] + ' ' + tokens[i+1]` of neighbouring tokens. */
  function Bigrams(tokens: seq<string>): (r: seq<string>)
    ensures |r| == if |tokens| < 2 then 0 else |tokens| - 1
  {
    if |tokens| < 2 then []
    else seq(|tokens| - 1, i requires 0 <= i < |tokens| - 1 => tokens[i] + " " + tokens[i + 1])
  }

  function BigramsOf(text: string): set<string>
  {
    Elems(Bigrams(TokenList(text)))
  }

  /** `bigramSet(text)`: the bigrams of the de-duplicated token list, so a
      text with fewer than two distinct tokens has none. */
  method BigramSet(text: string) returns (grams: set<string>)
    ensures grams == BigramsOf(text)
    ensures grams == {} <==> |TokenList(text)| < 2
  {
    var tokens := TokenList(text);
    grams := PairUp(tokens);
  }

  /** The loop of `bigramSet`: adds the bigram of each neighbouring pair. */
  method PairUp(tokens: seq<string>) returns (grams: set<string>)
    ensures grams == Elems(Bigrams(tokens))
    ensures grams == {} <==> |tokens| < 2
  {
    ghost var expected := Bigrams(tokens);
    grams := {};
    var i := 0;
    while i < |tokens| - 1
      invariant 0 <= i && (|tokens| >= 2 ==> i <= |tokens| - 1)
      invariant |tokens| < 2 ==> i == 0
      invariant grams == Elems(expected[..i])
    {
      assert expected[..i + 1] == expected[..i] + [expected[i]];
      ElemsSnoc(expected[..i], expected[i]);
      grams := grams + {tokens[i] + " " + tokens[i + 1]};
      i := i + 1;
    }
    assert expected[..i] == expected;
    if |tokens| >= 2 {
      assert expected[0] in grams;
    }
  }

  // -------------------------------------------------------- similarity

  /** The blend `textSimilarity` returns: 0.7 of the token Jaccard index plus
      0.3 of the bigram Jaccard index. */
  function Similarity(a: string, b: string): real
  {
    Jaccard(TokenSet(a), TokenSet(b)) * 0.7 + Jaccard(BigramsOf(a), BigramsOf(b)) * 0.3
  }

  /** `textSimilarity(a, b)`. */
  method TextSimilarity(a: string, b: string) returns (r: real)
    ensures r == Similarity(a, b)
    ensures 0.0 <= r <= 1.0
  {
    var tokenScore := JaccardSimilarity(a, b);
    var gramsA := BigramSet(a);
    var gramsB := BigramSet(b);
    var bigramScore := JaccardFromSets(gramsA, gramsB);
    r := tokenScore * 0.7 + bigramScore * 0.3;
  }

  lemma SimilarityBounds(a: string, b: string)
    ensures 0.0 <= Similarity(a, b) <= 1.0
  {
    JaccardBounds(TokenSet(a), TokenSet(b));
    JaccardBounds(BigramsOf(a), BigramsOf(b));
  }

  lemma SimilaritySymmetric(a: string, b: string)
    ensures Similarity(a, b) == Similarity(b, a)
  {
    JaccardSymmetric(TokenSet(a), TokenSet(b));
    JaccardSymmetric(BigramsOf(a), BigramsOf(b));
  }

  /** A title compared with itself scores 1 when it has at least two distinct
      tokens, only 0.7 with exactly one (it has no bigram), and 0 with none. */
  lemma SimilaritySelf(a: string)
    ensures |TokenList(a)| >= 2 ==> Similarity(a, a) == 1.0
    ensures |TokenList(a)| == 1 ==> Similarity(a, a) == 0.7
    ensures |TokenList(a)| == 0 ==> Similarity(a, a) == 0.0
  {
    TokenSetSize(a);
    JaccardBounds(TokenSet(a), TokenSet(a));
    JaccardBounds(BigramsOf(a), BigramsOf(a));
    var tokens := TokenList(a);
    if |tokens| >= 2 {
      assert Bigrams(tokens)[0] in BigramsOf(a);
    }
  }

  // ---------------------------------------------------- classification

  const PlatformKeywords: seq<string> := [
    "ps5", "playstation 5", "playstation5", "ps4", "playstation 4", "xbox",
    "xbox series", "nintendo switch", "switch"
  ]

  const ConsoleKeywords: seq<string> := ["console", "system", "digital edition", "disc edition"]

  const AccessoryKeywords: seq<string> := [
    "controller", "headset", "charging", "dock", "stand", "case", "cover", "skin",
    "cable", "adapter", "remote", "camera"
  ]

  const SubscriptionKeywords: seq<string> := [
    "subscription", "membership", "game pass", "playstation plus", "ps plus"
  ]

  const GiftCardKeywords: seq<string> := ["gift card", "giftcard", "digital code", "download code"]

  /** `hasKeyword(text, keywords)`: some keyword occurs as a substring. */
  predicate HasKeyword(text: string, keywords: seq<string>)
    decreases |keywords|
  {
    keywords != [] && (Contains(text, keywords[0]) || HasKeyword(text, keywords[1..]))
  }

  datatype Classification = Classification(
    isBundle: bool,
    isConsole: bool,
    isAccessory: bool,
    isGiftCard: bool,
    isSubscription: bool,
    isGame: bool)

  /** `classifyTitle(title)`: six facets, each a substring test on the
      normalised title. */
  function ClassifyTitle(title: string): (c: Classification)
    ensures c.isBundle <==> Contains(NormalizeText(Some(title)), "bundle")
    ensures c.isBundle && HasKeyword(NormalizeText(Some(title)), PlatformKeywords) ==> c.isConsole
    ensures c.isGame ==> !c.isConsole && !c.isAccessory && !c.isGiftCard && !c.isSubscription
    ensures c.isAccessory <==> HasKeyword(NormalizeText(Some(title)), AccessoryKeywords)
  {
    var normalized := NormalizeText(Some(title));
    var isBundle := Contains(normalized, "bundle");
    var isConsole := HasKeyword(normalized, ConsoleKeywords) || (isBundle && HasKeyword(normalized, PlatformKeywords));
    var isAccessory := HasKeyword(normalized, AccessoryKeywords);
    var isGiftCard := HasKeyword(normalized, GiftCardKeywords);
    var isSubscription := HasKeyword(normalized, SubscriptionKeywords);
    var isGame := (!isConsole && !isAccessory && !isGiftCard && !isSubscription)
      && (Contains(normalized, "game") || Contains(normalized, "edition") || HasKeyword(normalized, PlatformKeywords));
    Classification(isBundle, isConsole, isAccessory, isGiftCard, isSubscription, isGame)
  }

  lemma ContainsWithin(s: string, p: string, q: string, k: nat)
    requires OccursAt(q, p, k)
    requires Contains(s, q)
    ensures Contains(s, p)
  {
    var i :| 0 <= i <= |s| - |q| && OccursAt(s, q, i);
    forall j | 0 <= j < |p| ensures s[i + k + j] == p[j] {
      assert s[i..i + |q|][k + j] == q[k + j];
      assert q[k..k + |p|][j] == p[j];
    }
    assert s[i + k..i + k + |p|] == p;
    assert OccursAt(s, p, i + k) && i + k <= |s| - |p|;
  }

  /** Classification is by substring, not by word: a title containing
      "standard" contains the accessory keyword "stand". */
  lemma StandardIsAccessory(title: string)
    requires Contains(NormalizeText(Some(title)), "standard")
    ensures ClassifyTitle(title).isAccessory
  {
    StandardHasStand(NormalizeText(Some(title)));
  }

  lemma StandardHasStand(text: string)
    requires Contains(text, "standard")
    ensures HasKeyword(text, AccessoryKeywords)
  {
    assert "standard"[0..5] == "stand";
    ContainsWithin(text, "stand", "standard", 0);
    HasKeywordAt(text, AccessoryKeywords, 4);
  }

  /** A keyword at any position of the list makes `hasKeyword` true. */
  lemma {:induction false} HasKeywordAt(text: string, keywords: seq<string>, i: nat)
    requires i < |keywords| && Contains(text, keywords[i])
    ensures HasKeyword(text, keywords)
    decreases i
  {
    if i > 0 {
      HasKeywordAt(text, keywords[1..], i - 1);
    }
  }

  // ------------------------------------------------------ type factor

  predicate SameType(t: Classification, c: Classification)
  {
    (t.isConsole && c.isConsole) || (t.isGame && c.isGame) || (t.isAccessory && c.isAccessory)
    || (t.isGiftCard && c.isGiftCard) || (t.isSubscription && c.isSubscription)
  }

  /** The first four penalty rules of `typeMatchFactor` (gift card,
      subscription, game against console or bundle, console against game),
      applied in order to `f`. */
  function KindRules(f: real, t: Classification, c: Classification): real
  {
    var f1 := if t.isGiftCard && !c.isGiftCard then f * 0.2 else f;
    var f2 := if t.isSubscription && !c.isSubscription then f1 * 0.2 else f1;
    var f3 := if t.isGame && (c.isConsole || c.isBundle) then f2 * 0.3 else f2;
    if t.isConsole && c.isGame then f3 * 0.3 else f3
  }

  /** The last four penalty rules (accessory against console, bundle or
      game; an unwanted bundle; a missing bundle), applied in order to `f`. */
  function BundleRules(f: real, t: Classification, c: Classification): real
  {
    var f5 := if t.isAccessory && (c.isConsole || c.isBundle) then f * 0.3 else f;
    var f6 := if t.isAccessory && c.isGame then f5 * 0.6 else f5;
    var f7 := if !t.isBundle && c.isBundle then f6 * 0.5 else f6;
    if t.isBundle && !c.isBundle then f7 * 0.7 else f7
  }

  /** The factor: every rule that fires multiplies in (no short-circuit),
      then the same-type bonus. */
  function TypeFactor(t: Classification, c: Classification): real
  {
    var penalised := BundleRules(KindRules(1.0, t, c), t, c);
    if SameType(t, c) then penalised * 1.1 else penalised
  }

  /** `typeMatchFactor(targetTitle, candidateTitle)`: starts at 1 and
      multiplies in each rule that fires. */
  method TypeMatchFactor(targetTitle: string, candidateTitle: string) returns (factor: real)
    ensures factor == TypeFactor(ClassifyTitle(targetTitle), ClassifyTitle(candidateTitle))
    ensures 0.0 < factor <= 1.1
  {
    var target := ClassifyTitle(targetTitle);
    var candidate := ClassifyTitle(candidateTitle);
    TypeFactorBounds(target, candidate);
    factor := 1.0;
    factor := ApplyKindRules(factor, target, candidate);
    factor := ApplyBundleRules(factor, target, candidate);
    var sameType :=
      (target.isConsole && candidate.isConsole) ||
      (target.isGame && candidate.isGame) ||
      (target.isAccessory && candidate.isAccessory) ||
      (target.isGiftCard && candidate.isGiftCard) ||
      (target.isSubscription && candidate.isSubscription);
    if sameType { factor := factor * 1.1; }
  }

  method ApplyKindRules(factor: real, t: Classification, c: Classification) returns (r: real)
    ensures r == KindRules(factor, t, c)
    ensures 0.0 < factor ==> 0.0 < r <= factor
  {
    r := factor;
    if t.isGiftCard && !c.isGiftCard { r := r * 0.2; }
    if t.isSubscription && !c.isSubscription { r := r * 0.2; }
    if t.isGame && (c.isConsole || c.isBundle) { r := r * 0.3; }
    if t.isConsole && c.isGame { r := r * 0.3; }
  }

  method ApplyBundleRules(factor: real, t: Classification, c: Classification) returns (r: real)
    ensures r == BundleRules(factor, t, c)
    ensures 0.0 < factor ==> 0.0 < r <= factor
  {
    r := factor;
    if t.isAccessory && (c.isConsole || c.isBundle) { r := r * 0.3; }
    if t.isAccessory && c.isGame { r := r * 0.6; }
    if !t.isBundle && c.isBundle { r := r * 0.5; }
    if t.isBundle && !c.isBundle { r := r * 0.7; }
  }

  /** Penalty rules never raise a positive factor nor make it reach zero; a
      gift-card or subscription mismatch leaves at most a fifth of it. */
  lemma KindRulesBounds(f: real, t: Classification, c: Classification)
    requires 0.0 < f
    ensures 0.0 < KindRules(f, t, c) <= f
    ensures (t.isGiftCard && !c.isGiftCard) || (t.isSubscription && !c.isSubscription) ==> KindRules(f, t, c) <= f * 0.2
  {
  }

  lemma BundleRulesBounds(f: real, t: Classification, c: Classification)
    requires 0.0 < f
    ensures 0.0 < BundleRules(f, t, c) <= f
  {
  }

  /** The factor is positive and at most the same-type bonus 1.1. */
  lemma TypeFactorBounds(t: Classification, c: Classification)
    ensures 0.0 < TypeFactor(t, c) <= 1.1
  {
    KindRulesBounds(1.0, t, c);
    BundleRulesBounds(KindRules(1.0, t, c), t, c);
  }

  /** A gift-card or subscription target meeting a candidate of another kind
      keeps at most 0.2 × 1.1 of its score, whatever else fires. */
  lemma GiftCardOrSubscriptionPenalty(t: Classification, c: Classification)
    requires (t.isGiftCard && !c.isGiftCard) || (t.isSubscription && !c.isSubscription)
    ensures TypeFactor(t, c) <= 0.22
  {
    KindRulesBounds(1.0, t, c);
    BundleRulesBounds(KindRules(1.0, t, c), t, c);
  }

  /** The penalties compound: a game target against a console bundle gets
      both the console/bundle penalty and the unwanted-bundle penalty. */
  lemma GameAgainstBundle(targetTitle: string, candidateTitle: string)
    requires ClassifyTitle(targetTitle).isGame && !ClassifyTitle(targetTitle).isBundle
    requires ClassifyTitle(candidateTitle).isBundle && ClassifyTitle(candidateTitle).isConsole
    ensures TypeFactor(ClassifyTitle(targetTitle), ClassifyTitle(candidateTitle)) == 0.15
  {
  }

  /** Two titles that classify alike as a game that is not a bundle: only the
      same-type bonus applies. */
  lemma SameGameFactor(targetTitle: string, candidateTitle: string)
    requires ClassifyTitle(targetTitle) == ClassifyTitle(candidateTitle)
    requires ClassifyTitle(targetTitle).isGame && !ClassifyTitle(targetTitle).isBundle
    ensures TypeFactor(ClassifyTitle(targetTitle), ClassifyTitle(candidateTitle)) == 1.1
  {
  }

  // ------------------------------------------------------- price score

  /** `priceScore(targetPrice, candidatePrice, minRatio, maxRatio)`, with
      `Math.log` as the parameter `log`. */
  function PriceScore(targetPrice: JsValue, candidatePrice: JsValue, minRatio: real, maxRatio: real, log: real -> real): (r: real)
    ensures !(targetPrice.Num? && candidatePrice.Num?) ==> r == 0.5
    ensures targetPrice.Num? && candidatePrice.Num? && (targetPrice.n <= 0.0 || candidatePrice.n <= 0.0) ==> r == 0.5
    ensures targetPrice.Num? && candidatePrice.Num? && targetPrice.n > 0.0 && candidatePrice.n > 0.0 ==>
      var ratio := candidatePrice.n / targetPrice.n;
      (ratio < minRatio || ratio > maxRatio ==> r == -1.0) && (minRatio <= ratio <= maxRatio ==> 0.0 <= r <= 1.0)
  {
    if !(targetPrice.Num? && candidatePrice.Num?) then 0.5
    else if targetPrice.n <= 0.0 || candidatePrice.n <= 0.0 then 0.5
    else
      var ratio := candidatePrice.n / targetPrice.n;
      if ratio < minRatio || ratio > maxRatio then -1.0
      else
        var maxLog := Abs(log(maxRatio));
        if maxLog == 0.0 then 1.0
        else
          var diff := Abs(log(ratio));
          Max(0.0, 1.0 - diff / maxLog)
  }

  function Abs(x: real): real { if x < 0.0 then -x else x }

  function Max(x: real, y: real): real { if x < y then y else x }

  /** Equal prices score 1 when the band admits a ratio of 1 (and log 1 = 0). */
  lemma PriceScoreEqualPrices(price: real, minRatio: real, maxRatio: real, log: real -> real)
    requires price > 0.0
    requires minRatio <= 1.0 <= maxRatio
    requires log(1.0) == 0.0
    ensures PriceScore(Num(price), Num(price), minRatio, maxRatio, log) == 1.0
  {
    assert price / price == 1.0;
  }

  // --------------------------------------------------- pickBestMatch

  /** `options` of `pickBestMatch`; `None` is an absent (nullish) option. */
  datatype MatchOptions = MatchOptions(minPriceRatio: Option<real>, maxPriceRatio: Option<real>, strictPrice: Option<bool>)

  /** `Number(process.env.MATCH_PRICE_MIN_RATIO)` and `..._MAX_RATIO` when
      they are finite numbers, `None` otherwise. */
  datatype PriceBandEnv = PriceBandEnv(minRatio: Option<real>, maxRatio: Option<real>)

  /** What `pickBestMatch` settles before its loop; `title` is `None` when
      the target's title cannot be normalised (see `TitleText`). */
  datatype MatchContext = MatchContext(
    title: Option<string>,
    targetPrice: JsValue,
    minRatio: real,
    maxRatio: real,
    strictPrice: bool,
    log: real -> real)

  /** `typeof target === 'string' ? { title: target } : (target || {})`. */
  function TargetObject(target: JsValue): (r: JsValue)
    ensures target.Str? ==> Get(r, "title") == target
    ensures !target.Str? && Truthy(target) ==> r == target
    ensures !target.Str? && !Truthy(target) ==> Get(r, "title") == Undefined && Get(r, "price") == Undefined
  {
    if target.Str? then Obj([Member("title", target)])
    else Or(target, Obj([]))
  }

  /** A title that `normalizeText` throws on: `(text || '').toLowerCase()`
      has no `toLowerCase` to call on a truthy value that is not a string. */
  predicate ThrowingTitle(v: JsValue)
  {
    Truthy(v) && !v.Str?
  }

  /** The text `normalizeText` reads from a title: a string as it is, a
      falsy value as '', and `None` where it throws. */
  function TitleText(v: JsValue): (r: Option<string>)
    ensures r.None? <==> ThrowingTitle(v)
    ensures v.Str? ==> r == Some(v.s)
    ensures !v.Str? && r.Some? ==> r.value == ""
  {
    if v.Str? then Some(v.s)
    else if Truthy(v) then None
    else Some("")
  }

  function Context(target: JsValue, options: MatchOptions, env: PriceBandEnv, log: real -> real): (ctx: MatchContext)
    ensures ctx.targetPrice.Num? || ctx.targetPrice.Null?
    ensures options.strictPrice.None? ==> (ctx.strictPrice <==> ctx.targetPrice.Num?)
    ensures options.minPriceRatio.None? && env.minRatio.None? ==> ctx.minRatio == 0.4
    ensures options.maxPriceRatio.None? && env.maxRatio.None? ==> ctx.maxRatio == 3.0
    ensures target.Str? ==> ctx.title == Some(target.s) && ctx.targetPrice == Null
  {
    var targetObj := TargetObject(target);
    var title := TitleText(Or(Get(targetObj, "title"), Str("")));
    var targetPrice := if Get(targetObj, "price").Num? then Get(targetObj, "price") else Null;
    var minRatio := options.minPriceRatio.GetOr(env.minRatio.GetOr(0.4));
    var maxRatio := options.maxPriceRatio.GetOr(env.maxRatio.GetOr(3.0));
    var strictPrice := options.strictPrice.GetOr(targetPrice.Num?);
    MatchContext(title, targetPrice, minRatio, maxRatio, strictPrice, log)
  }

  /** The first case of the match tests: with no options and no environment
      overrides, a target priced 69.99 skips a candidate priced 499.99 (a
      ratio above the default maximum 3), whatever its title. */
  lemma ConsoleBundleSkipped(target: JsValue, env: PriceBandEnv, log: real -> real, candidate: JsValue)
    requires target.Obj? && Get(target, "price") == Num(69.99)
    requires env == PriceBandEnv(None, None)
    requires Get(candidate, "price") == Num(499.99)
    ensures CandidatePrice(Context(target, MatchOptions(None, None, None), env, log), candidate) == -1.0
    ensures !Considered(Context(target, MatchOptions(None, None, None), env, log), candidate)
  {
  }

  /** `candidate.title || ''`, as `normalizeText` reads it; `None` where
      reading the title or normalising it throws. */
  function CandidateTitle(candidate: JsValue): Option<string>
  {
    if Nullish(candidate) then None
    else TitleText(Or(Get(candidate, "title"), Str("")))
  }

  /** Reading a candidate's title throws exactly for a null or undefined
      candidate or a truthy title that is not a string. */
  lemma CandidateTitleThrows(candidate: JsValue)
    ensures CandidateTitle(candidate).None? <==> Nullish(candidate) || ThrowingTitle(Get(candidate, "title"))
  {
  }

  /** The target's title cannot be normalised exactly when it is a truthy
      value that is not a string. */
  lemma ContextTitleThrows(target: JsValue, options: MatchOptions, env: PriceBandEnv, log: real -> real)
    ensures Context(target, options, env, log).title.None? <==> ThrowingTitle(Get(TargetObject(target), "title"))
  {
  }

  /** Scoring the candidate throws: one of the two titles cannot be read or
      normalised. */
  predicate Throws(ctx: MatchContext, candidate: JsValue)
  {
    ctx.title.None? || CandidateTitle(candidate).None?
  }

  function CandidatePrice(ctx: MatchContext, candidate: JsValue): real
  {
    PriceScore(ctx.targetPrice, Get(candidate, "price"), ctx.minRatio, ctx.maxRatio, ctx.log)
  }

  /** A candidate takes part unless strict price checking is on and its
      price score is the out-of-band sentinel -1. */
  predicate Considered(ctx: MatchContext, candidate: JsValue)
  {
    !(CandidatePrice(ctx, candidate) == -1.0 && ctx.strictPrice)
  }

  /** The score of a candidate: text similarity and price score blended
      0.7/0.3, times the type factor. It is only read for a candidate that
      does not `Throw`, where both titles are present. */
  function Score(ctx: MatchContext, candidate: JsValue): real
  {
    var title := CandidateTitle(candidate).GetOr("");
    var targetTitle := ctx.title.GetOr("");
    Blend(Similarity(title, targetTitle), CandidatePrice(ctx, candidate), TypeFactor(ClassifyTitle(targetTitle), ClassifyTitle(title)))
  }

  /** `(baseScore * 0.7 + price * 0.3) * typeFactor`. */
  function Blend(similarity: real, price: real, factor: real): real
  {
    (similarity * 0.7 + price * 0.3) * factor
  }

  /** What the loop of `pickBestMatch` learns about one candidate: whether
      it takes part, and its score. */
  datatype Ranked = Ranked(considered: bool, score: real)

  /** Each candidate ranked under the context. */
  function Ranking(ctx: MatchContext, candidates: seq<JsValue>): (ranks: seq<Ranked>)
    ensures |ranks| == |candidates|
  {
    Ranks(candidates, c => Ranked(Considered(ctx, c), Score(ctx, c)))
  }

  /** Each candidate ranked by `rank`, in order. */
  function Ranks(candidates: seq<JsValue>, rank: JsValue -> Ranked): (ranks: seq<Ranked>)
    ensures |ranks| == |candidates|
    decreases |candidates|
  {
    if candidates == [] then []
    else Ranks(candidates[..|candidates| - 1], rank) + [rank(candidates[|candidates| - 1])]
  }

  lemma {:induction false} RanksAt(candidates: seq<JsValue>, rank: JsValue -> Ranked, j: int)
    requires 0 <= j < |candidates|
    ensures Ranks(candidates, rank)[j] == rank(candidates[j])
    decreases |candidates|
  {
    var init := candidates[..|candidates| - 1];
    if j < |init| {
      RanksAt(init, rank, j);
      assert init[j] == candidates[j];
    }
  }

  /** Entry `j` of the ranking is candidate `j`'s: whether it takes part,
      and its score. */
  lemma RankingAt(ctx: MatchContext, candidates: seq<JsValue>, j: int)
    requires 0 <= j < |candidates|
    ensures Ranking(ctx, candidates)[j].considered == Considered(ctx, candidates[j])
    ensures Ranking(ctx, candidates)[j].score == Score(ctx, candidates[j])
  {
    RanksAt(candidates, c => Ranked(Considered(ctx, c), Score(ctx, c)), j);
  }

  /** Entry `w` wins among the first `n`: it takes part, beats `minScore`,
      scores at least as much as every entry that takes part and strictly
      more than every earlier one. */
  predicate WinnerAmong(ranks: seq<Ranked>, minScore: real, w: int, n: int)
    requires 0 <= n <= |ranks|
  {
    0 <= w < n
    && ranks[w].considered
    && ranks[w].score > minScore
    && (forall j :: 0 <= j < n && ranks[j].considered ==> ranks[j].score <= ranks[w].score)
    && (forall j :: 0 <= j < w && ranks[j].considered ==> ranks[j].score < ranks[w].score)
  }

  /** No entry among the first `n` that takes part beats `minScore`. */
  predicate NoneAbove(ranks: seq<Ranked>, minScore: real, n: int)
    requires 0 <= n <= |ranks|
  {
    forall j :: 0 <= j < n && ranks[j].considered ==> ranks[j].score <= minScore
  }

  /** The winner, if any, is unique: ties go to the earliest candidate. */
  lemma WinnerUnique(ranks: seq<Ranked>, minScore: real, w1: int, w2: int)
    requires WinnerAmong(ranks, minScore, w1, |ranks|)
    requires WinnerAmong(ranks, minScore, w2, |ranks|)
    ensures w1 == w2
  {
  }

  /** There is a winner exactly when some candidate beats `minScore`. */
  lemma {:induction false} WinnerExists(ranks: seq<Ranked>, minScore: real, n: int)
    requires 0 <= n <= |ranks|
    ensures !NoneAbove(ranks, minScore, n) <==> exists w :: WinnerAmong(ranks, minScore, w, n)
  {
    if n > 0 {
      WinnerExists(ranks, minScore, n - 1);
      var last := ranks[n - 1];
      if NoneAbove(ranks, minScore, n - 1) {
        if last.considered && last.score > minScore {
          assert WinnerAmong(ranks, minScore, n - 1, n);
        }
      } else {
        var w :| WinnerAmong(ranks, minScore, w, n - 1);
        if last.considered && last.score > ranks[w].score {
          assert WinnerAmong(ranks, minScore, n - 1, n);
        } else {
          assert WinnerAmong(ranks, minScore, w, n);
        }
      }
    }
  }

  /** The exception `pickBestMatch` throws when a title cannot be read. */
  const TitleError := "TypeError"

  /** `pickBestMatch(candidates, target, minScore, options)`: a running
      strict maximum; the winner is returned as its own fields plus `score`.
      `Success(None)` is its `null`; it throws as soon as it reaches a
      candidate whose scoring throws. */
  method PickBestMatch(candidates: seq<JsValue>, target: JsValue, minScore: real, options: MatchOptions, env: PriceBandEnv, log: real -> real)
    returns (r: Result<Option<JsValue>>)
    ensures var ctx := Context(target, options, env, log);
      && (r.Failure? <==> exists i :: 0 <= i < |candidates| && Throws(ctx, candidates[i]))
      && (r.Failure? ==> r.error == TitleError)
    ensures var ranks := Ranking(Context(target, options, env, log), candidates);
      && (r.Success? ==> (r.value.None? <==> NoneAbove(ranks, minScore, |ranks|)))
      && (r.Success? && r.value.Some? ==>
            exists w :: WinnerAmong(ranks, minScore, w, |ranks|)
              && r.value.value == Put(candidates[w], "score", Num(ranks[w].score)))
  {
    var ctx := Context(target, options, env, log);
    r := ScanAll(ctx, candidates, minScore);
  }

  /** The loop of `pickBestMatch` under the context it settled first. */
  method ScanAll(ctx: MatchContext, candidates: seq<JsValue>, minScore: real) returns (r: Result<Option<JsValue>>)
    ensures r.Failure? <==> exists i :: 0 <= i < |candidates| && Throws(ctx, candidates[i])
    ensures r.Failure? ==> r.error == TitleError
    ensures var ranks := Ranking(ctx, candidates);
      && (r.Success? ==> (r.value.None? <==> NoneAbove(ranks, minScore, |ranks|)))
      && (r.Success? && r.value.Some? ==>
            exists w :: WinnerAmong(ranks, minScore, w, |ranks|)
              && r.value.value == Put(candidates[w], "score", Num(ranks[w].score)))
  {
    ghost var ranks := Ranking(ctx, candidates);
    var best: Option<JsValue> := None;
    var bestScore := minScore;
    ghost var w := -1;
    for i := 0 to |candidates|
      invariant Scanned(ranks, candidates, minScore, i, best, bestScore, w)
      invariant NoneThrow(ctx, candidates, i)
    {
      var threw;
      threw, best, bestScore, w := ScanCandidate(ctx, ranks, candidates, minScore, i, best, bestScore, w);
      if threw {
        ThrowFound(ctx, candidates, i);
        return Failure(TitleError);
      }
      NoneThrowStep(ctx, candidates, i);
    }
    NoneThrowAll(ctx, candidates);
    ScannedAll(ranks, candidates, minScore, best, bestScore, w);
    return Success(best);
  }

  /** Once every candidate is scanned, the best is the winner, if any. */
  lemma ScannedAll(ranks: seq<Ranked>, candidates: seq<JsValue>, minScore: real, best: Option<JsValue>, bestScore: real, w: int)
    requires Scanned(ranks, candidates, minScore, |candidates|, best, bestScore, w)
    ensures best.None? <==> NoneAbove(ranks, minScore, |ranks|)
    ensures best.Some? ==>
      exists v :: WinnerAmong(ranks, minScore, v, |ranks|) && best.value == Put(candidates[v], "score", Num(ranks[v].score))
  {
    if best.None? {
      WinnerExists(ranks, minScore, |ranks|);
    } else {
      assert WinnerAmong(ranks, minScore, w, |ranks|);
    }
  }

  /** `pickBestMatch` throws exactly when it has a candidate and the
      target's title is a truthy non-string, or some candidate is null or
      undefined or has a truthy non-string title. */
  lemma ThrowsExactly(target: JsValue, options: MatchOptions, env: PriceBandEnv, log: real -> real, candidates: seq<JsValue>)
    ensures var ctx := Context(target, options, env, log);
      (exists i :: 0 <= i < |candidates| && Throws(ctx, candidates[i]))
      <==> (|candidates| > 0 && ThrowingTitle(Get(TargetObject(target), "title")))
           || (exists i :: 0 <= i < |candidates| && (Nullish(candidates[i]) || ThrowingTitle(Get(candidates[i], "title"))))
  {
    var ctx := Context(target, options, env, log);
    ContextTitleThrows(target, options, env, log);
    forall i | 0 <= i < |candidates|
      ensures Throws(ctx, candidates[i]) <==>
        ThrowingTitle(Get(TargetObject(target), "title")) || Nullish(candidates[i]) || ThrowingTitle(Get(candidates[i], "title"))
    {
      CandidateTitleThrows(candidates[i]);
    }
    if |candidates| > 0 && ThrowingTitle(Get(TargetObject(target), "title")) {
      assert Throws(ctx, candidates[0]);
    }
  }

  /** None of the first `n` candidates throws. */
  predicate NoneThrow(ctx: MatchContext, candidates: seq<JsValue>, n: int)
    requires 0 <= n <= |candidates|
  {
    forall j :: 0 <= j < n ==> !Throws(ctx, candidates[j])
  }

  lemma ThrowFound(ctx: MatchContext, candidates: seq<JsValue>, i: int)
    requires 0 <= i < |candidates| && Throws(ctx, candidates[i])
    ensures exists j :: 0 <= j < |candidates| && Throws(ctx, candidates[j])
  {
  }

  lemma NoneThrowAll(ctx: MatchContext, candidates: seq<JsValue>)
    requires NoneThrow(ctx, candidates, |candidates|)
    ensures !exists j :: 0 <= j < |candidates| && Throws(ctx, candidates[j])
  {
  }

  lemma NoneThrowStep(ctx: MatchContext, candidates: seq<JsValue>, i: int)
    requires 0 <= i < |candidates| && NoneThrow(ctx, candidates, i)
    requires !Throws(ctx, candidates[i])
    ensures NoneThrow(ctx, candidates, i + 1)
  {
  }

  /** One turn of the loop of `pickBestMatch`: it throws where scoring the
      candidate throws; otherwise a candidate that takes part and scores
      above the best so far becomes the best, with its score, and any other
      leaves everything as it was. */
  method ScanCandidate(ctx: MatchContext, ghost ranks: seq<Ranked>, candidates: seq<JsValue>, minScore: real, i: int,
                       best: Option<JsValue>, bestScore: real, ghost w: int)
    returns (threw: bool, best': Option<JsValue>, bestScore': real, ghost w': int)
    requires ranks == Ranking(ctx, candidates) && i < |candidates|
    requires Scanned(ranks, candidates, minScore, i, best, bestScore, w)
    ensures threw <==> Throws(ctx, candidates[i])
    ensures !threw ==> Scanned(ranks, candidates, minScore, i + 1, best', bestScore', w')
    ensures !threw && ranks[i].considered && ranks[i].score > bestScore ==>
      best' == Some(Put(candidates[i], "score", Num(ranks[i].score))) && bestScore' == ranks[i].score
    ensures !threw && !(ranks[i].considered && ranks[i].score > bestScore) ==> best' == best && bestScore' == bestScore
  {
    threw, best', bestScore', w' := false, best, bestScore, w;
    var candidate := candidates[i];
    var scored := ScoreCandidate(ctx, candidate);
    if scored.None? {
      return true, best, bestScore, w;
    }
    var considered, score := scored.value.considered, scored.value.score;
    RankingAt(ctx, candidates, i);
    if !considered {
      ScanSkips(ranks, candidates, minScore, i, best, bestScore, w);
      return;
    }
    if score > bestScore {
      bestScore' := score;
      best' := Some(Put(candidate, "score", Num(score)));
      ScanTakes(ranks, candidates, minScore, i, best, bestScore, w, best', bestScore');
      w' := i;
    } else {
      ScanSkips(ranks, candidates, minScore, i, best, bestScore, w);
    }
  }

  /** The state of `pickBestMatch` after the first `i` candidates: no best
      yet and nothing above `minScore`, or the best is the winner `w` so far
      with its score. */
  predicate Scanned(ranks: seq<Ranked>, candidates: seq<JsValue>, minScore: real, i: int, best: Option<JsValue>, bestScore: real, w: int)
  {
    && 0 <= i <= |ranks| == |candidates|
    && (best.None? ==> bestScore == minScore && NoneAbove(ranks, minScore, i))
    && (best.Some? ==>
          WinnerAmong(ranks, minScore, w, i)
          && bestScore == ranks[w].score
          && best.value == Put(candidates[w], "score", Num(bestScore)))
  }

  /** A candidate left out, or not above the best score, changes nothing. */
  lemma ScanSkips(ranks: seq<Ranked>, candidates: seq<JsValue>, minScore: real, i: int, best: Option<JsValue>, bestScore: real, w: int)
    requires Scanned(ranks, candidates, minScore, i, best, bestScore, w) && i < |ranks|
    requires ranks[i].considered ==> ranks[i].score <= bestScore
    ensures Scanned(ranks, candidates, minScore, i + 1, best, bestScore, w)
  {
    if best.None? { NoneAboveStep(ranks, minScore, i); } else { WinnerStays(ranks, minScore, w, i); }
  }

  /** A candidate above the best score becomes the best. */
  lemma ScanTakes(ranks: seq<Ranked>, candidates: seq<JsValue>, minScore: real, i: int, best: Option<JsValue>, bestScore: real, w: int,
                  best': Option<JsValue>, bestScore': real)
    requires Scanned(ranks, candidates, minScore, i, best, bestScore, w) && i < |ranks|
    requires ranks[i].considered && ranks[i].score > bestScore
    requires bestScore' == ranks[i].score && best' == Some(Put(candidates[i], "score", Num(bestScore')))
    ensures Scanned(ranks, candidates, minScore, i + 1, best', bestScore', i)
  {
    if best.None? { FirstWinner(ranks, minScore, i); } else { NewWinner(ranks, minScore, w, i); }
  }

  lemma NoneAboveStep(ranks: seq<Ranked>, minScore: real, i: int)
    requires 0 <= i < |ranks| && NoneAbove(ranks, minScore, i)
    requires ranks[i].considered ==> ranks[i].score <= minScore
    ensures NoneAbove(ranks, minScore, i + 1)
  {
  }

  lemma FirstWinner(ranks: seq<Ranked>, minScore: real, i: int)
    requires 0 <= i < |ranks| && NoneAbove(ranks, minScore, i)
    requires ranks[i].considered && ranks[i].score > minScore
    ensures WinnerAmong(ranks, minScore, i, i + 1)
  {
  }

  lemma WinnerStays(ranks: seq<Ranked>, minScore: real, w: int, i: int)
    requires 0 <= i < |ranks| && WinnerAmong(ranks, minScore, w, i)
    requires ranks[i].considered ==> ranks[i].score <= ranks[w].score
    ensures WinnerAmong(ranks, minScore, w, i + 1)
  {
  }

  lemma NewWinner(ranks: seq<Ranked>, minScore: real, w: int, i: int)
    requires 0 <= i < |ranks| && WinnerAmong(ranks, minScore, w, i)
    requires ranks[i].considered && ranks[i].score > ranks[w].score
    ensures WinnerAmong(ranks, minScore, i, i + 1)
  {
  }

  /** One turn of the loop of `pickBestMatch`: `None` where reading or
      normalising a title throws, else whether the candidate takes part and,
      if so, its score. */
  method ScoreCandidate(ctx: MatchContext, candidate: JsValue) returns (r: Option<Ranked>)
    ensures r.None? <==> Throws(ctx, candidate)
    ensures r.Some? ==> r.value.considered == Considered(ctx, candidate)
    ensures r.Some? && r.value.considered ==> r.value.score == Score(ctx, candidate)
  {
    var candidateTitle := CandidateTitle(candidate);
    if candidateTitle.None? || ctx.title.None? {
      return None;
    }
    var baseScore := TextSimilarity(candidateTitle.value, ctx.title.value);
    var price := PriceScore(ctx.targetPrice, Get(candidate, "price"), ctx.minRatio, ctx.maxRatio, ctx.log);
    if price == -1.0 && ctx.strictPrice {
      return Some(Ranked(false, 0.0));
    }
    var typeFactor := TypeMatchFactor(ctx.title.value, candidateTitle.value);
    r := Some(Ranked(true, Blend(baseScore, price, typeFactor)));
  }

  /** Under strict price checking the returned candidate never has the
      out-of-band price score -1, and its score beats `minScore`. */
  lemma WinnerInBand(ctx: MatchContext, candidates: seq<JsValue>, minScore: real, w: int)
    requires WinnerAmong(Ranking(ctx, candidates), minScore, w, |candidates|)
    ensures ctx.strictPrice ==> CandidatePrice(ctx, candidates[w]) != -1.0
    ensures Score(ctx, candidates[w]) > minScore
  {
    RankingAt(ctx, candidates, w);
  }
}
