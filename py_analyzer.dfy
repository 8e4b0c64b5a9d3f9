/** The Python analyzer of `scrapers/analyzer.py`: the fallback profit rules,
    the reading of the local model's reply, batch analysis, and the fuzzy and
    query-expanding product search.  The local model is not called: its reply
    (or its absence) and `SequenceMatcher.ratio` are parameters. */
module PyAnalyzer {
  import opened Wrappers
  import opened Strings
  import opened Seqs
  import LlmAnalyzer

  /** A product dictionary: `None` for a key that is absent. */
  datatype Product = Product(title: Option<string>, retailer: Option<string>, price: Option<real>, asin: Option<string>)

  /** `product.get('price', 0)`. */
  function RetailPrice(product: Product): real
  {
    product.price.GetOr(0.0)
  }

  // ------------------------------------------------------------ profit rules

  /** Estimated profit after a flat 15 of fees and shipping. */
  function Profit(amazonPrice: real, retailPrice: real): real
  {
    amazonPrice - retailPrice - 15.0
  }

  /** Return on investment in percent, 0 when the retail price is not
      positive. */
  function Roi(amazonPrice: real, retailPrice: real): (roi: real)
    ensures retailPrice > 0.0 ==> roi * retailPrice == Profit(amazonPrice, retailPrice) * 100.0
    ensures retailPrice <= 0.0 ==> roi == 0.0
  {
    if retailPrice > 0.0 then Profit(amazonPrice, retailPrice) / retailPrice * 100.0 else 0.0
  }

  /** For a positive retail price the ROI is non-negative exactly when the
      Amazon price covers the retail price plus the 15 of fees. */
  lemma RoiSign(amazonPrice: real, retailPrice: real)
    requires retailPrice > 0.0
    ensures Roi(amazonPrice, retailPrice) >= 0.0 <==> amazonPrice >= retailPrice + 15.0
    ensures Roi(amazonPrice, retailPrice) > 0.0 <==> amazonPrice > retailPrice + 15.0
  {
    var roi := Roi(amazonPrice, retailPrice);
    var profit := Profit(amazonPrice, retailPrice);
    if roi >= 0.0 { assert roi * retailPrice >= 0.0; }
    if profit >= 0.0 { assert profit / retailPrice >= 0.0; }
    if roi > 0.0 { assert roi * retailPrice > 0.0; }
    if profit > 0.0 { assert profit / retailPrice > 0.0; }
  }

  /** What `analyze_product` returns, without the timestamp; `product` is
      set by `batch_analyze`. */
  datatype Report = Report(
    recommendation: LlmAnalyzer.Recommendation,
    analysis: string,
    profit: real,
    roi: real,
    usingFallback: bool,
    product: Option<Product>)

  const HighOpening := "High profit opportunity with "
  const HighClosing := "% ROI. Strong demand expected."
  const ModerateOpening := "Moderate profit with "
  const ModerateClosing := "% ROI. Check competition first."
  const LowOpening := "Low profit margin ("
  const LowClosing := "% ROI). Not recommended."

  /** `_fallback_analysis`: BUY from 40 % ROI, REVIEW from 25 %, AVOID
      below; `formatRoi` writes the ROI with one decimal. */
  function FallbackAnalysis(amazonPrice: real, retailPrice: real, formatRoi: real -> string): (r: Report)
    ensures r.profit == Profit(amazonPrice, retailPrice) && r.roi == Roi(amazonPrice, retailPrice)
    ensures r.usingFallback && r.product.None?
    ensures r.recommendation == LlmAnalyzer.Buy <==> r.roi >= 40.0
    ensures r.recommendation == LlmAnalyzer.Review <==> 25.0 <= r.roi < 40.0
    ensures r.recommendation == LlmAnalyzer.Avoid <==> r.roi < 25.0
  {
    var profit := Profit(amazonPrice, retailPrice);
    var roi := Roi(amazonPrice, retailPrice);
    if roi >= 40.0 then
      Report(LlmAnalyzer.Buy, HighOpening + formatRoi(roi) + HighClosing, profit, roi, true, None)
    else if roi >= 25.0 then
      Report(LlmAnalyzer.Review, ModerateOpening + formatRoi(roi) + ModerateClosing, profit, roi, true, None)
    else
      Report(LlmAnalyzer.Avoid, LowOpening + formatRoi(roi) + LowClosing, profit, roi, true, None)
  }

  /** Without a positive retail price the fallback always says AVOID. */
  lemma NoRetailPriceAvoids(amazonPrice: real, retailPrice: real, formatRoi: real -> string)
    requires retailPrice <= 0.0
    ensures FallbackAnalysis(amazonPrice, retailPrice, formatRoi).recommendation == LlmAnalyzer.Avoid
  {
  }

  /** A higher Amazon price never lowers the fallback's verdict. */
  lemma FallbackMonotone(low: real, high: real, retailPrice: real, formatRoi: real -> string)
    requires low <= high
    ensures var a := FallbackAnalysis(low, retailPrice, formatRoi).recommendation;
      var b := FallbackAnalysis(high, retailPrice, formatRoi).recommendation;
      (a == LlmAnalyzer.Buy ==> b == LlmAnalyzer.Buy) && (b == LlmAnalyzer.Avoid ==> a == LlmAnalyzer.Avoid)
  {
    if retailPrice > 0.0 {
      var p := retailPrice;
      assert Profit(low, p) <= Profit(high, p);
      assert Profit(low, p) / p <= Profit(high, p) / p;
    }
  }

  // ------------------------------------------------------------ analyze_product

  /** The local model's answer: `Unavailable` for a failed request, a status
      other than 200 or an exception; otherwise the `response` field of the
      reply, `None` when it is missing. */
  datatype Reply = Unavailable | Answered(response: Option<string>)

  /** The recommendation read from a reply: the first of BUY and AVOID the
      upper-cased text contains, REVIEW otherwise. */
  function ParseReply(text: string): (r: LlmAnalyzer.Recommendation)
    ensures r == LlmAnalyzer.Buy <==> Contains(Upper(text), "BUY")
    ensures r == LlmAnalyzer.Avoid <==> !Contains(Upper(text), "BUY") && Contains(Upper(text), "AVOID")
    ensures r == LlmAnalyzer.Review <==> !Contains(Upper(text), "BUY") && !Contains(Upper(text), "AVOID")
  {
    if Contains(Upper(text), "BUY") then LlmAnalyzer.Buy
    else if Contains(Upper(text), "AVOID") then LlmAnalyzer.Avoid
    else LlmAnalyzer.Review
  }

  /** Any mention of BUY wins: a reply that recommends AVOID but says "buy"
      anywhere is read as BUY. */
  lemma AvoidMentioningBuyReadsBuy()
    ensures ParseReply("AVOID: do not buy") == LlmAnalyzer.Buy
  {
    var t := "AVOID: do not buy";
    assert Upper(t)[14..17] == "BUY";
    assert OccursAt(Upper(t), "BUY", 14);
  }

  /** Reading a reply ignores the case of ASCII letters. */
  lemma ParseReplyIgnoresCase(text: string)
    ensures ParseReply(Lower(text)) == ParseReply(text)
  {
    assert Upper(Lower(text)) == Upper(text) by {
      forall i | 0 <= i < |text| ensures UpperChar(LowerChar(text[i])) == UpperChar(text[i]) { }
    }
  }

  /** `analyze_product(product, amazon_price)`: the model's reading when it
      answers, the fallback rules otherwise. */
  function AnalyzeProduct(product: Product, amazonPrice: real, reply: Reply, formatRoi: real -> string): (r: Report)
    ensures r.profit == Profit(amazonPrice, RetailPrice(product))
    ensures r.roi == Roi(amazonPrice, RetailPrice(product))
    ensures r.usingFallback <==> reply.Unavailable?
    ensures r.product.None?
    ensures reply.Unavailable? ==> r == FallbackAnalysis(amazonPrice, RetailPrice(product), formatRoi)
    ensures reply.Answered? ==>
      var text := reply.response.GetOr("Unable to analyze");
      r.analysis == Trim(text) && r.recommendation == ParseReply(text)
  {
    var retailPrice := RetailPrice(product);
    match reply
    case Unavailable => FallbackAnalysis(amazonPrice, retailPrice, formatRoi)
    case Answered(response) =>
      var text := response.GetOr("Unable to analyze");
      Report(ParseReply(text), Trim(text), Profit(amazonPrice, retailPrice), Roi(amazonPrice, retailPrice), false, None)
  }

  /** An answer without a `response` field is read as REVIEW. */
  lemma MissingResponseReviews(product: Product, amazonPrice: real, formatRoi: real -> string)
    ensures AnalyzeProduct(product, amazonPrice, Answered(None), formatRoi).recommendation == LlmAnalyzer.Review
  {
    UnableLacksBuy();
    UnableLacksAvoid();
  }

  lemma UnableLacksBuy()
    ensures !Contains(Upper("Unable to analyze"), "BUY")
  {
    var s := "Unable to analyze";
    assert forall i :: 0 <= i < |s| ==> s[i] != 'B' && (s[i] == 'b' ==> s[i + 1] == 'l');
    UpperLacksTriple(s, "BUY", 0);
  }

  lemma UnableLacksAvoid()
    ensures !Contains(Upper("Unable to analyze"), "AVOID")
  {
    var s := "Unable to analyze";
    assert forall i :: 0 <= i < |s| ==> UpperChar(s[i]) != 'V';
    UpperLacksTriple(s, "AVOID", 1);
  }

  // ------------------------------------------------------------ batch_analyze

  /** The Amazon price `batch_analyze` uses: the one listed under the
      product's asin (`''` when it has none), else 1.5 times its price. */
  function AmazonPriceFor(product: Product, amazonPrices: map<string, real>): real
  {
    var asin := product.asin.GetOr("");
    if asin in amazonPrices then amazonPrices[asin] else RetailPrice(product) * 1.5
  }

  /** One product's entry in the batch: its report with the product attached. */
  function BatchEntry(product: Product, amazonPrices: map<string, real>,
                      reply: (Product, real) -> Reply, formatRoi: real -> string): Report
  {
    var amazonPrice := AmazonPriceFor(product, amazonPrices);
    AnalyzeProduct(product, amazonPrice, reply(product, amazonPrice), formatRoi).(product := Some(product))
  }

  /** `batch_analyze(products, amazon_prices)`; `reply` answers for the
      model on each product and Amazon price. */
  method BatchAnalyze(products: seq<Product>, amazonPrices: map<string, real>,
                      reply: (Product, real) -> Reply, formatRoi: real -> string)
    returns (results: seq<Report>)
    ensures |results| == |products|
    ensures forall i :: 0 <= i < |products| ==>
      results[i] == BatchEntry(products[i], amazonPrices, reply, formatRoi)
  {
    results := [];
    for i := 0 to |products|
      invariant |results| == i
      invariant forall j :: 0 <= j < i ==> results[j] == BatchEntry(products[j], amazonPrices, reply, formatRoi)
    {
      var product := products[i];
      var amazonPrice := AmazonPriceFor(product, amazonPrices);
      var analysis := AnalyzeProduct(product, amazonPrice, reply(product, amazonPrice), formatRoi);
      results := results + [analysis.(product := Some(product))];
    }
  }

  /** A batch entry carries its product, and without a listed Amazon price
      its ROI is the one of a sale at 1.5 times the retail price. */
  lemma BatchEntryDefaults(product: Product, amazonPrices: map<string, real>,
                           reply: (Product, real) -> Reply, formatRoi: real -> string)
    ensures BatchEntry(product, amazonPrices, reply, formatRoi).product == Some(product)
    ensures product.asin.GetOr("") !in amazonPrices ==>
      BatchEntry(product, amazonPrices, reply, formatRoi).roi == Roi(RetailPrice(product) * 1.5, RetailPrice(product))
  {
  }

  // ------------------------------------------------------------ expand_query

  /** `expand_query(query)`; `expanded` is the reply parsed as a JSON list,
      `None` when there is no answer or it is not a list. */
  function ExpandQuery(query: string, expanded: Option<seq<string>>): (r: seq<string>)
    ensures |r| >= 1 && r[0] == query
    ensures r[1..] == if expanded.Some? then expanded.value else []
  {
    if expanded.Some? then [query] + expanded.value else [query]
  }

  // ------------------------------------------------------ fuzzy_search_products

  /** A product with its similarity to the query. */
  datatype Scored = Scored(product: Product, similarity: real)

  /** The similarity of a product to a query: 0.95 when the lower-cased
      title contains the lower-cased query, else the better of the title's
      and the retailer's `ratio`. */
  function Similarity(product: Product, query: string, ratio: (string, string) -> real): (s: real)
    ensures Contains(Lower(product.title.GetOr("")), Lower(query)) ==> s == 0.95
    ensures !Contains(Lower(product.title.GetOr("")), Lower(query)) ==>
      s >= ratio(Lower(query), Lower(product.title.GetOr("")))
      && s >= ratio(Lower(query), Lower(product.retailer.GetOr("")))
      && (s == ratio(Lower(query), Lower(product.title.GetOr("")))
          || s == ratio(Lower(query), Lower(product.retailer.GetOr(""))))
  {
    var queryLower := Lower(query);
    var titleLower := Lower(product.title.GetOr(""));
    var titleSimilarity := ratio(queryLower, titleLower);
    var retailerSimilarity := ratio(queryLower, Lower(product.retailer.GetOr("")));
    if Contains(titleLower, queryLower) then 0.95
    else if titleSimilarity >= retailerSimilarity then titleSimilarity else retailerSimilarity
  }

  /** The matches the loop of `fuzzy_search_products` collects, in input
      order. */
  function Matches(products: seq<Product>, query: string, threshold: real, ratio: (string, string) -> real): (r: seq<Scored>)
    ensures forall i :: 0 <= i < |r| ==>
      r[i].product in products && r[i].similarity == Similarity(r[i].product, query, ratio)
      && r[i].similarity >= threshold
    decreases |products|
  {
    if products == [] then []
    else
      var init := products[..|products| - 1];
      var last := products[|products| - 1];
      var similarity := Similarity(last, query, ratio);
      Matches(init, query, threshold, ratio) + (if similarity >= threshold then [Scored(last, similarity)] else [])
  }

  /** Every product at or above the threshold is matched. */
  lemma {:induction false} MatchesComplete(products: seq<Product>, query: string, threshold: real,
                                           ratio: (string, string) -> real, i: int)
    requires 0 <= i < |products| && Similarity(products[i], query, ratio) >= threshold
    ensures Scored(products[i], Similarity(products[i], query, ratio)) in Matches(products, query, threshold, ratio)
    decreases |products|
  {
    var init := products[..|products| - 1];
    if i < |products| - 1 {
      assert init[i] == products[i];
      MatchesComplete(init, query, threshold, ratio, i);
    }
  }

  predicate SortedDesc(s: seq<Scored>)
  {
    forall i, j :: 0 <= i < j < |s| ==> s[i].similarity >= s[j].similarity
  }

  /** Inserts `x` after every element at least as similar: the step of a
      stable sort in descending order. */
  function InsertDesc(s: seq<Scored>, x: Scored): (r: seq<Scored>)
    ensures multiset(r) == multiset(s) + multiset{x}
    decreases |s|
  {
    if s == [] then [x]
    else if s[0].similarity >= x.similarity then
      assert s == [s[0]] + s[1..];
      [s[0]] + InsertDesc(s[1..], x)
    else [x] + s
  }

  /** `matches.sort(key=similarity, reverse=True)`: Python's sort is stable,
      also in reverse, so equally similar matches keep their order. */
  function SortDesc(s: seq<Scored>): (r: seq<Scored>)
    ensures multiset(r) == multiset(s)
    decreases |s|
  {
    if s == [] then []
    else
      assert s == s[..|s| - 1] + [s[|s| - 1]];
      InsertDesc(SortDesc(s[..|s| - 1]), s[|s| - 1])
  }

  lemma {:induction false} InsertDescSorted(s: seq<Scored>, x: Scored)
    requires SortedDesc(s)
    ensures SortedDesc(InsertDesc(s, x))
    decreases |s|
  {
    if s != [] && s[0].similarity >= x.similarity {
      InsertDescSorted(s[1..], x);
      var rest := InsertDesc(s[1..], x);
      forall k | 0 <= k < |rest| ensures s[0].similarity >= rest[k].similarity {
        assert rest[k] in multiset(rest);
        assert rest[k] in multiset(s[1..]) + multiset{x};
      }
    }
  }

  /** The sort orders by descending similarity. */
  lemma {:induction false} SortDescSorted(s: seq<Scored>)
    ensures SortedDesc(SortDesc(s))
    decreases |s|
  {
    if s != [] {
      SortDescSorted(s[..|s| - 1]);
      InsertDescSorted(SortDesc(s[..|s| - 1]), s[|s| - 1]);
    }
  }

  /** The elements of `s` with similarity `v`, in order. */
  function Tied(s: seq<Scored>, v: real): seq<Scored>
    decreases |s|
  {
    if s == [] then [] else (if s[0].similarity == v then [s[0]] else []) + Tied(s[1..], v)
  }

  lemma {:induction false} TiedConcat(a: seq<Scored>, b: seq<Scored>, v: real)
    ensures Tied(a + b, v) == Tied(a, v) + Tied(b, v)
    decreases |a|
  {
    if a != [] {
      assert (a + b)[0] == a[0];
      assert (a + b)[1..] == a[1..] + b;
      TiedConcat(a[1..], b, v);
      var head := if a[0].similarity == v then [a[0]] else [];
      assert Tied(a + b, v) == head + Tied(a[1..] + b, v);
      assert Tied(a, v) == head + Tied(a[1..], v);
      assert head + (Tied(a[1..], v) + Tied(b, v)) == (head + Tied(a[1..], v)) + Tied(b, v);
    } else {
      assert a + b == b;
    }
  }

  lemma {:induction false} TiedNone(s: seq<Scored>, v: real)
    requires forall i :: 0 <= i < |s| ==> s[i].similarity < v
    ensures Tied(s, v) == []
    decreases |s|
  {
    if s != [] {
      TiedNone(s[1..], v);
    }
  }

  lemma {:induction false} InsertDescTied(s: seq<Scored>, x: Scored, v: real)
    requires SortedDesc(s)
    ensures Tied(InsertDesc(s, x), v) == Tied(s, v) + (if x.similarity == v then [x] else [])
    decreases |s|, 1
  {
    if s == [] {
      TiedCons(x, [], v);
    } else if s[0].similarity >= x.similarity {
      InsertDescTiedAfter(s, x, v);
    } else {
      InsertDescTiedBefore(s, x, v);
    }
  }

  /** `x` goes after the head of `s`. */
  lemma {:induction false} InsertDescTiedAfter(s: seq<Scored>, x: Scored, v: real)
    requires SortedDesc(s) && s != [] && s[0].similarity >= x.similarity
    ensures Tied(InsertDesc(s, x), v) == Tied(s, v) + (if x.similarity == v then [x] else [])
    decreases |s|, 0
  {
    var last := if x.similarity == v then [x] else [];
    var rest := InsertDesc(s[1..], x);
    assert InsertDesc(s, x) == [s[0]] + rest;
    assert SortedDesc(s[1..]) by {
      forall i, j | 0 <= i < j < |s[1..]| ensures s[1..][i].similarity >= s[1..][j].similarity {
        assert s[1..][i] == s[i + 1] && s[1..][j] == s[j + 1];
      }
    }
    InsertDescTied(s[1..], x, v);
    TiedCons(s[0], rest, v);
    TiedCons(s[0], s[1..], v);
    assert [s[0]] + s[1..] == s;
    var head := if s[0].similarity == v then [s[0]] else [];
    ConcatAssoc(head, Tied(s[1..], v), last);
  }

  /** `x` goes before every element of `s`. */
  lemma InsertDescTiedBefore(s: seq<Scored>, x: Scored, v: real)
    requires SortedDesc(s) && s != [] && s[0].similarity < x.similarity
    ensures Tied(InsertDesc(s, x), v) == Tied(s, v) + (if x.similarity == v then [x] else [])
  {
    assert InsertDesc(s, x) == [x] + s;
    TiedCons(x, s, v);
    if x.similarity == v {
      assert forall i :: 0 <= i < |s| ==> s[i].similarity < v by {
        forall i | 0 <= i < |s| ensures s[i].similarity < v {
          assert s[i].similarity <= s[0].similarity;
        }
      }
      TiedNone(s, v);
    }
  }

  lemma TiedCons(e: Scored, t: seq<Scored>, v: real)
    ensures Tied([e] + t, v) == (if e.similarity == v then [e] else []) + Tied(t, v)
  {
    assert ([e] + t)[0] == e && ([e] + t)[1..] == t;
  }

  /** Stability: the matches of any one similarity come out in input order. */
  lemma {:induction false} SortDescStable(s: seq<Scored>, v: real)
    ensures Tied(SortDesc(s), v) == Tied(s, v)
    decreases |s|
  {
    if s != [] {
      var init := s[..|s| - 1];
      var last := s[|s| - 1];
      assert s == init + [last];
      var sorted := SortDesc(init);
      assert SortDesc(s) == InsertDesc(sorted, last);
      SortDescStable(init, v);
      SortDescSorted(init);
      InsertDescTied(sorted, last, v);
      TiedConcat(init, [last], v);
      assert Tied([last], v) == (if last.similarity == v then [last] else []) + Tied([], v);
    }
  }

  function ProductOf(m: Scored): Product
  {
    m.product
  }

  /** What `fuzzy_search_products(products, query, threshold)` returns. */
  function FuzzyResults(products: seq<Product>, query: string, threshold: real, ratio: (string, string) -> real): seq<Product>
  {
    Map(SortDesc(Matches(products, query, threshold, ratio)), ProductOf)
  }

  /** The results are the products at or above the threshold, every one of
      them, most similar first. */
  lemma FuzzyResultsProperties(products: seq<Product>, query: string, threshold: real, ratio: (string, string) -> real)
    ensures var r := FuzzyResults(products, query, threshold, ratio);
      && (forall i :: 0 <= i < |r| ==> r[i] in products && Similarity(r[i], query, ratio) >= threshold)
      && (forall i, j :: 0 <= i < j < |r| ==> Similarity(r[i], query, ratio) >= Similarity(r[j], query, ratio))
      && (forall p :: p in products && Similarity(p, query, ratio) >= threshold ==> p in r)
  {
    FuzzyResultsSound(products, query, threshold, ratio);
    FuzzyResultsComplete(products, query, threshold, ratio);
  }

  lemma FuzzyResultsSound(products: seq<Product>, query: string, threshold: real, ratio: (string, string) -> real)
    ensures var r := FuzzyResults(products, query, threshold, ratio);
      && (forall i :: 0 <= i < |r| ==> r[i] in products && Similarity(r[i], query, ratio) >= threshold)
      && (forall i, j :: 0 <= i < j < |r| ==> Similarity(r[i], query, ratio) >= Similarity(r[j], query, ratio))
  {
    var ms := Matches(products, query, threshold, ratio);
    var sorted := SortDesc(ms);
    var r := FuzzyResults(products, query, threshold, ratio);
    SortDescSorted(ms);
    forall i | 0 <= i < |r| ensures r[i] in products && Similarity(r[i], query, ratio) >= threshold {
      assert sorted[i] in multiset(ms);
    }
    forall i, j | 0 <= i < j < |r| ensures Similarity(r[i], query, ratio) >= Similarity(r[j], query, ratio) {
      assert sorted[i] in multiset(ms) && sorted[j] in multiset(ms);
    }
  }

  lemma FuzzyResultsComplete(products: seq<Product>, query: string, threshold: real, ratio: (string, string) -> real)
    ensures forall p :: p in products && Similarity(p, query, ratio) >= threshold ==>
      p in FuzzyResults(products, query, threshold, ratio)
  {
    var ms := Matches(products, query, threshold, ratio);
    var sorted := SortDesc(ms);
    var r := FuzzyResults(products, query, threshold, ratio);
    forall p | p in products && Similarity(p, query, ratio) >= threshold ensures p in r {
      var i :| 0 <= i < |products| && products[i] == p;
      MatchesComplete(products, query, threshold, ratio, i);
      var m := Scored(p, Similarity(p, query, ratio));
      assert m in multiset(sorted);
      var k :| 0 <= k < |sorted| && sorted[k] == m;
      assert r[k] == p;
    }
  }

  /** A product whose title contains the query always passes a threshold of
      at most 0.95. */
  lemma SubstringHitFound(products: seq<Product>, query: string, threshold: real,
                          ratio: (string, string) -> real, p: Product)
    requires p in products && threshold <= 0.95
    requires Contains(Lower(p.title.GetOr("")), Lower(query))
    ensures p in FuzzyResults(products, query, threshold, ratio)
  {
    FuzzyResultsProperties(products, query, threshold, ratio);
  }

  /** `fuzzy_search_products`: the loop collecting matches, then the sort. */
  method FuzzySearchProducts(products: seq<Product>, query: string, threshold: real, ratio: (string, string) -> real)
    returns (results: seq<Product>)
    ensures results == FuzzyResults(products, query, threshold, ratio)
  {
    var matches: seq<Scored> := [];
    for i := 0 to |products|
      invariant matches == Matches(products[..i], query, threshold, ratio)
    {
      var product := products[i];
      var similarity := Similarity(product, query, ratio);
      assert products[..i + 1][..i] == products[..i];
      if similarity >= threshold {
        matches := matches + [Scored(product, similarity)];
      }
    }
    assert products[..|products|] == products;
    matches := SortDesc(matches);
    results := [];
    for i := 0 to |matches|
      invariant results == Map(matches[..i], ProductOf)
    {
      results := results + [matches[i].product];
    }
    assert matches[..|matches|] == matches;
  }

  // ------------------------------------------------------- intelligent_search

  /** `product.get('asin')`: the key of the de-duplication, `None` included. */
  function AsinOf(product: Product): Option<string>
  {
    product.asin
  }

  /** The results of every query, one list after another. */
  function ResultsFor(products: seq<Product>, queries: seq<string>, ratio: (string, string) -> real): seq<Product>
  {
    FlatMap(queries, SearchIn(products, ratio))
  }

  /** The fuzzy search `intelligent_search` runs for one query. */
  function SearchIn(products: seq<Product>, ratio: (string, string) -> real): string -> seq<Product>
  {
    (q: string) => FuzzyResults(products, q, 0.5, ratio)
  }

  /** What `intelligent_search(products, query, use_expansion)` returns. */
  function IntelligentResults(products: seq<Product>, query: string, useExpansion: bool,
                              expanded: Option<seq<string>>, ratio: (string, string) -> real): seq<Product>
  {
    var direct := FuzzyResults(products, query, 0.5, ratio);
    if |direct| > 0 || !useExpansion then direct
    else FirstPerKey(ResultsFor(products, ExpandQuery(query, expanded), ratio), AsinOf)
  }

  /** The loop of `intelligent_search` extending `all_results` with each
      expanded query's results. */
  method CollectResults(products: seq<Product>, queries: seq<string>, ratio: (string, string) -> real)
    returns (allResults: seq<Product>)
    ensures allResults == ResultsFor(products, queries, ratio)
  {
    allResults := [];
    for i := 0 to |queries|
      invariant allResults == ResultsFor(products, queries[..i], ratio)
    {
      var found := FuzzySearchProducts(products, queries[i], 0.5, ratio);
      ResultsForStep(products, queries, i, ratio);
      allResults := allResults + found;
    }
    assert queries[..|queries|] == queries;
  }

  lemma ResultsForStep(products: seq<Product>, queries: seq<string>, i: int, ratio: (string, string) -> real)
    requires 0 <= i < |queries|
    ensures ResultsFor(products, queries[..i + 1], ratio)
      == ResultsFor(products, queries[..i], ratio) + FuzzyResults(products, queries[i], 0.5, ratio)
  {
    assert queries[..i + 1] == queries[..i] + [queries[i]];
    FlatMapSnoc(queries[..i], queries[i], SearchIn(products, ratio));
  }

  /** The loop of `intelligent_search` keeping the first product per asin
      through the `seen` set. */
  method UniqueByAsin(allResults: seq<Product>) returns (uniqueResults: seq<Product>)
    ensures uniqueResults == FirstPerKey(allResults, AsinOf)
  {
    var seen: set<Option<string>> := {};
    uniqueResults := [];
    for i := 0 to |allResults|
      invariant uniqueResults == FirstPerKey(allResults[..i], AsinOf)
      invariant seen == KeySet(allResults[..i], AsinOf)
    {
      var product := allResults[i];
      assert allResults[..i + 1] == allResults[..i] + [product];
      FirstPerKeySnoc(allResults[..i], product, AsinOf);
      KeySetSnoc(allResults[..i], product, AsinOf);
      if product.asin !in seen {
        seen := seen + {product.asin};
        uniqueResults := uniqueResults + [product];
      }
    }
    assert allResults[..|allResults|] == allResults;
  }

  /** `intelligent_search`: the direct fuzzy search, then the expanded
      queries' results concatenated and de-duplicated by asin. */
  method IntelligentSearch(products: seq<Product>, query: string, useExpansion: bool,
                           expanded: Option<seq<string>>, ratio: (string, string) -> real)
    returns (results: seq<Product>)
    ensures results == IntelligentResults(products, query, useExpansion, expanded, ratio)
  {
    results := FuzzySearchProducts(products, query, 0.5, ratio);
    if |results| > 0 {
      return;
    }
    if useExpansion {
      var queries := ExpandQuery(query, expanded);
      var allResults := CollectResults(products, queries, ratio);
      results := UniqueByAsin(allResults);
    }
  }

  /** When the direct search finds nothing, the original query heading the
      expansion adds nothing either: only the expanded terms contribute. */
  lemma OriginalQueryAddsNothing(products: seq<Product>, query: string, expanded: Option<seq<string>>,
                                 ratio: (string, string) -> real)
    requires FuzzyResults(products, query, 0.5, ratio) == []
    ensures IntelligentResults(products, query, true, expanded, ratio)
      == FirstPerKey(ResultsFor(products, ExpandQuery(query, expanded)[1..], ratio), AsinOf)
  {
    var queries := ExpandQuery(query, expanded);
    var search := SearchIn(products, ratio);
    FlatMapConcat([query], queries[1..], search);
    assert [query] + queries[1..] == queries;
    assert [query][..0] == [];
    assert FlatMap([query], search) == FlatMap([], search) + search(query);
    assert search(query) == [];
    assert ResultsFor(products, queries, ratio) == FlatMap(queries[1..], search);
  }

  /** The expanded results come from the catalogue, at most one per asin. */
  lemma ExpandedResultsDistinct(products: seq<Product>, query: string, expanded: Option<seq<string>>,
                                ratio: (string, string) -> real)
    ensures var r := IntelligentResults(products, query, true, expanded, ratio);
      (forall i :: 0 <= i < |r| ==> r[i] in products)
      && (FuzzyResults(products, query, 0.5, ratio) == [] ==> DistinctKeys(r, AsinOf))
  {
    var queries := ExpandQuery(query, expanded);
    var r := IntelligentResults(products, query, true, expanded, ratio);
    FuzzyResultsProperties(products, query, 0.5, ratio);
    if FuzzyResults(products, query, 0.5, ratio) == [] {
      var all := ResultsFor(products, queries, ratio);
      FirstPerKeyProperties(all, AsinOf);
      ResultsFromCatalogue(products, queries, ratio);
    }
  }

  lemma {:induction false} ResultsFromCatalogue(products: seq<Product>, queries: seq<string>, ratio: (string, string) -> real)
    ensures forall p :: p in ResultsFor(products, queries, ratio) ==> p in products
    decreases |queries|
  {
    if queries != [] {
      var search := SearchIn(products, ratio);
      var init := queries[..|queries| - 1];
      var last := queries[|queries| - 1];
      ResultsFromCatalogue(products, init, ratio);
      FuzzyResultsProperties(products, last, 0.5, ratio);
      assert queries == init + [last];
      FlatMapSnoc(init, last, search);
    }
  }
}
