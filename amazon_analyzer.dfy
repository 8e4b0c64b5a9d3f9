/** The listing analytics of `amazon-analyzer.js`: the neutral-50 score, the
    SOP (standard operating procedure) check, the 15%-fee ROI estimate, and
    how a product or a bare ASIN becomes a lookup request.  The lookup
    request itself is a parameter: the answer the server gives for a
    payload, or `None` when the request fails. */
module AmazonAnalyzer {
  import opened Wrappers
  import opened Seqs
  import opened JsValues
  import Amazon

  /** Listing data for one product.  A numeric field is `None` when it is
      null or not a number. */
  datatype Logistics = Logistics(asin: JsValue, buyBoxPrice: Option<real>, rating: Option<real>, reviews: Option<real>, url: JsValue)

  /** The sales estimate; only the monthly sales take part in the rules. */
  datatype SalesData = SalesData(monthlySales: Option<real>)

  /** The IP complaint record: `hasComplaints` is `true`, `false` or null,
      `count` a number or null. */
  datatype Complaints = Complaints(hasComplaints: JsValue, count: Option<real>)

  datatype Analytics = Analytics(logistics: Logistics, salesData: SalesData, complaints: Complaints)

  // ------------------------------------------------------------ calculateScore

  function SalesAdjustment(monthlySales: Option<real>): real
  {
    if monthlySales.None? then 0.0
    else if monthlySales.value < 100.0 then -25.0
    else if monthlySales.value < 200.0 then -15.0
    else if monthlySales.value < 300.0 then -5.0
    else 0.0
  }

  /** `complaints.count || 1`: a missing or zero count counts as one. */
  function CountOrOne(count: Option<real>): real
  {
    if count.Some? && count.value != 0.0 then count.value else 1.0
  }

  function ComplaintsAdjustment(c: Complaints): real
  {
    if c.hasComplaints == Bool(true) then -(CountOrOne(c.count) * 15.0) else 0.0
  }

  function RatingAdjustment(rating: Option<real>): real
  {
    if rating.None? then 0.0
    else if rating.value >= 4.5 then 5.0
    else if rating.value < 3.8 then -10.0
    else 0.0
  }

  function ReviewsAdjustment(reviews: Option<real>): real
  {
    if reviews.None? then 0.0
    else if reviews.value >= 500.0 then 5.0
    else if reviews.value < 20.0 then -5.0
    else 0.0
  }

  /** `Math.max(0, Math.min(100, x))`. */
  function Clamp(x: real): (r: real)
    ensures 0.0 <= r <= 100.0
    ensures 0.0 <= x <= 100.0 ==> r == x
  {
    if x > 100.0 then 100.0 else if x < 0.0 then 0.0 else x
  }

  /** The score: 50 plus the four adjustments, clamped to [0, 100]. */
  function Score(logistics: Logistics, salesData: SalesData, complaints: Complaints): (s: real)
    ensures 0.0 <= s <= 100.0
  {
    Clamp(50.0 + SalesAdjustment(salesData.monthlySales) + ComplaintsAdjustment(complaints)
          + RatingAdjustment(logistics.rating) + ReviewsAdjustment(logistics.reviews))
  }

  /** `calculateScore(logistics, salesData, complaints)`: `score` starts at
      the neutral 50 and each known signal moves it. */
  method CalculateScore(logistics: Logistics, salesData: SalesData, complaints: Complaints) returns (score: real)
    ensures score == Score(logistics, salesData, complaints)
  {
    score := 50.0;
    if salesData.monthlySales.Some? {
      if salesData.monthlySales.value < 100.0 {
        score := score - 25.0;
      } else if salesData.monthlySales.value < 200.0 {
        score := score - 15.0;
      } else if salesData.monthlySales.value < 300.0 {
        score := score - 5.0;
      }
    }
    assert score == 50.0 + SalesAdjustment(salesData.monthlySales);
    if complaints.hasComplaints == Bool(true) {
      score := score - CountOrOne(complaints.count) * 15.0;
    }
    ghost var afterComplaints := score;
    if logistics.rating.Some? {
      if logistics.rating.value >= 4.5 {
        score := score + 5.0;
      } else if logistics.rating.value < 3.8 {
        score := score - 10.0;
      }
    }
    assert score == afterComplaints + RatingAdjustment(logistics.rating);
    if logistics.reviews.Some? {
      if logistics.reviews.value >= 500.0 {
        score := score + 5.0;
      } else if logistics.reviews.value < 20.0 {
        score := score - 5.0;
      }
    }
    score := if 100.0 < score then 100.0 else score;
    score := if 0.0 > score then 0.0 else score;
  }

  /** With no known signal the score stays at the neutral 50. */
  lemma UnknownSignalsScoreFifty(logistics: Logistics, salesData: SalesData, complaints: Complaints)
    requires salesData.monthlySales.None? && logistics.rating.None? && logistics.reviews.None?
    requires complaints.hasComplaints != Bool(true)
    ensures Score(logistics, salesData, complaints) == 50.0
  {
  }

  /** Four or more IP complaints sink the score to 0 whatever else is known. */
  lemma ManyComplaintsScoreZero(logistics: Logistics, salesData: SalesData, complaints: Complaints)
    requires complaints.hasComplaints == Bool(true) && complaints.count.Some? && complaints.count.value >= 4.0
    ensures Score(logistics, salesData, complaints) == 0.0
  {
    assert ComplaintsAdjustment(complaints) <= -60.0;
    assert RatingAdjustment(logistics.rating) <= 5.0 && ReviewsAdjustment(logistics.reviews) <= 5.0;
  }

  lemma ClampMonotone(x: real, y: real)
    requires x <= y
    ensures Clamp(x) <= Clamp(y)
  {
  }

  /** A better rating never lowers the score. */
  lemma RatingMonotone(logistics: Logistics, salesData: SalesData, complaints: Complaints, better: real)
    requires logistics.rating.Some? && logistics.rating.value <= better
    ensures Score(logistics, salesData, complaints) <= Score(logistics.(rating := Some(better)), salesData, complaints)
  {
    assert RatingAdjustment(logistics.rating) <= RatingAdjustment(Some(better));
    var rest := 50.0 + SalesAdjustment(salesData.monthlySales) + ComplaintsAdjustment(complaints);
    ClampMonotone(rest + RatingAdjustment(logistics.rating) + ReviewsAdjustment(logistics.reviews),
                  rest + RatingAdjustment(Some(better)) + ReviewsAdjustment(logistics.reviews));
  }

  /** More monthly sales never lower the score. */
  lemma SalesMonotone(logistics: Logistics, salesData: SalesData, complaints: Complaints, more: real)
    requires salesData.monthlySales.Some? && salesData.monthlySales.value <= more
    ensures Score(logistics, salesData, complaints) <= Score(logistics, SalesData(Some(more)), complaints)
  {
    assert SalesAdjustment(salesData.monthlySales) <= SalesAdjustment(Some(more));
    var rest := ComplaintsAdjustment(complaints) + RatingAdjustment(logistics.rating) + ReviewsAdjustment(logistics.reviews);
    ClampMonotone(50.0 + SalesAdjustment(salesData.monthlySales) + rest, 50.0 + SalesAdjustment(Some(more)) + rest);
  }

  // -------------------------------------------------------------- calculateROI

  /** `calculateROI(product, analytics)` as the exact percentage before
      rounding: the profit after a 15% fee on the Buy Box price, over the
      product's price; 0 when the price is missing or not positive. */
  function RawRoi(price: Option<real>, buyBoxPrice: Option<real>): real
  {
    var buyPrice := price.GetOr(0.0);
    var sellPrice := buyBoxPrice.GetOr(0.0);
    if buyPrice <= 0.0 then 0.0
    else ((sellPrice - buyPrice - sellPrice * 0.15) / buyPrice) * 100.0
  }

  /** `calculateROI(product, analytics)`: the percentage rounded half up to
      one decimal with `Math.round(roi * 10) / 10`. */
  function CalculateRoi(price: Option<real>, buyBoxPrice: Option<real>): (roi: real)
    ensures price.GetOr(0.0) <= 0.0 ==> roi == 0.0
    ensures RawRoi(price, buyBoxPrice) - 0.05 < roi <= RawRoi(price, buyBoxPrice) + 0.05
    ensures (roi * 10.0).Floor as real == roi * 10.0
  {
    var buyPrice := price.GetOr(0.0);
    if buyPrice <= 0.0 then 0.0
    else
      var tenths := Amazon.Round(RawRoi(price, buyBoxPrice) * 10.0);
      tenths as real / 10.0
  }

  /** Selling at a Buy Box price whose 85% covers the purchase never shows a
      negative ROI. */
  lemma ProfitableRoiNonNegative(price: real, buyBoxPrice: real)
    requires 0.0 < price <= buyBoxPrice * 0.85
    ensures CalculateRoi(Some(price), Some(buyBoxPrice)) >= 0.0
  {
    var profit := buyBoxPrice - price - buyBoxPrice * 0.15;
    assert profit >= 0.0;
    assert profit / price >= 0.0;
  }

  /** Without a Buy Box price the whole purchase is lost: the ROI is -100%. */
  lemma NoBuyBoxTotalLoss(price: real, buyBoxPrice: Option<real>)
    requires 0.0 < price
    requires buyBoxPrice.None? || buyBoxPrice == Some(0.0)
    ensures CalculateRoi(Some(price), buyBoxPrice) == -100.0
  {
    assert RawRoi(Some(price), buyBoxPrice) == ((0.0 - price) / price) * 100.0;
    assert (0.0 - price) / price == -1.0;
    Amazon.RoundWhole(-1000);
  }

  // --------------------------------------------------------------- validateSOP

  /** The SOP thresholds; a missing threshold is 0. */
  datatype Sop = Sop(minPrice: Option<real>, minMonthlySales: Option<real>, minRoi: Option<real>)

  /** One entry of the `checks` record: `Some(b)` for a decided check,
      `None` for an unknown one (null). */
  datatype Check = Check(key: string, value: Option<bool>)

  datatype SopResult = SopResult(passed: bool, checks: seq<Check>, failedChecks: seq<string>, unknownChecks: seq<string>)

  predicate IsFailed(c: Check) { c.value == Some(false) }

  predicate IsUnknown(c: Check) { c.value.None? }

  function Key(c: Check): string { c.key }

  /** The number `>=` reads from a product price: a number as itself, null
      as 0 and a boolean as 0 or 1; undefined, a string, an array or an
      object is taken as NaN (`None`), which fails every comparison. */
  function ComparedPrice(price: JsValue): (r: Option<real>)
    ensures price.Num? ==> r == Some(price.n)
    ensures price.Null? ==> r == Some(0.0)
    ensures price.Undefined? ==> r.None?
  {
    match price
    case Num(n) => Some(n)
    case Null => Some(0.0)
    case Bool(b) => Some(if b then 1.0 else 0.0)
    case _ => None
  }

  /** The four checks in the order of the record's keys, for the product's
      `price` property.  A missing price (undefined) fails the price check
      while a null price is compared as 0; the sales check is unknown when
      the sales are not a number, the complaints check when `hasComplaints`
      is null. */
  function SopChecks(price: JsValue, analytics: Analytics, sop: Sop): (checks: seq<Check>)
    ensures |checks| == 4
    ensures checks[0].key == "minPrice" && checks[1].key == "minMonthlySales"
    ensures checks[2].key == "minROI" && checks[3].key == "noIPComplaints"
    ensures checks[0].value.Some? && checks[2].value.Some?
    ensures price.Num? ==> (checks[0].value == Some(true) <==> price.n >= sop.minPrice.GetOr(0.0))
    ensures price.Null? ==> (checks[0].value == Some(true) <==> sop.minPrice.GetOr(0.0) <= 0.0)
    ensures price.Undefined? ==> checks[0].value == Some(false)
    ensures checks[2].value == Some(CalculateRoi(NumberOrNull(price), analytics.logistics.buyBoxPrice) >= sop.minRoi.GetOr(0.0))
    ensures checks[1].value.None? <==> analytics.salesData.monthlySales.None?
    ensures checks[3].value.None? <==> analytics.complaints.hasComplaints == Null
    ensures checks[3].value == Some(false) <==> Truthy(analytics.complaints.hasComplaints)
    ensures DistinctKeys(checks, Key)
  {
    var sales := analytics.salesData.monthlySales;
    var complaints := analytics.complaints.hasComplaints;
    var compared := ComparedPrice(price);
    [ Check("minPrice", Some(compared.Some? && compared.value >= sop.minPrice.GetOr(0.0))),
      Check("minMonthlySales", if sales.Some? then Some(sales.value >= sop.minMonthlySales.GetOr(0.0)) else None),
      Check("minROI", Some(CalculateRoi(NumberOrNull(price), analytics.logistics.buyBoxPrice) >= sop.minRoi.GetOr(0.0))),
      Check("noIPComplaints", if complaints == Null then None else Some(!Truthy(complaints))) ]
  }

  /** The verdict on a record of checks with distinct keys: it passes when
      no check is false, and lists the false and the unknown checks by key,
      in record order. */
  function Summarize(checks: seq<Check>): (r: SopResult)
    requires DistinctKeys(checks, Key)
    ensures r.checks == checks
    ensures r.passed <==> forall i :: 0 <= i < |checks| ==> checks[i].value != Some(false)
    ensures r.passed <==> r.failedChecks == []
    ensures forall i :: 0 <= i < |checks| ==>
      (checks[i].key in r.failedChecks <==> IsFailed(checks[i]))
      && (checks[i].key in r.unknownChecks <==> IsUnknown(checks[i]))
    ensures forall k :: k in r.failedChecks ==> k !in r.unknownChecks
  {
    var failed := Map(Filter(checks, IsFailed), Key);
    var unknown := Map(Filter(checks, IsUnknown), Key);
    forall i | 0 <= i < |checks|
      ensures (checks[i].key in failed <==> IsFailed(checks[i])) && (checks[i].key in unknown <==> IsUnknown(checks[i]))
    {
      FilteredKeyIn(checks, IsFailed, Key, i);
      FilteredKeyIn(checks, IsUnknown, Key, i);
    }
    assert failed != [] ==> Filter(checks, IsFailed)[0] in checks;
    SopResult(forall c | c in checks :: c.value != Some(false), checks, failed, unknown)
  }

  /** `validateSOP(product, analytics, sop)`. */
  function ValidateSop(price: JsValue, analytics: Analytics, sop: Sop): (r: SopResult)
    ensures r.checks == SopChecks(price, analytics, sop)
    ensures r.passed <==> forall i :: 0 <= i < |r.checks| ==> r.checks[i].value != Some(false)
    ensures r.passed <==> r.failedChecks == []
    ensures forall k :: k in r.failedChecks ==> k !in r.unknownChecks
  {
    Summarize(SopChecks(price, analytics, sop))
  }

  /** Unknown checks never fail the SOP: a product whose price, ROI and
      decided checks meet the thresholds passes even when sales and
      complaints are unknown. */
  lemma UnknownNeverFails(price: real, analytics: Analytics, sop: Sop)
    requires price >= sop.minPrice.GetOr(0.0)
    requires CalculateRoi(Some(price), analytics.logistics.buyBoxPrice) >= sop.minRoi.GetOr(0.0)
    requires analytics.salesData.monthlySales.None? && analytics.complaints.hasComplaints == Null
    ensures ValidateSop(Num(price), analytics, sop).passed
    ensures "minMonthlySales" in ValidateSop(Num(price), analytics, sop).unknownChecks
    ensures "noIPComplaints" in ValidateSop(Num(price), analytics, sop).unknownChecks
  {
    var checks := SopChecks(Num(price), analytics, sop);
    assert checks[1].key == "minMonthlySales" && checks[3].key == "noIPComplaints";
  }

  /** A null price passes the price check against the default minimum of 0
      (`null >= 0`), whereas a missing price fails it. */
  lemma NullPricePassesDefaultMinimum(analytics: Analytics, sop: Sop)
    requires sop.minPrice.None?
    ensures "minPrice" !in ValidateSop(Null, analytics, sop).failedChecks
    ensures "minPrice" in ValidateSop(Undefined, analytics, sop).failedChecks
  {
    var nullChecks := SopChecks(Null, analytics, sop);
    var missingChecks := SopChecks(Undefined, analytics, sop);
    assert nullChecks[0].key == "minPrice" && nullChecks[0].value == Some(true);
    assert missingChecks[0].key == "minPrice" && missingChecks[0].value == Some(false);
  }

  // ------------------------------------------------------ getProductLogistics

  /** `{ asin: null, buyBoxPrice: null, rating: null, reviews: null, url: null }`. */
  const NoLogistics := Logistics(Null, None, None, None, Null)

  /** `typeof v === 'number' ? v : null`. */
  function NumberOrNull(v: JsValue): (r: Option<real>)
    ensures v.Num? <==> r.Some?
    ensures v.Num? ==> r.value == v.n
  {
    if v.Num? then Some(v.n) else None
  }

  /** The request body: the ASIN when the product has one, else the title
      (or '') as query, plus the price when it is a number. */
  function Payload(product: JsValue): (payload: JsValue)
    ensures Truthy(Get(product, "asin")) ==> Get(payload, "asin") == Get(product, "asin") && Get(payload, "query") == Undefined
    ensures !Truthy(Get(product, "asin")) ==> Get(payload, "asin") == Undefined && Get(payload, "query") == Or(Get(product, "title"), Str(""))
    ensures Get(payload, "price") == if Get(product, "price").Num? then Get(product, "price") else Undefined
  {
    var asin := Get(product, "asin");
    var base := if Truthy(asin) then Obj([Member("asin", asin)]) else Obj([Member("query", Or(Get(product, "title"), Str("")))]);
    assert "asin"[0] != "query"[0] && "asin"[0] != "price"[0] && "query"[0] != "price"[0];
    if Get(product, "price").Num? then Put(base, "price", Get(product, "price")) else base
  }

  /** What `getProductLogistics` does: whether it sends a request, with which
      payload, and the listing data it returns. */
  datatype LogisticsOutcome = LogisticsOutcome(request: Option<JsValue>, logistics: Logistics)

  /** `getProductLogistics(product)`, with `respond(payload)` the JSON the
      lookup endpoint answers, or `None` when the request fails. */
  function GetProductLogistics(product: JsValue, respond: JsValue -> Option<JsValue>): (r: LogisticsOutcome)
    ensures r.request.None? <==> !Truthy(Get(product, "asin")) && !Truthy(Get(product, "title"))
    ensures r.request.None? ==> r.logistics == NoLogistics
    ensures r.request.Some? ==> r.request.value == Payload(product)
    ensures r.request.Some? && respond(r.request.value).None? ==>
      r.logistics == NoLogistics.(asin := Or(Get(product, "asin"), Null))
    ensures r.request.Some? && respond(r.request.value).Some? ==>
      var data := respond(r.request.value).value;
      && r.logistics.asin == Or(Or(Get(data, "asin"), Get(r.request.value, "asin")), Null)
      && r.logistics.buyBoxPrice == NumberOrNull(Get(data, "price"))
      && r.logistics.rating == NumberOrNull(Get(data, "rating"))
      && r.logistics.reviews == NumberOrNull(Get(data, "reviews"))
      && r.logistics.url == Or(Get(data, "url"), Null)
  {
    var payload := Payload(product);
    if !Truthy(Get(payload, "asin")) && !Truthy(Get(payload, "query")) then
      LogisticsOutcome(None, NoLogistics)
    else
      match respond(payload)
      case None => LogisticsOutcome(Some(payload), NoLogistics.(asin := Or(Get(payload, "asin"), Null)))
      case Some(data) =>
        LogisticsOutcome(Some(payload), Logistics(
          Or(Or(Get(data, "asin"), Get(payload, "asin")), Null),
          NumberOrNull(Get(data, "price")),
          NumberOrNull(Get(data, "rating")),
          NumberOrNull(Get(data, "reviews")),
          Or(Get(data, "url"), Null)))
  }

  // ------------------------------------------------------------ analyzeProduct

  /** The product `analyzeProduct` works on: a string is taken as an ASIN,
      a missing product as `{}`. */
  function ProductOf(productOrAsin: JsValue): (product: JsValue)
    ensures productOrAsin.Str? ==> Get(product, "asin") == productOrAsin
    ensures IsObject(productOrAsin) ==> product == productOrAsin
    ensures !Truthy(productOrAsin) && !productOrAsin.Str? ==> product == Obj([])
  {
    if productOrAsin.Str? then Obj([Member("asin", productOrAsin)])
    else Or(productOrAsin, Obj([]))
  }

  /** `getDefaultSalesData()`: nothing is known. */
  const DefaultSalesData := SalesData(None)

  /** `getIPComplaints()`: nothing is known. */
  const UnknownComplaints := Complaints(Null, None)

  datatype ProductAnalysis = ProductAnalysis(asin: JsValue, logistics: Logistics, salesData: SalesData, complaints: Complaints, score: real)

  /** `analyzeProduct(productOrAsin)`. */
  method AnalyzeProduct(productOrAsin: JsValue, respond: JsValue -> Option<JsValue>) returns (r: ProductAnalysis)
    ensures var product := ProductOf(productOrAsin);
      && r.logistics == GetProductLogistics(product, respond).logistics
      && r.asin == Or(Or(r.logistics.asin, Get(product, "asin")), Null)
    ensures r.salesData == DefaultSalesData && r.complaints == UnknownComplaints
    ensures r.score == Score(r.logistics, r.salesData, r.complaints)
  {
    var product := ProductOf(productOrAsin);
    var logistics := GetProductLogistics(product, respond).logistics;
    var score := CalculateScore(logistics, DefaultSalesData, UnknownComplaints);
    r := ProductAnalysis(Or(Or(logistics.asin, Get(product, "asin")), Null), logistics, DefaultSalesData, UnknownComplaints, score);
  }

  /** With sales and complaints unknown, only the rating and the review count
      move the score: it stays within [35, 60]. */
  lemma AnalyzedScoreRange(logistics: Logistics)
    ensures 35.0 <= Score(logistics, DefaultSalesData, UnknownComplaints) <= 60.0
  {
  }

  /** A bare ASIN is looked up by that ASIN. */
  lemma AsinLooksUpAsin(asin: string, respond: JsValue -> Option<JsValue>)
    requires asin != ""
    ensures GetProductLogistics(ProductOf(Str(asin)), respond).request.Some?
    ensures Get(GetProductLogistics(ProductOf(Str(asin)), respond).request.value, "asin") == Str(asin)
  {
  }
}
