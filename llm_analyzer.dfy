/** The recommendation rules of `llm-analyzer.js`: the rule-based decision
    tree with its explanatory texts, the parser that reads a recommendation
    back out of a text, and the choice between the optional language model
    and the rules.  The model's reply is a parameter. */
module LlmAnalyzer {
  import opened Wrappers
  import opened Strings
  import opened JsValues
  import opened AmazonAnalyzer

  datatype Recommendation = Buy | Review | Avoid {

    function Word(): (w: string)
      ensures |w| >= 3 && forall i :: 0 <= i < |w| ==> 'A' <= w[i] <= 'Z'
    {
      match this
      case Buy => "BUY"
      case Review => "REVIEW"
      case Avoid => "AVOID"
    }

    /** The line of an analysis text that states the recommendation. */
    function Line(): string
    {
      "Recommendation: " + Word()
    }

    /** What `parseResponse` looks for: the line, upper-cased. */
    function Phrase(): string
    {
      "RECOMMENDATION: " + Word()
    }
  }

  /** What both `getRuleBasedAnalysis` and `parseResponse` return, without
      the timestamp. */
  datatype Analysis = Analysis(analysis: string, recommendation: Recommendation)

  // ------------------------------------------------------------ parseResponse

  /** `parseResponse(text)`: the first of BUY, AVOID and REVIEW whose phrase
      occurs in the upper-cased text, REVIEW when none does. */
  function ParseResponse(text: string): (r: Analysis)
    ensures r.analysis == text
    ensures r.recommendation == Buy <==> Contains(Upper(text), Buy.Phrase())
    ensures r.recommendation == Avoid <==>
      !Contains(Upper(text), Buy.Phrase()) && Contains(Upper(text), Avoid.Phrase())
    ensures r.recommendation == Review <==>
      !Contains(Upper(text), Buy.Phrase()) && !Contains(Upper(text), Avoid.Phrase())
  {
    var upper := Upper(text);
    var recommendation :=
      if Contains(upper, Buy.Phrase()) then Buy
      else if Contains(upper, Avoid.Phrase()) then Avoid
      else if Contains(upper, Review.Phrase()) then Review
      else Review;
    Analysis(text, recommendation)
  }

  /** Parsing ignores the case of ASCII letters. */
  lemma ParseIgnoresCase(text: string)
    ensures ParseResponse(Lower(text)).recommendation == ParseResponse(text).recommendation
    ensures ParseResponse(Upper(text)).recommendation == ParseResponse(text).recommendation
  {
    assert Upper(Lower(text)) == Upper(text) by {
      forall i | 0 <= i < |text| ensures UpperChar(LowerChar(text[i])) == UpperChar(text[i]) { }
    }
    assert Upper(Upper(text)) == Upper(text);
  }

  // ------------------------------------------------------ getRuleBasedAnalysis

  /** The shape shared by every rule-based analysis text: a sentence, the
      recommendation line, and a remark headed `Key <label>:`. */
  function Explanation(sentence: string, rec: Recommendation, heading: string, remark: string): string
  {
    sentence + " " + rec.Line() + "\n\nKey " + heading + ": " + remark
  }

  predicate ColonFree(s: string)
  {
    forall i :: 0 <= i < |s| ==> s[i] != ':'
  }

  lemma ColonFreeConcat(a: string, b: string)
    requires ColonFree(a) && ColonFree(b)
    ensures ColonFree(a + b)
  {
  }

  /** What `String(x)` writes for a number has no colon. */
  lemma NumberColonFree(x: real)
    ensures ColonFree(NumberText(x))
  {
  }

  /** The only colons of an analysis text are the one of the recommendation
      line and the one after the remark's label. */
  lemma ExplanationColons(sentence: string, rec: Recommendation, heading: string, remark: string)
    requires ColonFree(sentence) && ColonFree(heading) && ColonFree(remark) && |remark| > 0
    ensures var t := Explanation(sentence, rec, heading, remark);
      var second := |sentence| + 23 + |rec.Word()| + |heading|;
      && |t| == second + 2 + |remark|
      && (forall j :: 0 <= j < |t| && t[j] == ':' ==> j == |sentence| + 15 || j == second)
      && t[|sentence| + 17] == rec.Word()[0]
      && t[second + 2] == remark[0]
  {
    var w := rec.Word();
    var front := sentence + " " + rec.Line() + "\n\nKey ";
    assert front == sentence + (" Recommendation: " + w + "\n\nKey ");
    var t := front + heading + ": " + remark;
    assert t == Explanation(sentence, rec, heading, remark);
    var middle := " Recommendation: " + w + "\n\nKey ";
    assert forall j :: 0 <= j < |middle| && middle[j] == ':' ==> j == 15;
    forall j | 0 <= j < |t| && t[j] == ':'
      ensures j == |sentence| + 15 || j == |sentence| + 23 + |w| + |heading|
    {
      if j < |sentence| {
      } else if j < |front| {
        assert t[j] == middle[j - |sentence|];
      } else if j < |front| + |heading| {
      } else if j >= |front| + |heading| + 2 {
      } else {
        assert t[j] == ": "[j - |front| - |heading|];
      }
    }
    assert t[|sentence| + 17] == middle[17];
    assert t[|front| + |heading| + 2] == remark[0];
  }

  /** An occurrence of a phrase rests on a colon two characters before the
      first letter of the recommendation word. */
  lemma PhraseNeedsColon(t: string, x: Recommendation, i: int)
    requires OccursAt(Upper(t), x.Phrase(), i)
    ensures t[i + 14] == ':' && UpperChar(t[i + 16]) == x.Word()[0]
  {
    OccurrenceChar(Upper(t), x.Phrase(), i, i + 14);
    OccurrenceChar(Upper(t), x.Phrase(), i, i + 16);
    assert x.Phrase()[14] == ':' && x.Phrase()[16] == x.Word()[0];
  }

  /** The phrase of any other recommendation than BUY or AVOID does not
      occur in an analysis text whose remark does not start with B or A. */
  lemma OtherPhraseAbsent(sentence: string, rec: Recommendation, heading: string, remark: string, x: Recommendation)
    requires ColonFree(sentence) && ColonFree(heading) && ColonFree(remark) && |remark| > 0
    requires UpperChar(remark[0]) != 'B' && UpperChar(remark[0]) != 'A'
    requires x != rec && x != Review
    ensures !Contains(Upper(Explanation(sentence, rec, heading, remark)), x.Phrase())
  {
    var t := Explanation(sentence, rec, heading, remark);
    ExplanationColons(sentence, rec, heading, remark);
    forall i | 0 <= i <= |Upper(t)| - |x.Phrase()|
      ensures !OccursAt(Upper(t), x.Phrase(), i)
    {
      if OccursAt(Upper(t), x.Phrase(), i) {
        PhraseNeedsColon(t, x, i);
      }
    }
  }

  /** The recommendation line of an analysis text, upper-cased, is its
      phrase. */
  lemma OwnPhrasePresent(sentence: string, rec: Recommendation, heading: string, remark: string)
    ensures Contains(Upper(Explanation(sentence, rec, heading, remark)), rec.Phrase())
  {
    var before := sentence + " ";
    var after := "\n\nKey " + heading + ": " + remark;
    assert Explanation(sentence, rec, heading, remark) == before + rec.Line() + after;
    UpperConcat(before + rec.Line(), after);
    UpperConcat(before, rec.Line());
    assert Upper(rec.Line()) == rec.Phrase();
    assert OccursAt(Upper(rec.Line()), rec.Phrase(), 0);
    ContainsInside(Upper(before), Upper(rec.Line()), Upper(after), rec.Phrase());
  }

  /** An analysis text whose remark does not start with B or A parses back
      to the recommendation it states. */
  lemma ExplanationParses(sentence: string, rec: Recommendation, heading: string, remark: string)
    requires ColonFree(sentence) && ColonFree(heading) && ColonFree(remark) && |remark| > 0
    requires UpperChar(remark[0]) != 'B' && UpperChar(remark[0]) != 'A'
    ensures ParseResponse(Explanation(sentence, rec, heading, remark)).recommendation == rec
  {
    OwnPhrasePresent(sentence, rec, heading, remark);
    if rec != Buy {
      OtherPhraseAbsent(sentence, rec, heading, remark, Buy);
    }
    if rec != Avoid {
      OtherPhraseAbsent(sentence, rec, heading, remark, Avoid);
    }
  }

  // The texts below are written as concatenations of short literals: the
  // proofs that a sentence holds no colon and does not name the other
  // recommendations read them character by character, which stays cheap
  // only for literals of about thirty characters or fewer.
  const ComplaintsOpening := "This product has IP " + "complaints, which poses " + "significant legal risk. The "
  const ComplaintsClosing := "% ROI is not worth the " + "potential account " + "suspension."
  const ComplaintsRemark := "IP complaints could result " + "in Amazon account " + "suspension and inventory " + "seizure."
  const MarginOpening := "Low profit margin of "
  const MarginClosing := "% ROI makes this product " + "financially unviable."
  const MarginRemark := "Insufficient profit margin " + "may lead to losses."
  const UnknownsOpening := "Limited Amazon data " + "available for this product. " + "Estimated ROI is "
  const UnknownsClosing := "%."
  const UnknownsRemark := "Validate listing quality, " + "sales velocity, and IP " + "status before purchasing."
  const StrongOpening := "Strong opportunity with "
  const StrongClosing := "% ROI and healthy Amazon " + "listing signals."
  const StrongRemark := "High ROI with solid " + "ratings/reviews and stable " + "demand."
  const LowSalesOpening := "Moderate ROI of "
  const LowSalesMiddle := "% but low monthly sales ("
  const LowSalesClosing := ")."
  const LowSalesRemark := "Sales velocity may not " + "justify inventory risk."
  const DecentOpening := "Decent "
  const DecentClosing := "% ROI with limited signals."
  const DecentRemark := "Verify buy box stability " + "and listing health before " + "buying."

  /** `hasUnknowns`: the sales or the complaint status are unknown, or there
      is no Buy Box price. */
  predicate HasUnknowns(analytics: Analytics)
  {
    analytics.salesData.monthlySales.None?
    || analytics.complaints.hasComplaints == Null
    || analytics.logistics.buyBoxPrice.None?
    || analytics.logistics.buyBoxPrice == Some(0.0)
  }

  /** `getRuleBasedAnalysis(product, analytics)`, for a product whose price
      is `price`: the first rule that fires decides. */
  function GetRuleBasedAnalysis(price: Option<real>, analytics: Analytics): (r: Analysis)
    ensures var roi := CalculateRoi(price, analytics.logistics.buyBoxPrice);
      var buyBox := analytics.logistics.buyBoxPrice;
      && (analytics.complaints.hasComplaints == Bool(true) ==> r.recommendation == Avoid)
      && (roi < 20.0 && buyBox.Some? && buyBox.value > 0.0 ==> r.recommendation == Avoid)
      && (r.recommendation == Avoid ==>
            analytics.complaints.hasComplaints == Bool(true) || (roi < 20.0 && buyBox.Some? && buyBox.value > 0.0))
      && (HasUnknowns(analytics) && r.recommendation != Avoid ==> r.recommendation == Review)
      && (r.recommendation == Buy <==>
            analytics.complaints.hasComplaints != Bool(true)
            && !HasUnknowns(analytics)
            && roi >= 30.0
            && (analytics.logistics.rating.None? || analytics.logistics.rating.value >= 4.2)
            && (analytics.logistics.reviews.None? || analytics.logistics.reviews.value >= 50.0))
  {
    var roi := CalculateRoi(price, analytics.logistics.buyBoxPrice);
    var roiText := NumberText(roi);
    var sales := analytics.salesData.monthlySales;
    var rating := analytics.logistics.rating;
    var reviews := analytics.logistics.reviews;
    var buyBox := analytics.logistics.buyBoxPrice;
    if analytics.complaints.hasComplaints == Bool(true) then
      Analysis(Explanation(ComplaintsOpening + roiText + ComplaintsClosing, Avoid, "Risk", ComplaintsRemark), Avoid)
    else if roi < 20.0 && buyBox.Some? && buyBox.value > 0.0 then
      Analysis(Explanation(MarginOpening + roiText + MarginClosing, Avoid, "Risk", MarginRemark), Avoid)
    else if HasUnknowns(analytics) then
      Analysis(Explanation(UnknownsOpening + roiText + UnknownsClosing, Review, "Consideration", UnknownsRemark), Review)
    else if roi >= 30.0 && (rating.None? || rating.value >= 4.2) && (reviews.None? || reviews.value >= 50.0) then
      Analysis(Explanation(StrongOpening + roiText + StrongClosing, Buy, "Opportunity", StrongRemark), Buy)
    else if sales.Some? && sales.value < 150.0 then
      Analysis(Explanation(LowSalesOpening + roiText + LowSalesMiddle + NumberText(sales.value) + LowSalesClosing,
                           Review, "Consideration", LowSalesRemark), Review)
    else
      Analysis(Explanation(DecentOpening + roiText + DecentClosing, Review, "Consideration", DecentRemark), Review)
  }

  /** A sentence made of colon-free literal parts around a number has no
      colon. */
  lemma SentenceColonFree(opening: string, n: string, closing: string)
    requires ColonFree(opening) && ColonFree(n) && ColonFree(closing)
    ensures ColonFree(opening + n + closing)
  {
    ColonFreeConcat(opening, n);
    ColonFreeConcat(opening + n, closing);
  }

  lemma ComplaintsPartsColonFree()
    ensures ColonFree(ComplaintsOpening) && ColonFree(ComplaintsClosing) && ColonFree(ComplaintsRemark)
  {
    assert ColonFree("This product has IP ") && ColonFree("complaints, which poses ");
    assert ColonFree("significant legal risk. The ");
    assert ColonFree("% ROI is not worth the ") && ColonFree("potential account ") && ColonFree("suspension.");
    assert ColonFree("IP complaints could result ") && ColonFree("in Amazon account ");
    assert ColonFree("suspension and inventory ") && ColonFree("seizure.");
  }

  lemma ComplaintsTextParses(x: real)
    ensures var n := NumberText(x);
      ParseResponse(Explanation(ComplaintsOpening + n + ComplaintsClosing, Avoid, "Risk", ComplaintsRemark)).recommendation == Avoid
  {
    ComplaintsPartsColonFree();
    NumberColonFree(x);
    SentenceColonFree(ComplaintsOpening, NumberText(x), ComplaintsClosing);
    ExplanationParses(ComplaintsOpening + NumberText(x) + ComplaintsClosing, Avoid, "Risk", ComplaintsRemark);
  }

  lemma MarginTextParses(x: real)
    ensures var n := NumberText(x);
      ParseResponse(Explanation(MarginOpening + n + MarginClosing, Avoid, "Risk", MarginRemark)).recommendation == Avoid
  {
    assert ColonFree(MarginOpening) && ColonFree("% ROI makes this product ") && ColonFree("financially unviable.");
    assert ColonFree("Insufficient profit margin ") && ColonFree("may lead to losses.");
    NumberColonFree(x);
    SentenceColonFree(MarginOpening, NumberText(x), MarginClosing);
    ExplanationParses(MarginOpening + NumberText(x) + MarginClosing, Avoid, "Risk", MarginRemark);
  }

  lemma UnknownsTextParses(x: real)
    ensures var n := NumberText(x);
      ParseResponse(Explanation(UnknownsOpening + n + UnknownsClosing, Review, "Consideration", UnknownsRemark)).recommendation == Review
  {
    assert ColonFree("Limited Amazon data ") && ColonFree("available for this product. ") && ColonFree("Estimated ROI is ");
    assert ColonFree(UnknownsClosing) && ColonFree("Consideration");
    assert ColonFree("Validate listing quality, ") && ColonFree("sales velocity, and IP ") && ColonFree("status before purchasing.");
    NumberColonFree(x);
    SentenceColonFree(UnknownsOpening, NumberText(x), UnknownsClosing);
    ExplanationParses(UnknownsOpening + NumberText(x) + UnknownsClosing, Review, "Consideration", UnknownsRemark);
  }

  lemma StrongTextParses(x: real)
    ensures var n := NumberText(x);
      ParseResponse(Explanation(StrongOpening + n + StrongClosing, Buy, "Opportunity", StrongRemark)).recommendation == Buy
  {
    assert ColonFree(StrongOpening) && ColonFree("% ROI and healthy Amazon ") && ColonFree("listing signals.");
    assert ColonFree("Opportunity");
    assert ColonFree("High ROI with solid ") && ColonFree("ratings/reviews and stable ") && ColonFree("demand.");
    NumberColonFree(x);
    SentenceColonFree(StrongOpening, NumberText(x), StrongClosing);
    ExplanationParses(StrongOpening + NumberText(x) + StrongClosing, Buy, "Opportunity", StrongRemark);
  }

  lemma LowSalesTextParses(x: real, sales: real)
    ensures var n := NumberText(x);
      ParseResponse(Explanation(LowSalesOpening + n + LowSalesMiddle + NumberText(sales) + LowSalesClosing,
                                Review, "Consideration", LowSalesRemark)).recommendation == Review
  {
    assert ColonFree(LowSalesOpening) && ColonFree(LowSalesMiddle) && ColonFree(LowSalesClosing);
    assert ColonFree("Consideration") && ColonFree("Sales velocity may not ") && ColonFree("justify inventory risk.");
    NumberColonFree(x);
    NumberColonFree(sales);
    SentenceColonFree(LowSalesOpening, NumberText(x), LowSalesMiddle);
    SentenceColonFree(LowSalesOpening + NumberText(x) + LowSalesMiddle, NumberText(sales), LowSalesClosing);
    ExplanationParses(LowSalesOpening + NumberText(x) + LowSalesMiddle + NumberText(sales) + LowSalesClosing,
                      Review, "Consideration", LowSalesRemark);
  }

  lemma DecentTextParses(x: real)
    ensures var n := NumberText(x);
      ParseResponse(Explanation(DecentOpening + n + DecentClosing, Review, "Consideration", DecentRemark)).recommendation == Review
  {
    assert ColonFree(DecentOpening) && ColonFree(DecentClosing) && ColonFree("Consideration");
    assert ColonFree("Verify buy box stability ") && ColonFree("and listing health before ") && ColonFree("buying.");
    NumberColonFree(x);
    SentenceColonFree(DecentOpening, NumberText(x), DecentClosing);
    ExplanationParses(DecentOpening + NumberText(x) + DecentClosing, Review, "Consideration", DecentRemark);
  }

  /** Reading the rule-based analysis text back gives the recommendation it
      was written with. */
  lemma RuleBasedRoundTrip(price: Option<real>, analytics: Analytics)
    ensures ParseResponse(GetRuleBasedAnalysis(price, analytics).analysis).recommendation
      == GetRuleBasedAnalysis(price, analytics).recommendation
  {
    var roi := CalculateRoi(price, analytics.logistics.buyBoxPrice);
    var sales := analytics.salesData.monthlySales;
    var rating := analytics.logistics.rating;
    var reviews := analytics.logistics.reviews;
    var buyBox := analytics.logistics.buyBoxPrice;
    if analytics.complaints.hasComplaints == Bool(true) {
      ComplaintsTextParses(roi);
    } else if roi < 20.0 && buyBox.Some? && buyBox.value > 0.0 {
      MarginTextParses(roi);
    } else if HasUnknowns(analytics) {
      UnknownsTextParses(roi);
    } else if roi >= 30.0 && (rating.None? || rating.value >= 4.2) && (reviews.None? || reviews.value >= 50.0) {
      StrongTextParses(roi);
    } else if sales.Some? && sales.value < 150.0 {
      LowSalesTextParses(roi, sales.value);
    } else {
      DecentTextParses(roi);
    }
  }

  // ---------------------------------------------- analyzeProductSuitability

  /** `analyzeProductSuitability(product, analytics)`: without an API key the
      rules decide; with one, the model's reply is parsed, and a failed call
      (`reply` is `None`) falls back to the rules. */
  function AnalyzeProductSuitability(apiKey: JsValue, price: Option<real>, analytics: Analytics, reply: Option<string>): (r: Analysis)
    ensures !Truthy(apiKey) || reply.None? ==> r == GetRuleBasedAnalysis(price, analytics)
    ensures Truthy(apiKey) && reply.Some? ==> r.analysis == reply.value
  {
    if !Truthy(apiKey) then GetRuleBasedAnalysis(price, analytics)
    else match reply
      case Some(text) => ParseResponse(text)
      case None => GetRuleBasedAnalysis(price, analytics)
  }

  /** Whichever path is taken, the recommendation is the one its own text
      announces. */
  lemma SuitabilityMatchesText(apiKey: JsValue, price: Option<real>, analytics: Analytics, reply: Option<string>)
    ensures var r := AnalyzeProductSuitability(apiKey, price, analytics, reply);
      ParseResponse(r.analysis).recommendation == r.recommendation
  {
    if !Truthy(apiKey) || reply.None? {
      RuleBasedRoundTrip(price, analytics);
    }
  }
}
