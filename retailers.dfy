/** The routing of `scrapers/retailers/index.js`: which retailer a URL
    belongs to, whether a request scrapes one product page or runs a search,
    and how an Amazon lookup picks its answer.  The awaited scraper calls are
    not executed here: a search's results and a product-page lookup are
    parameters, and the calls the routine would make are returned as a list. */
module Retailers {
  import opened Wrappers
  import opened Strings
  import opened JsValues
  import Parse
  import Match

  /** The three entries of `RETAILERS`. */
  datatype Retailer = Walmart | Target | Walgreens {

    /** The key under which the retailer is registered. */
    function Name(): string
    {
      match this
      case Walmart => "walmart"
      case Target => "target"
      case Walgreens => "walgreens"
    }

    /** The domain that identifies the retailer's URLs. */
    function Domain(): string
    {
      match this
      case Walmart => "walmart.com"
      case Target => "target.com"
      case Walgreens => "walgreens.com"
    }
  }

  /** `RETAILERS[name]`: the handler registered under `name`, if any. */
  function RetailerNamed(name: string): (r: Option<Retailer>)
    ensures r.Some? ==> r.value.Name() == name
    ensures r.None? ==> forall x: Retailer :: x.Name() != name
  {
    if name == "walmart" then Some(Walmart)
    else if name == "target" then Some(Target)
    else if name == "walgreens" then Some(Walgreens)
    else None
  }

  /** Looking a registered retailer up by its own name finds it. */
  lemma RetailerNamedRoundTrip(x: Retailer)
    ensures RetailerNamed(x.Name()) == Some(x)
  {
    match x
    case Walmart =>
    case Target =>
    case Walgreens =>
  }

  /** `isUrl(input)`: `/^https?:\/\//i` matched against `input || ''`;
      `None` stands for null and undefined. */
  predicate IsUrl(input: Option<string>)
  {
    var text := if input.Some? then input.value else "";
    StartsWith(Lower(text), "http://") || StartsWith(Lower(text), "https://")
  }

  /** A URL needs at least the seven characters of `http://`; null is never
      a URL. */
  lemma IsUrlNeedsScheme(input: Option<string>)
    ensures input.None? ==> !IsUrl(input)
    ensures IsUrl(input) ==> input.Some? && |input.value| >= 7
    ensures IsUrl(input) ==> LowerChar(input.value[0]) == 'h' && LowerChar(input.value[3]) == 'p'
  {
    if IsUrl(input) {
      var lowered := Lower(input.value);
      assert lowered[..7] == "http://" || lowered[..8] == "https://";
      assert lowered[0] == 'h' && lowered[3] == 'p';
    }
  }

  /** Changing the case of letters never changes whether a text is a URL. */
  lemma IsUrlIgnoresCase(s: string)
    ensures IsUrl(Some(Upper(s))) == IsUrl(Some(s))
    ensures IsUrl(Some(Lower(s))) == IsUrl(Some(s))
  {
    assert Lower(Upper(s)) == Lower(s) by {
      forall i | 0 <= i < |s| ensures LowerChar(UpperChar(s[i])) == LowerChar(s[i]) { }
    }
    assert Lower(Lower(s)) == Lower(s);
  }

  /** Only the start of the text matters: a URL stays a URL whatever
      follows. */
  lemma IsUrlExtends(s: string, t: string)
    requires IsUrl(Some(s))
    ensures IsUrl(Some(s + t))
  {
    LowerConcat(s, t);
    var lowered := Lower(s);
    assert (lowered + Lower(t))[..7] == lowered[..7];
    if |lowered| >= 8 {
      assert (lowered + Lower(t))[..8] == lowered[..8];
    }
  }

  /** The scheme is matched case-insensitively. */
  lemma UpperCaseSchemeIsUrl()
    ensures IsUrl(Some("HTTPS://www.target.com"))
  {
    assert Lower("HTTPS://www.target.com")[..8] == "https://";
  }

  /** Other schemes, and a scheme missing a slash, are not URLs. */
  lemma OtherSchemesAreNotUrls()
    ensures !IsUrl(Some("ftp://walmart.com"))
    ensures !IsUrl(Some("https:/walmart.com"))
  {
    assert Lower("ftp://walmart.com")[0] == 'f';
    assert Lower("https:/walmart.com")[4] == 's' && Lower("https:/walmart.com")[7] == 'w';
  }

  /** `inferRetailerFromUrl(url)`: the first retailer, in the order Walmart,
      Target, Walgreens, whose domain occurs in the URL; `None` for a missing
      or empty URL and for a URL naming none of them. */
  function InferRetailerFromUrl(url: Option<string>): (r: Option<Retailer>)
    ensures url.None? || url == Some("") ==> r.None?
    ensures r == Some(Walmart) <==> url.Some? && Contains(url.value, "walmart.com")
    ensures r == Some(Target) <==>
      url.Some? && !Contains(url.value, "walmart.com") && Contains(url.value, "target.com")
    ensures r == Some(Walgreens) <==>
      url.Some? && !Contains(url.value, "walmart.com") && !Contains(url.value, "target.com")
      && Contains(url.value, "walgreens.com")
  {
    if url.None? || url.value == "" then None
    else if Contains(url.value, Walmart.Domain()) then Some(Walmart)
    else if Contains(url.value, Target.Domain()) then Some(Target)
    else if Contains(url.value, Walgreens.Domain()) then Some(Walgreens)
    else None
  }

  /** The inferred retailer's domain does occur in the URL. */
  lemma InferredDomainOccurs(url: Option<string>)
    requires InferRetailerFromUrl(url).Some?
    ensures url.Some? && Contains(url.value, InferRetailerFromUrl(url).value.Domain())
  {
  }

  /** A URL that names exactly one retailer's domain is inferred as that
      retailer, whatever the checking order. */
  lemma InferSoleDomain(url: string, x: Retailer)
    requires Contains(url, x.Domain())
    requires forall y: Retailer :: y != x ==> !Contains(url, y.Domain())
    ensures InferRetailerFromUrl(Some(url)) == Some(x)
  {
    assert Walmart.Domain() == "walmart.com" && Target.Domain() == "target.com" && Walgreens.Domain() == "walgreens.com";
    if x != Walmart { assert !Contains(url, Walmart.Domain()); }
    if x != Target { assert !Contains(url, Target.Domain()); }
    if x != Walgreens { assert !Contains(url, Walgreens.Domain()); }
  }

  /** What `scrapeRetailer` hands the request to. */
  datatype Route =
    | ProductPage(retailer: Retailer, url: string)
    | Search(retailer: Retailer, query: Option<string>)

  /** The names `RETAILERS[name]` finds on `Object.prototype` rather than
      among the three entries: each gives a truthy value without `search`
      or `scrapeProduct`. */
  const InheritedNames: set<string> := {
    "constructor", "hasOwnProperty", "isPrototypeOf", "propertyIsEnumerable",
    "toLocaleString", "toString", "valueOf", "__proto__",
    "__defineGetter__", "__defineSetter__", "__lookupGetter__", "__lookupSetter__"}

  /** The message of the TypeError thrown by calling the missing
      `handler.search`. */
  const MissingSearch := "handler.search is not a function"

  /** `scrapeRetailer(retailer, query)`: an unknown retailer throws; a URL of
      the requested retailer's own site is scraped as one product page
      (every registered handler has `scrapeProduct`); anything else is a
      search on the requested retailer.  An inherited name passes the
      `!handler` test and then throws when `search` is called. */
  function ScrapeRetailer(retailer: string, query: Option<string>): (r: Result<Route>)
    ensures RetailerNamed(retailer).None? <==> r.Failure?
    ensures r.Failure? && retailer !in InheritedNames ==> r.error == "Unsupported retailer: " + retailer
    ensures r.Failure? && retailer in InheritedNames ==> r.error == MissingSearch
    ensures r.Success? ==> r.value.retailer.Name() == retailer
    ensures r.Success? && r.value.ProductPage? <==>
      IsUrl(query) && InferRetailerFromUrl(query).Some? && InferRetailerFromUrl(query).value.Name() == retailer
    ensures r.Success? && r.value.ProductPage? ==> query == Some(r.value.url)
    ensures r.Success? && r.value.Search? ==> r.value.query == query
  {
    var handler := RetailerNamed(retailer);
    if handler.None? then
      if retailer in InheritedNames then Failure(MissingSearch)
      else Failure("Unsupported retailer: " + retailer)
    else if IsUrl(query) && InferRetailerFromUrl(query) == handler then
      IsUrlNeedsScheme(query);
      Success(ProductPage(handler.value, query.value))
    else Success(Search(handler.value, query))
  }

  /** A URL of one retailer's site, requested from another retailer, is
      searched on the requested retailer rather than scraped. */
  lemma ForeignUrlIsSearched(url: string, own: Retailer, requested: Retailer)
    requires IsUrl(Some(url)) && InferRetailerFromUrl(Some(url)) == Some(own) && own != requested
    ensures ScrapeRetailer(requested.Name(), Some(url)) == Success(Search(requested, Some(url)))
  {
    RetailerNamedRoundTrip(requested);
    RetailerNamedRoundTrip(own);
  }

  /** A URL naming only the requested retailer's domain is scraped as a
      product page. */
  lemma OwnUrlIsScraped(url: string, x: Retailer)
    requires IsUrl(Some(url)) && Contains(url, x.Domain())
    requires forall y: Retailer :: y != x ==> !Contains(url, y.Domain())
    ensures ScrapeRetailer(x.Name(), Some(url)) == Success(ProductPage(x, url))
  {
    RetailerNamedRoundTrip(x);
    InferSoleDomain(url, x);
  }

  /** A query that is not a URL is always a search. */
  lemma PlainQueryIsSearched(query: Option<string>, x: Retailer)
    requires !IsUrl(query)
    ensures ScrapeRetailer(x.Name(), query) == Success(Search(x, query))
  {
    RetailerNamedRoundTrip(x);
  }

  /** A call `lookupAmazon` makes to the Amazon scraper. */
  datatype AmazonCall =
    | LookupByAsin(asin: JsValue)
    | SearchAmazon(query: JsValue, limit: JsValue)

  /** What a branch of `lookupAmazon` returns, and the calls it made. */
  datatype Outcome = Outcome(value: JsValue, calls: seq<AmazonCall>)

  /** The target handed to `pickBestMatch`: the query as title and the
      price only when it is a number. */
  function MatchTarget(query: JsValue, price: JsValue): (t: JsValue)
    ensures Get(t, "title") == query
    ensures Get(t, "price") == if price.Num? then price else Null
  {
    var members := [Member("title", query), Member("price", if price.Num? then price else Null)];
    assert "title"[0] != "price"[0];
    assert Lookup(members, "price") == Lookup(members[1..], "price");
    assert members[1..][0] == Member("price", if price.Num? then price else Null);
    Obj(members)
  }

  /** Every object a product-page lookup returns has distinct member names. */
  ghost predicate LookupsWellFormed(lookupByAsin: JsValue -> JsValue)
  {
    forall a :: lookupByAsin(a).Obj? ==> UniqueKeys(lookupByAsin(a).members)
  }

  /** The end of `lookupAmazon` once `best` is chosen: nothing found gives
      null; a result without a truthy price but with an ASIN is completed by
      a product-page lookup whose fields win; any other result is returned
      as it is. */
  function Finish(best: JsValue, lookupByAsin: JsValue -> JsValue): (r: Outcome)
    requires LookupsWellFormed(lookupByAsin)
    ensures r.value == Null <==> !Truthy(best)
    ensures !Truthy(best) ==> r.calls == []
    ensures Truthy(best) && Truthy(Get(best, "price")) ==> r == Outcome(best, [])
    ensures Truthy(best) && !Truthy(Get(best, "price")) && !Truthy(Get(best, "asin")) ==> r == Outcome(best, [])
    ensures Truthy(best) && !Truthy(Get(best, "price")) && Truthy(Get(best, "asin")) ==>
      var lookup := lookupByAsin(Get(best, "asin"));
      && r.calls == [LookupByAsin(Get(best, "asin"))]
      && forall k :: Get(r.value, k) == if lookup.Obj? && HasKey(lookup.members, k) then Get(lookup, k) else Get(best, k)
  {
    if !Truthy(best) then Outcome(Null, [])
    else if !Truthy(Get(best, "price")) && Truthy(Get(best, "asin")) then
      Outcome(Merge(best, lookupByAsin(Get(best, "asin"))), [LookupByAsin(Get(best, "asin"))])
    else Outcome(best, [])
  }

  /** `pickBestMatch(...) || results[0]`: the match when there is one, else
      the first result, else `undefined`. */
  function Chosen(picked: Option<JsValue>, results: seq<JsValue>): (best: JsValue)
    ensures picked.Some? ==> best == picked.value
    ensures picked.None? && results != [] ==> best == results[0]
    ensures picked.None? && results == [] ==> best == Undefined
  {
    if picked.Some? then picked.value
    else if results != [] then results[0]
    else Undefined
  }

  /** The match options `lookupAmazon` passes: none. */
  const NoOptions := Match.MatchOptions(None, None, None)

  /** `lookupAmazon({ query, asin, price, limit })`, with `search(query,
      limit)` the results `amazon.search` returns and `lookupByAsin(asin)`
      the record `amazon.lookupByAsin` returns; `env` and `log` are those of
      `pickBestMatch`. */
  method LookupAmazon(query: JsValue, asin: JsValue, price: JsValue, limit: JsValue,
                      search: (JsValue, JsValue) -> seq<JsValue>, lookupByAsin: JsValue -> JsValue,
                      env: Match.PriceBandEnv, log: real -> real)
    returns (r: Result<JsValue>, calls: seq<AmazonCall>)
    requires LookupsWellFormed(lookupByAsin)
    ensures Truthy(asin) ==> r == Success(lookupByAsin(asin)) && calls == [LookupByAsin(asin)]
    ensures !Truthy(asin) && !Truthy(query) ==> r == Success(Null) && calls == []
    ensures !Truthy(asin) && Truthy(query) ==>
      var lim := Parse.Default(limit, Num(6.0));
      var results := search(query, lim);
      var ctx := Match.Context(MatchTarget(query, price), NoOptions, env, log);
      && calls != [] && calls[0] == SearchAmazon(query, lim)
      && (r.Failure? <==> exists i :: 0 <= i < |results| && Match.Throws(ctx, results[i]))
      && (r.Failure? ==> r.error == Match.TitleError && calls == [SearchAmazon(query, lim)])
    ensures !Truthy(asin) && Truthy(query) && r.Success? ==>
      var lim := Parse.Default(limit, Num(6.0));
      var results := search(query, lim);
      var ranks := Match.Ranking(Match.Context(MatchTarget(query, price), NoOptions, env, log), results);
      && (Match.NoneAbove(ranks, 0.2, |ranks|) ==>
            Outcome(r.value, calls[1..]) == Finish(Chosen(None, results), lookupByAsin))
      && (forall w :: Match.WinnerAmong(ranks, 0.2, w, |ranks|) ==>
            Outcome(r.value, calls[1..]) == Finish(Put(results[w], "score", Num(ranks[w].score)), lookupByAsin))
  {
    if Truthy(asin) {
      return Success(lookupByAsin(asin)), [LookupByAsin(asin)];
    }
    if !Truthy(query) {
      return Success(Null), [];
    }
    var lim := Parse.Default(limit, Num(6.0));
    var results := search(query, lim);
    var picked := Match.PickBestMatch(results, MatchTarget(query, price), 0.2, NoOptions, env, log);
    if picked.Failure? {
      return Failure(picked.error), [SearchAmazon(query, lim)];
    }
    var best := Chosen(picked.value, results);
    ghost var ranks := Match.Ranking(Match.Context(MatchTarget(query, price), NoOptions, env, log), results);
    forall w | Match.WinnerAmong(ranks, 0.2, w, |ranks|)
      ensures best == Put(results[w], "score", Num(ranks[w].score))
    {
      var v :| Match.WinnerAmong(ranks, 0.2, v, |ranks|) && picked.value.value == Put(results[v], "score", Num(ranks[v].score));
      Match.WinnerUnique(ranks, 0.2, v, w);
    }
    var tail := Finish(best, lookupByAsin);
    r, calls := Success(tail.value), [SearchAmazon(query, lim)] + tail.calls;
    assert calls[1..] == tail.calls;
  }
}
