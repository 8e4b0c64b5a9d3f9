/** The Target adapter (`scrapers/retailers/target.js`): the product records
    built from the RedSky search API, the tcin candidates of the Jina reader
    fallback, and the order in which `search` tries its three sources. */
module Target {
  import opened Wrappers
  import opened Strings
  import opened Seqs
  import opened JsValues
  import opened Parse
  import opened Merge

  const Origin: string := "https://www.target.com"

  // ------------------------------------------------------ normalizeTargetUrl

  /** `normalizeTargetUrl(urlPath)`: '' for a falsy path, an absolute
      "http…" address unchanged, anything else joined to the Target origin.
      `None` stands for the TypeError `startsWith` throws on a truthy value
      that is not a string. */
  function NormalizeTargetUrl(urlPath: JsValue): (r: Option<string>)
    ensures r.None? <==> Truthy(urlPath) && !urlPath.Str?
    ensures r.Some? ==> (r.value == "" <==> !Truthy(urlPath))
    ensures r.Some? && r.value != "" ==> StartsWith(r.value, "http")
    ensures r.Some? && urlPath.Str? ==> EndsWith(r.value, urlPath.s)
    ensures r.Some? && Truthy(urlPath) ==>
      (r.value == urlPath.s <==> StartsWith(urlPath.s, "http"))
      && (!StartsWith(urlPath.s, "http") ==> r.value == Origin + urlPath.s)
  {
    if !Truthy(urlPath) then Some("")
    else if !urlPath.Str? then None
    else if StartsWith(urlPath.s, "http") then Some(urlPath.s)
    else
      assert (Origin + urlPath.s)[..4] == "http";
      Some(Origin + urlPath.s)
  }

  /** A normalised address is normalised again to itself. */
  lemma NormalizeTargetUrlIdempotent(urlPath: JsValue)
    requires NormalizeTargetUrl(urlPath).Some?
    ensures NormalizeTargetUrl(Str(NormalizeTargetUrl(urlPath).value)) == NormalizeTargetUrl(urlPath)
  {
  }

  // ------------------------------------------------------- mapFromTargetApi

  /** `product.item || {}`. */
  function ApiItem(product: JsValue): JsValue
  {
    Or(Get(product, "item"), Obj([]))
  }

  /** `product.price || item.price || {}`. */
  function ApiPriceInfo(product: JsValue): JsValue
  {
    OrAll([Get(product, "price"), Get(ApiItem(product), "price"), Obj([])])
  }

  /** The price chain of `mapFromTargetApi`: the first field of the chain that
      is neither null nor undefined, else null. */
  function ApiPrice(product: JsValue): JsValue
  {
    var priceInfo := ApiPriceInfo(product);
    CoalesceAll([Get(priceInfo, "current_retail"), Get(priceInfo, "formatted_current_price"),
                 Get(product, "offer_price"), Get(product, "current_retail"),
                 Get(product, "reg_retail"), Null])
  }

  /** `priceInfo.reg_retail ?? product.reg_retail ?? price`. */
  function ApiOriginal(product: JsValue): JsValue
  {
    CoalesceAll([Get(ApiPriceInfo(product), "reg_retail"), Get(product, "reg_retail"), ApiPrice(product)])
  }

  /** The url path chain, which ends in ''. */
  function ApiUrlPath(product: JsValue): JsValue
  {
    var enrichment := Or(Get(ApiItem(product), "enrichment"), Obj([]));
    OrAll([Get(enrichment, "buy_url"), Get(enrichment, "url"), Get(product, "url"),
           Get(product, "canonical_url"), Get(product, "pdp_url"), Str("")])
  }

  /** The fields `mapFromTargetApi` hands to `normalizeRetailProduct`, with
      the url already normalised. */
  function ApiInput(product: JsValue, url: string): RetailInput
  {
    var item := ApiItem(product);
    var description := Or(Get(item, "product_description"), Obj([]));
    var enrichment := Or(Get(item, "enrichment"), Obj([]));
    var images := Or(Get(enrichment, "images"), Obj([]));
    RetailInput(
      id := OrAll([Get(product, "tcin"), Get(item, "tcin"), Get(product, "parent_tcin"), Get(item, "parent_tcin")]),
      title := OrAll([Get(description, "title"), Get(product, "title"), Get(product, "name")]),
      retailer := Str("target"),
      price := NumberOrNull(SafeNumber(ApiPrice(product))),
      originalPrice := NumberOrNull(SafeNumber(ApiOriginal(product))),
      url := Str(url),
      image := OrAll([Get(images, "primary_image_url"), Get(images, "primary_image_url_large"),
                      Get(images, "primary_image_url_small"), Get(images, "primary_image_url_medium"),
                      Get(images, "primary_image_url_xlarge"), Get(product, "primary_image_url"),
                      Get(product, "image_url"), Str("")]),
      clearance := Undefined,
      stock := OrAll([Get(product, "availability_status"), Get(item, "availability_status"), Str("Unknown")]),
      upc := Or(Get(item, "upc"), Null))
  }

  /** The callback of `mapFromTargetApi` on one search product; `None` when
      it throws (a null or undefined product, or a truthy url field that is
      not a string). */
  function ApiEntry(product: JsValue): (r: Option<RetailProduct>)
    ensures r.Some? ==> r.value.retailer == Str("target")
    ensures r.Some? ==> r.value.price == SafeNumber(ApiPrice(product)).GetOr(0.0)
    ensures r.Some? ==> r.value.originalPrice == SafeNumber(ApiOriginal(product)).GetOr(r.value.price)
    ensures r.None? <==> Nullish(product) || (Truthy(ApiUrlPath(product)) && !ApiUrlPath(product).Str?)
  {
    if Nullish(product) then None
    else
      var url := NormalizeTargetUrl(ApiUrlPath(product));
      if url.None? then None
      else Some(NormalizeRetailProduct(ApiInput(product, url.value)))
  }

  /** `mapFromTargetApi(products)`: [] for anything but an array, otherwise
      one Target product per search product, in order; `None` when one of
      them throws. */
  function MapFromTargetApi(products: JsValue): (r: Option<seq<RetailProduct>>)
    ensures !products.Arr? ==> r == Some([])
    ensures products.Arr? && r.Some? ==>
      |r.value| == |products.items|
      && forall i :: 0 <= i < |products.items| ==> ApiEntry(products.items[i]) == Some(r.value[i])
    ensures products.Arr? ==> (r.None? <==> exists i :: 0 <= i < |products.items| && ApiEntry(products.items[i]).None?)
    ensures r.Some? ==> forall i :: 0 <= i < |r.value| ==> r.value[i].retailer == Str("target")
  {
    if !products.Arr? then Some([])
    else
      var r := MapAll(products.items, ApiEntry);
      assert r.Some? ==> forall i :: 0 <= i < |r.value| ==> ApiEntry(products.items[i]) == Some(r.value[i]);
      r
  }

  /** The price chain uses `??`: a price of 0 in the first field is kept,
      and the original price then falls back to it when no regular price is
      given. */
  lemma ZeroPriceKept(product: JsValue)
    requires Get(product, "price") == Obj([Member("current_retail", Num(0.0))])
    requires Nullish(Get(product, "reg_retail"))
    requires ApiEntry(product).Some?
    ensures ApiEntry(product).value.price == 0.0 && ApiEntry(product).value.originalPrice == 0.0
    ensures !ApiEntry(product).value.clearance
  {
    ZeroApiPrice(product);
  }

  lemma ZeroApiPrice(product: JsValue)
    requires Get(product, "price") == Obj([Member("current_retail", Num(0.0))])
    requires Nullish(Get(product, "reg_retail"))
    ensures ApiPrice(product) == Num(0.0) && ApiOriginal(product) == Num(0.0)
  {
    var priceInfo := ApiPriceInfo(product);
    OrAllHead([Get(product, "price"), Get(ApiItem(product), "price"), Obj([])]);
    assert Get(priceInfo, "current_retail") == Num(0.0);
    CoalesceAllHead([Get(priceInfo, "current_retail"), Get(priceInfo, "formatted_current_price"),
                     Get(product, "offer_price"), Get(product, "current_retail"),
                     Get(product, "reg_retail"), Null]);
    assert Get(priceInfo, "reg_retail") == Undefined;
    var chain := [Get(priceInfo, "reg_retail"), Get(product, "reg_retail"), ApiPrice(product)];
    CoalesceAllHead(chain);
    CoalesceAllHead(chain[1..]);
    assert chain[1..][1..] == [ApiPrice(product)];
  }

  // ------------------------------------------------------- searchTargetApi

  /** `data?.data?.search?.products || data?.search?.products || []`. */
  function SearchProducts(data: JsValue): JsValue
  {
    OrAll([Get(Get(Get(data, "data"), "search"), "products"), Get(Get(data, "search"), "products"), Arr([])])
  }

  /** `searchTargetApi` after its fetches: the keyword results cut to
      `limit` when there are any; otherwise the results of the redirect
      category (`category`, `None` when the response names no category),
      cut to `limit`. `None` when mapping throws. */
  function SearchTargetApi(data: JsValue, category: Option<JsValue>, limit: int): (r: Option<seq<RetailProduct>>)
    ensures MapFromTargetApi(SearchProducts(data)).Some? && |MapFromTargetApi(SearchProducts(data)).value| > 0 ==>
      r == Some(JsSlice(MapFromTargetApi(SearchProducts(data)).value, limit))
    ensures MapFromTargetApi(SearchProducts(data)) == Some([]) && category.None? ==> r == Some([])
    ensures r.Some? && limit >= 0 ==> |r.value| <= limit
  {
    var products := MapFromTargetApi(SearchProducts(data));
    if products.None? then None
    else if |products.value| > 0 then Some(JsSlice(products.value, limit))
    else if category.None? then Some([])
    else
      var redirected := MapFromTargetApi(SearchProducts(category.value));
      if redirected.None? then None else Some(JsSlice(redirected.value, limit))
  }

  // ------------------------------------------------------------- Jina reader

  /** The two captures of one match of the markdown link pattern: the image
      caption and the product address. */
  datatype Link = Link(caption: string, url: string)

  /** One entry of `matches`. */
  datatype JinaMatch = JinaMatch(title: string, url: string, tcin: string)

  /** `/A-<digit>` (either case of `A`) starts at index `i` of `url`. */
  predicate TcinAt(url: string, i: int)
  {
    0 <= i && i + 3 < |url| && url[i] == '/' && (url[i + 1] == 'A' || url[i + 1] == 'a')
    && url[i + 2] == '-' && IsDigit(url[i + 3])
  }

  /** `url.match(/\/A-(\d+)/i)?.[1]`: the digits after the leftmost `/A-`. */
  function Tcin(url: string): (r: Option<string>)
    ensures r.Some? ==> |r.value| > 0 && AllDigits(r.value)
    decreases |url|
  {
    if |url| < 4 then None
    else if TcinAt(url, 0) then Some(LeadingDigits(url[3..]))
    else Tcin(url[1..])
  }

  /** The tcin is read at the leftmost occurrence of the pattern, and the
      whole run of digits there is taken. */
  lemma {:induction false} TcinLeftmost(url: string, k: int)
    requires TcinAt(url, k) && forall j :: 0 <= j < k ==> !TcinAt(url, j)
    ensures Tcin(url) == Some(LeadingDigits(url[k + 3..]))
    decreases k
  {
    if k > 0 {
      var rest := url[1..];
      assert !TcinAt(url, 0);
      assert TcinAt(rest, k - 1);
      forall j | 0 <= j < k - 1 ensures !TcinAt(rest, j) {
        assert !TcinAt(url, j + 1);
      }
      TcinLeftmost(rest, k - 1);
      assert rest[k - 1 + 3..] == url[k + 3..];
    }
  }

  /** A url without the pattern has no tcin. */
  lemma {:induction false} TcinAbsent(url: string)
    requires forall j :: 0 <= j < |url| ==> !TcinAt(url, j)
    ensures Tcin(url).None?
    decreases |url|
  {
    if |url| >= 4 {
      assert !TcinAt(url, 0);
      forall j | 0 <= j < |url[1..]| ensures !TcinAt(url[1..], j) {
        assert !TcinAt(url, j + 1);
      }
      TcinAbsent(url[1..]);
    }
  }

  /** The match pushed for one link: none when its url has no tcin. */
  function MatchOf(link: Link): (r: seq<JinaMatch>)
    ensures |r| <= 1
  {
    var tcin := Tcin(link.url);
    if tcin.None? then [] else [JinaMatch(Trim(link.caption), link.url, tcin.value)]
  }

  /** Every link that has a tcin, as a match, in markdown order. */
  function WithTcin(found: seq<Link>): seq<JinaMatch>
  {
    FlatMap(found, MatchOf)
  }

  /** The `while (regex.exec(…) && matches.length < limit * 2)` loop over the
      links found in the markdown. */
  method CollectMatches(found: seq<Link>, limit: int) returns (matches: seq<JinaMatch>)
    ensures matches == Take(WithTcin(found), 2 * limit)
  {
    matches := [];
    var k := 0;
    while k < |found| && |matches| < limit * 2
      invariant 0 <= k <= |found|
      invariant matches == WithTcin(found[..k])
      invariant |matches| <= if 2 * limit < 0 then 0 else 2 * limit
    {
      var link := found[k];
      WithTcinStep(found, k);
      var tcin := Tcin(link.url);
      k := k + 1;
      if tcin.None? {
        continue;
      }
      matches := matches + [JinaMatch(Trim(link.caption), link.url, tcin.value)];
    }
    CollectedPrefix(found, k, limit);
  }

  /** One more link adds its match, if any. */
  lemma WithTcinStep(found: seq<Link>, k: int)
    requires 0 <= k < |found|
    ensures WithTcin(found[..k + 1]) == WithTcin(found[..k]) + MatchOf(found[k])
  {
    assert found[..k + 1] == found[..k] + [found[k]];
    FlatMapSnoc(found[..k], found[k], MatchOf);
  }

  /** Where the loop stops, the matches collected are the first `2 * limit`
      of all of them. */
  lemma CollectedPrefix(found: seq<Link>, k: int, limit: int)
    requires 0 <= k <= |found|
    requires |WithTcin(found[..k])| <= (if 2 * limit < 0 then 0 else 2 * limit)
    requires k == |found| || |WithTcin(found[..k])| >= 2 * limit
    ensures WithTcin(found[..k]) == Take(WithTcin(found), 2 * limit)
  {
    assert found == found[..k] + found[k..];
    FlatMapConcat(found[..k], found[k..], MatchOf);
    if k == |found| {
      assert found[k..] == [];
    }
  }

  function TcinOf(m: JinaMatch): string
  {
    m.tcin
  }

  /** How many distinct tcins the dedupe loop keeps: `limit`, but at least
      one, since the length test comes after the push. */
  function UniqueCap(limit: int): (n: int)
    ensures n >= 1 && (limit >= 1 ==> n == limit)
  {
    if limit < 1 then 1 else limit
  }

  /** The dedupe loop: skip a tcin already seen, push, stop once `limit`
      entries are held. */
  method UniqueByTcin(matches: seq<JinaMatch>, limit: int) returns (unique: seq<JinaMatch>)
    ensures unique == Take(FirstPerKey(matches, TcinOf), UniqueCap(limit))
  {
    unique := [];
    var seen: set<string> := {};
    var k := 0;
    var done := false;
    while k < |matches| && !done
      invariant 0 <= k <= |matches|
      invariant seen == KeySet(matches[..k], TcinOf)
      invariant unique == FirstPerKey(matches[..k], TcinOf)
      invariant done ==> |unique| == UniqueCap(limit)
      invariant !done ==> |unique| < UniqueCap(limit)
    {
      var item := matches[k];
      assert matches[..k + 1] == matches[..k] + [item];
      FirstPerKeySnoc(matches[..k], item, TcinOf);
      KeySetSnoc(matches[..k], item, TcinOf);
      k := k + 1;
      if item.tcin in seen {
        continue;
      }
      seen := seen + {item.tcin};
      unique := unique + [item];
      if |unique| >= limit {
        done := true;
      }
    }
    if done {
      assert matches == matches[..k] + matches[k..];
      FirstPerKeyConcat(matches[..k], matches[k..], TcinOf);
    } else {
      assert matches[..k] == matches;
    }
  }

  /** The tcins the Jina path fetches product pages for. */
  function JinaCandidates(found: seq<Link>, limit: int): seq<JinaMatch>
  {
    Take(FirstPerKey(Take(WithTcin(found), 2 * limit), TcinOf), UniqueCap(limit))
  }

  /** The two loops of `searchTargetViaJina` before its page fetches. */
  method JinaTcins(found: seq<Link>, limit: int) returns (unique: seq<JinaMatch>)
    ensures unique == JinaCandidates(found, limit)
  {
    var matches := CollectMatches(found, limit);
    unique := UniqueByTcin(matches, limit);
  }

  /** Every match carries the tcin of its url; a link is kept only when its
      url has one. */
  lemma {:induction false} WithTcinSound(found: seq<Link>)
    ensures forall i :: 0 <= i < |WithTcin(found)| ==> Tcin(WithTcin(found)[i].url) == Some(WithTcin(found)[i].tcin)
    ensures |WithTcin(found)| <= |found|
    ensures (forall i :: 0 <= i < |found| ==> Tcin(found[i].url).Some?) ==> |WithTcin(found)| == |found|
    decreases |found|
  {
    if found != [] {
      var init := found[..|found| - 1];
      var last := found[|found| - 1];
      WithTcinSound(init);
      var w, wi, m := WithTcin(found), WithTcin(init), MatchOf(last);
      assert w == wi + m;
      forall i | 0 <= i < |w| ensures Tcin(w[i].url) == Some(w[i].tcin) {
        if i < |wi| {
          assert w[i] == wi[i];
        } else {
          assert w[i] == m[i - |wi|];
        }
      }
      if forall i :: 0 <= i < |found| ==> Tcin(found[i].url).Some? {
        assert forall i :: 0 <= i < |init| ==> init[i] == found[i];
        assert Tcin(last.url).Some?;
      }
    }
  }

  /** The Jina candidates have pairwise different tcins, each a run of
      digits read from the candidate's own url; there are at most `limit`
      of them (one when `limit < 1`), drawn from at most `2 * limit` links
      that have a tcin. */
  lemma JinaCandidatesProperties(found: seq<Link>, limit: int)
    ensures var u := JinaCandidates(found, limit);
      && DistinctKeys(u, TcinOf)
      && |u| <= UniqueCap(limit)
      && (limit >= 1 ==> |u| <= limit)
      && (forall i :: 0 <= i < |u| ==> Tcin(u[i].url) == Some(u[i].tcin) && |u[i].tcin| > 0 && AllDigits(u[i].tcin))
  {
    var all := WithTcin(found);
    var matches := Take(all, 2 * limit);
    var firsts := FirstPerKey(matches, TcinOf);
    var u := JinaCandidates(found, limit);
    WithTcinSound(found);
    FirstPerKeyProperties(matches, TcinOf);
    forall i | 0 <= i < |u| ensures Tcin(u[i].url) == Some(u[i].tcin) && |u[i].tcin| > 0 && AllDigits(u[i].tcin) {
      assert u[i] == firsts[i];
      var j :| 0 <= j < |matches| && matches[j] == firsts[i];
      assert matches[j] == all[j];
    }
    forall i, j | 0 <= i < j < |u| ensures TcinOf(u[i]) != TcinOf(u[j]) {
      assert u[i] == firsts[i] && u[j] == firsts[j];
    }
  }

  // ------------------------------------------------------------------ search

  /** `search(query, { limit })` once its sources have answered: `api` and
      `jina` are what `searchTargetApi` and `searchTargetViaJina` returned
      ([] when they threw, as the catch blocks swallow the error), and
      `next`, `ld` and `html` are the products read from the search page. */
  function Search(api: seq<RetailProduct>, jina: seq<RetailProduct>,
                  next: seq<RetailProduct>, ld: seq<RetailProduct>, html: seq<RetailProduct>,
                  limit: int): (r: seq<RetailProduct>)
    ensures |api| > 0 ==> r == JsSlice(api, limit)
    ensures |api| == 0 && |jina| > 0 ==> r == JsSlice(jina, limit)
    ensures |api| == 0 && |jina| == 0 ==> r == FinalMerge(next + ld + html, limit)
    ensures limit >= 0 ==> |r| <= limit
  {
    if |api| > 0 then JsSlice(api, limit)
    else if |jina| > 0 then JsSlice(jina, limit)
    else
      FinalMergeProperties(next + ld + html, limit);
      FinalMerge(next + ld + html, limit)
  }

  /** When the keyword search of the API finds products and `limit` is
      positive, `search` returns the first `limit` of them; the second cut
      in `search` changes nothing. */
  lemma ApiResultsFirst(data: JsValue, category: Option<JsValue>, jina: seq<RetailProduct>,
                        next: seq<RetailProduct>, ld: seq<RetailProduct>, html: seq<RetailProduct>, limit: int)
    requires MapFromTargetApi(SearchProducts(data)).Some? && |MapFromTargetApi(SearchProducts(data)).value| > 0
    requires limit > 0
    ensures Search(SearchTargetApi(data, category, limit).value, jina, next, ld, html, limit)
      == Take(MapFromTargetApi(SearchProducts(data)).value, limit)
  {
    var products := MapFromTargetApi(SearchProducts(data)).value;
    var api := SearchTargetApi(data, category, limit).value;
    assert api == Take(products, limit);
    assert |api| > 0;
    assert JsSlice(api, limit) == Take(api, limit);
  }

  /** The HTML fallback lists only listable products, one per url (or id),
      drawn in order from the page's next-data, LD-JSON and HTML products. */
  lemma HtmlFallbackProperties(next: seq<RetailProduct>, ld: seq<RetailProduct>, html: seq<RetailProduct>, limit: int)
    ensures var r := Search([], [], next, ld, html, limit);
      && (forall i :: 0 <= i < |r| ==> Listable(r[i]))
      && DistinctKeys(r, UrlOrId)
      && Subseq(r, next + ld + html)
  {
    FinalMergeProperties(next + ld + html, limit);
  }
}
