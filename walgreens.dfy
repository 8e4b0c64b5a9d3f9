/** The Walgreens adapter (`scrapers/retailers/walgreens.js`): the product
    records built from the product-search API, the page size it asks for,
    and the choice `search` makes between the API and the search page. */
module Walgreens {
  import opened Wrappers
  import opened Strings
  import opened Seqs
  import opened JsValues
  import opened Parse
  import opened Merge

  const Origin: string := "https://www.walgreens.com"

  /** The most products one API page holds. */
  const MaxPageSize: int := 72

  // --------------------------------------------------- normalizeWalgreensUrl

  /** `normalizeWalgreensUrl(urlPath)`: '' for a falsy path, an absolute
      "http…" address unchanged, a protocol-relative "//…" address given
      "https:", anything else joined to the Walgreens origin. `None` stands
      for the TypeError `startsWith` throws on a truthy value that is not a
      string. */
  function NormalizeWalgreensUrl(urlPath: JsValue): (r: Option<string>)
    ensures r.None? <==> Truthy(urlPath) && !urlPath.Str?
    ensures r.Some? ==> (r.value == "" <==> !Truthy(urlPath))
    ensures r.Some? && r.value != "" ==> StartsWith(r.value, "http")
    ensures r.Some? && urlPath.Str? ==> EndsWith(r.value, urlPath.s)
    ensures r.Some? && Truthy(urlPath) ==>
      (r.value == urlPath.s <==> StartsWith(urlPath.s, "http"))
      && (!StartsWith(urlPath.s, "http") && StartsWith(urlPath.s, "//") ==> r.value == "https:" + urlPath.s)
      && (!StartsWith(urlPath.s, "http") && !StartsWith(urlPath.s, "//") ==> r.value == Origin + urlPath.s)
  {
    if !Truthy(urlPath) then Some("")
    else if !urlPath.Str? then None
    else if StartsWith(urlPath.s, "http") then Some(urlPath.s)
    else if StartsWith(urlPath.s, "//") then
      assert ("https:" + urlPath.s)[..4] == "http";
      Some("https:" + urlPath.s)
    else
      assert (Origin + urlPath.s)[..4] == "http";
      Some(Origin + urlPath.s)
  }

  /** A normalised address is normalised again to itself. */
  lemma NormalizeWalgreensUrlIdempotent(urlPath: JsValue)
    requires NormalizeWalgreensUrl(urlPath).Some?
    ensures NormalizeWalgreensUrl(Str(NormalizeWalgreensUrl(urlPath).value)) == NormalizeWalgreensUrl(urlPath)
  {
  }

  /** A protocol-relative address keeps its host: it only gains the scheme. */
  lemma ProtocolRelativeKeepsHost(host: string)
    ensures NormalizeWalgreensUrl(Str("//" + host)) == Some("https://" + host)
  {
    var path := "//" + host;
    assert path[..2] == "//";
    assert !StartsWith(path, "http") by {
      if |path| >= 4 {
        assert path[..4][0] == '/' && "http"[0] == 'h';
      }
    }
    assert "https:" + path == "https://" + host;
  }

  // ------------------------------------------------------------- page size

  /** `Math.min(Math.max(limit, 1), 72)`: the API page size, the requested
      limit clamped to [1, 72]. */
  function PageSize(limit: int): (n: int)
    ensures 1 <= n <= MaxPageSize
    ensures 1 <= limit <= MaxPageSize ==> n == limit
    ensures limit < 1 ==> n == 1
    ensures limit > MaxPageSize ==> n == MaxPageSize
  {
    var atLeastOne := if limit > 1 then limit else 1;
    if atLeastOne < MaxPageSize then atLeastOne else MaxPageSize
  }

  // ----------------------------------------------------- mapFromApiProducts

  /** `entry.productInfo || entry`. */
  function Info(entry: JsValue): JsValue
  {
    Or(Get(entry, "productInfo"), entry)
  }

  /** `info.priceInfo || {}`. */
  function PriceInfo(entry: JsValue): JsValue
  {
    Or(Get(Info(entry), "priceInfo"), Obj([]))
  }

  /** The price chain: the first truthy of sale, single-unit sale, regular
      and original price, else null. */
  function ApiPrice(entry: JsValue): JsValue
  {
    var priceInfo := PriceInfo(entry);
    OrAll([Get(priceInfo, "salePrice"), Get(priceInfo, "singleUnitSalePrice"),
           Get(priceInfo, "regularPrice"), Get(priceInfo, "originalPrice"), Null])
  }

  /** The original-price chain: regular, original, sale, then the price. */
  function ApiOriginal(entry: JsValue): JsValue
  {
    var priceInfo := PriceInfo(entry);
    OrAll([Get(priceInfo, "regularPrice"), Get(priceInfo, "originalPrice"),
           Get(priceInfo, "salePrice"), ApiPrice(entry)])
  }

  /** The product url field chain. */
  function UrlField(entry: JsValue): JsValue
  {
    var info := Info(entry);
    OrAll([Get(info, "productURL"), Get(info, "productUrl"), Get(info, "url"), Str("")])
  }

  /** The image field chain. */
  function ImageField(entry: JsValue): JsValue
  {
    var info := Info(entry);
    OrAll([Get(info, "imageUrl"), Get(info, "imageURL"), Get(info, "imageUrl450"), Get(info, "imageUrl50"), Str("")])
  }

  /** The fields handed to `normalizeRetailProduct`, with the url and image
      already normalised. */
  function ApiInput(entry: JsValue, url: string, image: string): RetailInput
  {
    var info := Info(entry);
    RetailInput(
      id := OrAll([Get(info, "prodId"), Get(info, "productId"), Get(info, "skuId"), Get(info, "articleId")]),
      title := OrAll([Get(info, "productDisplayName"), Get(info, "productName"), Get(info, "name"), Get(info, "title")]),
      retailer := Str("walgreens"),
      price := NumberOrNull(SafeNumber(ApiPrice(entry))),
      originalPrice := NumberOrNull(SafeNumber(ApiOriginal(entry))),
      url := Str(url),
      image := Str(image),
      clearance := Undefined,
      stock := OrAll([Get(info, "inventoryText"), Get(info, "storeInventoryStatus"), Get(info, "storeInv"),
                      Get(info, "availability"), Str("Unknown")]),
      upc := OrAll([Get(info, "upc"), Get(info, "storeUPC"), Null]))
  }

  /** The callback of `mapFromApiProducts` on one entry; `None` when it
      throws (a null or undefined entry, or a truthy url or image field that
      is not a string). */
  function ApiEntry(entry: JsValue): (r: Option<RetailProduct>)
    ensures r.Some? ==> r.value.retailer == Str("walgreens")
    ensures r.Some? ==> r.value.price == SafeNumber(ApiPrice(entry)).GetOr(0.0)
    ensures r.Some? ==> r.value.originalPrice == SafeNumber(ApiOriginal(entry)).GetOr(r.value.price)
    ensures r.None? <==> Nullish(entry) || NormalizeWalgreensUrl(UrlField(entry)).None?
                         || NormalizeWalgreensUrl(ImageField(entry)).None?
  {
    if Nullish(entry) then None
    else
      var url := NormalizeWalgreensUrl(UrlField(entry));
      var image := NormalizeWalgreensUrl(ImageField(entry));
      if url.None? || image.None? then None
      else Some(NormalizeRetailProduct(ApiInput(entry, url.value, image.value)))
  }

  /** The entries of `data.products`: the array itself, or the values of
      anything else. */
  function Entries(products: JsValue): (r: seq<JsValue>)
    ensures products.Arr? ==> r == products.items
    ensures products.Obj? ==> |r| == |products.members| && forall i :: 0 <= i < |r| ==> r[i] == products.members[i].value
  {
    if products.Arr? then products.items else Values(products)
  }

  /** `mapFromApiProducts(data)`: [] without data or products, otherwise one
      Walgreens product per entry, in order; `None` when one of them
      throws. */
  function MapFromApiProducts(data: JsValue): (r: Option<seq<RetailProduct>>)
    ensures !Truthy(data) || !Truthy(Get(data, "products")) ==> r == Some([])
    ensures Truthy(data) && Truthy(Get(data, "products")) ==>
      var entries := Entries(Get(data, "products"));
      && (r.Some? ==> |r.value| == |entries| && forall i :: 0 <= i < |entries| ==> ApiEntry(entries[i]) == Some(r.value[i]))
      && (r.None? <==> exists i :: 0 <= i < |entries| && ApiEntry(entries[i]).None?)
    ensures r.Some? ==> forall i :: 0 <= i < |r.value| ==> r.value[i].retailer == Str("walgreens")
  {
    if !Truthy(data) || !Truthy(Get(data, "products")) then Some([])
    else
      var entries := Entries(Get(data, "products"));
      var r := MapAll(entries, ApiEntry);
      assert r.Some? ==> forall i :: 0 <= i < |r.value| ==> ApiEntry(entries[i]) == Some(r.value[i]);
      r
  }

  /** The price chain uses `||`: a sale price of 0 falls through to the
      regular price, so the product is not listed as free. */
  lemma ZeroSalePriceFallsThrough(entry: JsValue, regular: real)
    requires Get(PriceInfo(entry), "salePrice") == Num(0.0)
    requires !Truthy(Get(PriceInfo(entry), "singleUnitSalePrice"))
    requires Get(PriceInfo(entry), "regularPrice") == Num(regular) && regular != 0.0
    requires ApiEntry(entry).Some?
    ensures ApiEntry(entry).value.price == regular
  {
    ZeroSaleApiPrice(entry, regular);
  }

  lemma ZeroSaleApiPrice(entry: JsValue, regular: real)
    requires Get(PriceInfo(entry), "salePrice") == Num(0.0)
    requires !Truthy(Get(PriceInfo(entry), "singleUnitSalePrice"))
    requires Get(PriceInfo(entry), "regularPrice") == Num(regular) && regular != 0.0
    ensures ApiPrice(entry) == Num(regular)
  {
    var priceInfo := PriceInfo(entry);
    var chain := [Get(priceInfo, "salePrice"), Get(priceInfo, "singleUnitSalePrice"),
                  Get(priceInfo, "regularPrice"), Get(priceInfo, "originalPrice"), Null];
    assert NoneTruthy(chain[..2]);
  }

  // ------------------------------------------------------------------ search

  /** The products of the API response that `search` would list. */
  function ApiListed(api: Option<JsValue>): (r: seq<RetailProduct>)
    ensures forall i :: 0 <= i < |r| ==> Listable(r[i]) && r[i].retailer == Str("walgreens")
  {
    if api.None? then []
    else
      var mapped := MapFromApiProducts(api.value);
      if mapped.None? then [] else Filter(mapped.value, Listable)
  }

  /** `search(query, { limit })` once its sources have answered: `api` is
      the API response (`None` when the request failed), `state`, `ld` and
      `html` the products read from the search page. A mapping error in the
      API path is caught like a failed request. The API products are listed
      when any of them has a title and a positive price; otherwise the page
      products are merged. */
  function Search(api: Option<JsValue>, state: seq<RetailProduct>, ld: seq<RetailProduct>,
                  html: seq<RetailProduct>, limit: int): (r: seq<RetailProduct>)
    ensures |ApiListed(api)| > 0 ==> r == JsSlice(ApiListed(api), limit)
    ensures |ApiListed(api)| == 0 ==> r == FinalMerge(state + ld + html, limit)
  {
    var listed := ApiListed(api);
    if |listed| > 0 then JsSlice(listed, limit) else FinalMerge(state + ld + html, limit)
  }

  /** Whichever source answers, every product listed has a title and a
      positive price, and at most `limit` are listed. */
  lemma SearchListable(api: Option<JsValue>, state: seq<RetailProduct>, ld: seq<RetailProduct>,
                       html: seq<RetailProduct>, limit: int)
    ensures var r := Search(api, state, ld, html, limit);
      && (forall i :: 0 <= i < |r| ==> Listable(r[i]))
      && (limit >= 0 ==> |r| <= limit)
  {
    var listed := ApiListed(api);
    if |listed| > 0 {
      SliceListable(listed, limit);
    } else {
      FinalMergeProperties(state + ld + html, limit);
    }
  }

  lemma SliceListable(listed: seq<RetailProduct>, limit: int)
    requires forall i :: 0 <= i < |listed| ==> Listable(listed[i])
    ensures forall i :: 0 <= i < |JsSlice(listed, limit)| ==> Listable(JsSlice(listed, limit)[i])
  {
    var r := JsSlice(listed, limit);
    forall i | 0 <= i < |r| ensures Listable(r[i]) {
      assert r[i] == listed[i];
    }
  }

  /** The API path does not de-duplicate: two listable API entries with the
      same url are both listed, while the page path keeps one of them. */
  lemma ApiPathKeepsDuplicates(p: RetailProduct, limit: int)
    requires Listable(p) && p.url != "" && limit >= 2
    ensures JsSlice(Filter([p, p], Listable), limit) == [p, p]
    ensures FinalMerge([p, p], limit) == [p]
  {
    assert [p] + [p] == [p, p] && [] + [p] == [p];
    FilterSnoc([], p, Listable);
    FilterSnoc([p], p, Listable);
    var keep := HasTruthyKey(UrlOrId);
    FilterSnoc([], p, keep);
    FilterSnoc([p], p, keep);
    FirstPerKeySnoc([], p, UrlOrId);
    FirstPerKeySnoc([p], p, UrlOrId);
    assert [p][0] == p;
    assert UrlOrId(p) in KeySet([p], UrlOrId);
  }
}
