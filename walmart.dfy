/** The Walmart adapter (`scrapers/retailers/walmart.js`): the product record
    built from one search item, the items read from the `itemStacks` of the
    page state, and the merge of the page's four product sources. */
module Walmart {
  import opened Wrappers
  import opened Strings
  import opened Seqs
  import opened JsValues
  import opened Parse
  import opened Merge

  const Origin: string := "https://www.walmart.com"

  /** The most stack nodes and the most candidate nodes collected. */
  const MaxStackNodes: int := 10
  const MaxCandidates: int := 60

  // ------------------------------------------------------- mapItemToProduct

  /** `v?.[0]`: an array's first element, an object's member "0". */
  function First(v: JsValue): JsValue
  {
    if v.Arr? then (if |v.items| > 0 then v.items[0] else Undefined) else Get(v, "0")
  }

  /** The price chain: the first value of the chain that is neither null nor
      undefined, else null. */
  function ItemPrice(item: JsValue): JsValue
  {
    var priceInfo := Get(item, "priceInfo");
    CoalesceAll([Get(Get(priceInfo, "currentPrice"), "price"), Get(priceInfo, "currentPrice"),
                 Get(Get(priceInfo, "price"), "price"), Get(Get(priceInfo, "price"), "value"),
                 Get(priceInfo, "price"), Get(Get(item, "price"), "price"),
                 Get(Get(item, "price"), "currentPrice"), Get(item, "currentPrice"),
                 Get(item, "price"), Null])
  }

  /** The original-price chain: the was price, the list price, the original
      price, then the plain price fields. */
  function ItemOriginal(item: JsValue): JsValue
  {
    var priceInfo := Get(item, "priceInfo");
    CoalesceAll([Get(Get(priceInfo, "wasPrice"), "price"), Get(priceInfo, "wasPrice"),
                 Get(Get(priceInfo, "listPrice"), "price"), Get(priceInfo, "listPrice"),
                 Get(priceInfo, "originalPrice"), Get(Get(priceInfo, "price"), "price"),
                 Get(priceInfo, "price"), Get(item, "price"), Null])
  }

  /** The url path chain, which ends in ''. */
  function UrlPath(item: JsValue): JsValue
  {
    OrAll([Get(item, "canonicalUrl"), Get(item, "productPageUrl"), Get(item, "productUrl"),
           Get(item, "url"), Get(item, "seoUrl"), Str("")])
  }

  /** The product address: an "http…" path unchanged, a non-empty relative
      path joined to the Walmart origin, '' for ''. `None` stands for the
      TypeError `startsWith` throws on a value that is not a string. */
  function ProductUrl(urlPath: JsValue): (r: Option<string>)
    ensures r.None? <==> !urlPath.Str?
    ensures r.Some? ==> (r.value == "" <==> urlPath.s == "")
    ensures r.Some? && r.value != "" ==> StartsWith(r.value, "http")
    ensures r.Some? ==> EndsWith(r.value, urlPath.s)
    ensures r.Some? && urlPath.s != "" ==>
      (r.value == urlPath.s <==> StartsWith(urlPath.s, "http"))
      && (!StartsWith(urlPath.s, "http") ==> r.value == Origin + urlPath.s)
  {
    if !urlPath.Str? then None
    else if StartsWith(urlPath.s, "http") then Some(urlPath.s)
    else if urlPath.s != "" then
      assert (Origin + urlPath.s)[..4] == "http";
      Some(Origin + urlPath.s)
    else Some("")
  }

  /** An address built once is built again to itself. */
  lemma ProductUrlIdempotent(urlPath: JsValue)
    requires ProductUrl(urlPath).Some?
    ensures ProductUrl(Str(ProductUrl(urlPath).value)) == ProductUrl(urlPath)
  {
  }

  /** The fields handed to `normalizeRetailProduct`, with the address
      already built. */
  function ItemInput(item: JsValue, url: string): RetailInput
  {
    var imageInfo := Get(item, "imageInfo");
    RetailInput(
      id := Or(Get(item, "usItemId"), Get(item, "id")),
      title := Get(item, "name"),
      retailer := Str("walmart"),
      price := ItemPrice(item),
      originalPrice := ItemOriginal(item),
      url := Str(url),
      image := OrAll([Get(imageInfo, "thumbnailUrl"), Get(imageInfo, "thumbnail"),
                      Get(First(Get(imageInfo, "allImages")), "url"), Get(item, "image"),
                      Get(item, "primaryImageUrl"), Str("")]),
      clearance := Undefined,
      stock := Or(Get(item, "availabilityStatus"), Str("Unknown")),
      upc := Or(Get(item, "upc"), Null))
  }

  /** `mapItemToProduct(item)`; `None` when it throws (a null or undefined
      item, or a truthy url field that is not a string). */
  function MapItemToProduct(item: JsValue): (r: Option<RetailProduct>)
    ensures r.Some? ==> r.value.retailer == Str("walmart")
    ensures r.Some? ==> r.value.price == SafeNumber(ItemPrice(item)).GetOr(0.0)
    ensures r.Some? ==> r.value.originalPrice == SafeNumber(ItemOriginal(item)).GetOr(r.value.price)
    ensures r.None? <==> Nullish(item) || !UrlPath(item).Str?
  {
    if Nullish(item) then None
    else
      var url := ProductUrl(UrlPath(item));
      if url.None? then None
      else Some(NormalizeRetailProduct(ItemInput(item, url.value)))
  }

  /** The price chain uses `??`: a current price given under
      `priceInfo.currentPrice.price` wins over every other field, even when
      it is 0. */
  lemma CurrentPriceFirst(item: JsValue, x: real)
    requires Get(Get(Get(item, "priceInfo"), "currentPrice"), "price") == Num(x)
    requires MapItemToProduct(item).Some?
    ensures MapItemToProduct(item).value.price == x
  {
    CurrentPriceChain(item, x);
  }

  lemma CurrentPriceChain(item: JsValue, x: real)
    requires Get(Get(Get(item, "priceInfo"), "currentPrice"), "price") == Num(x)
    ensures ItemPrice(item) == Num(x)
  {
    var priceInfo := Get(item, "priceInfo");
    CoalesceAllHead([Get(Get(priceInfo, "currentPrice"), "price"), Get(priceInfo, "currentPrice"),
                     Get(Get(priceInfo, "price"), "price"), Get(Get(priceInfo, "price"), "value"),
                     Get(priceInfo, "price"), Get(Get(item, "price"), "price"),
                     Get(Get(item, "price"), "currentPrice"), Get(item, "currentPrice"),
                     Get(item, "price"), Null]);
  }

  /** A was price under `priceInfo.wasPrice.price` is the original price,
      and a was price above the current price marks the product as on
      clearance. */
  lemma WasPriceMarksDown(item: JsValue, x: real, y: real)
    requires Get(Get(Get(item, "priceInfo"), "currentPrice"), "price") == Num(x)
    requires Get(Get(Get(item, "priceInfo"), "wasPrice"), "price") == Num(y)
    requires MapItemToProduct(item).Some?
    ensures MapItemToProduct(item).value.originalPrice == y
    ensures y > x ==> MapItemToProduct(item).value.clearance
  {
    CurrentPriceChain(item, x);
    WasPriceChain(item, y);
  }

  lemma WasPriceChain(item: JsValue, y: real)
    requires Get(Get(Get(item, "priceInfo"), "wasPrice"), "price") == Num(y)
    ensures ItemOriginal(item) == Num(y)
  {
    var priceInfo := Get(item, "priceInfo");
    CoalesceAllHead([Get(Get(priceInfo, "wasPrice"), "price"), Get(priceInfo, "wasPrice"),
                     Get(Get(priceInfo, "listPrice"), "price"), Get(priceInfo, "listPrice"),
                     Get(priceInfo, "originalPrice"), Get(Get(priceInfo, "price"), "price"),
                     Get(priceInfo, "price"), Get(item, "price"), Null]);
  }

  /** An item with no price field at all is read at price 0, so the final
      merge drops it. */
  lemma PricelessItemUnlisted(item: JsValue)
    requires Nullish(Get(item, "priceInfo")) && Nullish(Get(item, "price")) && Nullish(Get(item, "currentPrice"))
    requires MapItemToProduct(item).Some?
    ensures MapItemToProduct(item).value.price == 0.0
    ensures !Listable(MapItemToProduct(item).value)
  {
    PricelessChain(item);
  }

  lemma PricelessChain(item: JsValue)
    requires Nullish(Get(item, "priceInfo")) && Nullish(Get(item, "price")) && Nullish(Get(item, "currentPrice"))
    ensures ItemPrice(item) == Null
  {
    var priceInfo := Get(item, "priceInfo");
    var chain := [Get(Get(priceInfo, "currentPrice"), "price"), Get(priceInfo, "currentPrice"),
                  Get(Get(priceInfo, "price"), "price"), Get(Get(priceInfo, "price"), "value"),
                  Get(priceInfo, "price"), Get(Get(item, "price"), "price"),
                  Get(Get(item, "price"), "currentPrice"), Get(item, "currentPrice"),
                  Get(item, "price"), Null];
    assert AllNullish(chain);
  }

  // ----------------------------------------------------- extractStackItems

  /** `Array.isArray(node.itemStacks)`. */
  predicate HasItemStacks(node: JsValue)
  {
    Get(node, "itemStacks").Arr?
  }

  /** What a `flatMap` callback result adds: an array's elements, any other
      value as one element. */
  function Spread(v: JsValue): (r: seq<JsValue>)
    ensures v.Arr? ==> r == v.items
    ensures !v.Arr? ==> r == [v]
  {
    if v.Arr? then v.items else [v]
  }

  /** `node => node.itemStacks || []`. */
  function StacksOf(node: JsValue): seq<JsValue>
  {
    Spread(Or(Get(node, "itemStacks"), Arr([])))
  }

  /** `stack => stack.items || []`; `None` when `stack` is null or
      undefined, which throws. */
  function ItemsOf(stack: JsValue): (r: Option<seq<JsValue>>)
    ensures r.None? <==> Nullish(stack)
  {
    if Nullish(stack) then None else Some(Spread(Or(Get(stack, "items"), Arr([]))))
  }

  /** Reading the items fails only at a null or undefined stack. */
  lemma NullStackThrows(stacks: seq<JsValue>)
    requires MapAll(stacks, ItemsOf).None?
    ensures exists i :: 0 <= i < |stacks| && Nullish(stacks[i])
  {
    var i :| 0 <= i < |stacks| && ItemsOf(stacks[i]).None?;
    assert Nullish(stacks[i]);
  }

  /** The nodes `collectByPredicate` finds for the stack test. */
  function StackNodes(data: JsValue): seq<JsValue>
  {
    Take(Filter(PreOrder(data), HasItemStacks), MaxStackNodes)
  }

  /** The stacks of the stack nodes, in order. */
  function Stacks(data: JsValue): seq<JsValue>
  {
    FlatMap(StackNodes(data), StacksOf)
  }

  /** `extractStackItems(data)`: [] for falsy data, otherwise the items of
      every stack of the first ten stack nodes, in order; `None` when a
      stack is null or undefined. */
  function ExtractStackItems(data: JsValue): (r: Option<seq<JsValue>>)
    ensures !Truthy(data) ==> r == Some([])
    ensures Truthy(data) ==> (r.None? <==> exists i :: 0 <= i < |Stacks(data)| && Nullish(Stacks(data)[i]))
  {
    if !Truthy(data) then Some([])
    else
      var stacks := Stacks(data);
      var items := MapAll(stacks, ItemsOf);
      if items.None? then
        NullStackThrows(stacks);
        None
      else
        assert forall i :: 0 <= i < |stacks| ==> ItemsOf(stacks[i]).Some?;
        Some(Flatten(items.value))
  }

  /** The stack nodes are at most ten, each has an `itemStacks` array, and
      they come in the order the walk visits them. */
  lemma StackNodesProperties(data: JsValue)
    ensures var nodes := StackNodes(data);
      && |nodes| <= MaxStackNodes
      && (forall i :: 0 <= i < |nodes| ==> HasItemStacks(nodes[i]))
      && Subseq(nodes, PreOrder(data))
  {
    CollectedProperties(data, HasItemStacks, MaxStackNodes);
  }

  /** A page state that is itself one stack node holding one stack reads as
      exactly that stack's items, when the items are plain values. */
  lemma SingleStack(xs: seq<JsValue>)
    requires forall i :: 0 <= i < |xs| ==> !IsObject(xs[i])
    ensures ExtractStackItems(Obj([Member("itemStacks", Arr([Obj([Member("items", Arr(xs))])]))])) == Some(xs)
  {
    var stack := Obj([Member("items", Arr(xs))]);
    var data := Obj([Member("itemStacks", Arr([stack]))]);
    SingleStackStacks(xs);
    SingleStackMapped(xs);
    FlattenOne(xs);
    assert Truthy(data);
  }

  lemma SingleStackStacks(xs: seq<JsValue>)
    requires forall i :: 0 <= i < |xs| ==> !IsObject(xs[i])
    ensures var stack := Obj([Member("items", Arr(xs))]);
      Stacks(Obj([Member("itemStacks", Arr([stack]))])) == [stack]
  {
    var stack := Obj([Member("items", Arr(xs))]);
    var data := Obj([Member("itemStacks", Arr([stack]))]);
    SingleStackNodes(xs);
    FlatMapSnoc([], data, StacksOf);
    assert [] + [data] == [data];
  }

  lemma SingleStackMapped(xs: seq<JsValue>)
    ensures MapAll([Obj([Member("items", Arr(xs))])], ItemsOf) == Some([xs])
  {
    var stack := Obj([Member("items", Arr(xs))]);
    assert Get(stack, "items") == Arr(xs);
    assert ItemsOf(stack) == Some(xs);
    assert [stack][..0] == [];
    assert MapAll([stack][..0], ItemsOf) == Some([]);
    assert [] + [xs] == [xs];
  }

  lemma FlattenOne(xs: seq<JsValue>)
    ensures Flatten([xs]) == xs
  {
    assert [xs][..0] == [];
  }

  /** The state document is the only stack node of that page state. */
  lemma SingleStackNodes(xs: seq<JsValue>)
    requires forall i :: 0 <= i < |xs| ==> !IsObject(xs[i])
    ensures var data := Obj([Member("itemStacks", Arr([Obj([Member("items", Arr(xs))])]))]);
      StackNodes(data) == [data]
  {
    var stack := Obj([Member("items", Arr(xs))]);
    var stacks := Arr([stack]);
    var data := Obj([Member("itemStacks", stacks)]);
    SingleStackVisits(xs);
    assert HasItemStacks(data);
    assert !HasItemStacks(stacks) && !HasItemStacks(stack) && !HasItemStacks(Arr(xs));
    FilterOnlyFirst(data, stacks, stack, Arr(xs), HasItemStacks);
  }

  /** Of four values, only the first passes. */
  lemma FilterOnlyFirst<T>(a: T, b: T, c: T, d: T, keep: T -> bool)
    requires keep(a) && !keep(b) && !keep(c) && !keep(d)
    ensures Filter([a, b, c, d], keep) == [a]
  {
    FilterSnoc([], a, keep);
    FilterSnoc([a], b, keep);
    FilterSnoc([a, b], c, keep);
    FilterSnoc([a, b, c], d, keep);
    assert [] + [a] == [a];
    assert [a] + [b] == [a, b];
    assert [a, b] + [c] == [a, b, c];
    assert [a, b, c] + [d] == [a, b, c, d];
  }

  /** The walk visits the document, the stack array, the stack and the items
      array, in that order. */
  lemma SingleStackVisits(xs: seq<JsValue>)
    requires forall i :: 0 <= i < |xs| ==> !IsObject(xs[i])
    ensures var stack := Obj([Member("items", Arr(xs))]);
      var data := Obj([Member("itemStacks", Arr([stack]))]);
      PreOrder(data) == [data, Arr([stack]), stack, Arr(xs)]
  {
    var stack := Obj([Member("items", Arr(xs))]);
    var stacks := Arr([stack]);
    PlainValuesNotVisited(xs);
    assert PreOrder(Arr(xs)) == [Arr(xs)];
    assert PreOrderMembers([Member("items", Arr(xs))]) == [Arr(xs)] by {
      assert [Member("items", Arr(xs))][..0] == [];
    }
    assert PreOrderAll([stack]) == [stack, Arr(xs)] by {
      assert [stack][..0] == [];
    }
    assert PreOrderMembers([Member("itemStacks", stacks)]) == [stacks, stack, Arr(xs)] by {
      assert [Member("itemStacks", stacks)][..0] == [];
    }
  }

  /** Plain values are not visited by the walk. */
  lemma {:induction false} PlainValuesNotVisited(xs: seq<JsValue>)
    requires forall i :: 0 <= i < |xs| ==> !IsObject(xs[i])
    ensures PreOrderAll(xs) == []
    decreases |xs|
  {
    if xs != [] {
      PlainValuesNotVisited(xs[..|xs| - 1]);
    }
  }

  // -------------------------------------------------------- mapFromNextData

  /** The test `mapFromNextData` applies to find candidate items. */
  predicate IsCandidate(node: JsValue)
  {
    IsObject(node)
    && Truthy(Get(node, "name"))
    && Truthy(OrAll([Get(node, "priceInfo"), Get(node, "price"), Get(node, "currentPrice")]))
    && Truthy(OrAll([Get(node, "canonicalUrl"), Get(node, "productPageUrl"), Get(node, "productUrl"), Get(node, "usItemId")]))
  }

  /** The candidate items: the first sixty visited nodes that pass. */
  function Candidates(data: JsValue): seq<JsValue>
  {
    Take(Filter(PreOrder(data), IsCandidate), MaxCandidates)
  }

  /** `mapFromNextData(data)`: [] for falsy data, otherwise the products of
      the stack items followed by those of the candidate items; `None` when
      reading or mapping an item throws. */
  function MapFromNextData(data: JsValue): (r: Option<seq<RetailProduct>>)
    ensures !Truthy(data) ==> r == Some([])
    ensures Truthy(data) && r.Some? ==>
      && ExtractStackItems(data).Some?
      && MapAll(ExtractStackItems(data).value, MapItemToProduct).Some?
      && MapAll(Candidates(data), MapItemToProduct).Some?
      && r.value == MapAll(ExtractStackItems(data).value, MapItemToProduct).value
                    + MapAll(Candidates(data), MapItemToProduct).value
  {
    if !Truthy(data) then Some([])
    else
      var stackItems := ExtractStackItems(data);
      if stackItems.None? then None
      else
        var fromStacks := MapAll(stackItems.value, MapItemToProduct);
        var fromCandidates := MapAll(Candidates(data), MapItemToProduct);
        if fromStacks.None? || fromCandidates.None? then None
        else Some(fromStacks.value + fromCandidates.value)
  }

  /** Stack items come first: the first products are those of the stack
      items, one per item, in order; the candidates fill the rest, at most
      sixty of them. */
  lemma StackItemsFirst(data: JsValue)
    requires Truthy(data) && MapFromNextData(data).Some?
    ensures var items := ExtractStackItems(data).value;
      var r := MapFromNextData(data).value;
      && |items| <= |r| <= |items| + MaxCandidates
      && (forall i :: 0 <= i < |items| ==> MapItemToProduct(items[i]) == Some(r[i]))
  {
  }

  // ------------------------------------------------------------------ search

  /** `search(query, { limit })` once the page is read: `nextData` and
      `reduxState` are the page's two state documents (null when absent),
      `ld` and `html` the products read from its LD-JSON blocks and cards.
      The four sources are merged in that order; `None` when mapping one of
      the state documents throws. */
  function Search(nextData: JsValue, reduxState: JsValue, ld: seq<RetailProduct>,
                  html: seq<RetailProduct>, limit: int): (r: Option<seq<RetailProduct>>)
    ensures r.Some? <==> MapFromNextData(nextData).Some? && MapFromNextData(reduxState).Some?
    ensures r.Some? ==> r.value == FinalMerge(MapFromNextData(nextData).value + MapFromNextData(reduxState).value + ld + html, limit)
  {
    var next := MapFromNextData(nextData);
    var redux := MapFromNextData(reduxState);
    if next.None? || redux.None? then None
    else Some(FinalMerge(next.value + redux.value + ld + html, limit))
  }

  /** The merge keeps source order: when the first product of the merged
      sources is listable and has a url or id, it is listed first. */
  lemma FirstSourceFirst(items: seq<RetailProduct>, limit: int)
    requires |items| > 0 && Listable(items[0]) && Truthy(UrlOrId(items[0])) && limit > 0
    ensures |FinalMerge(items, limit)| > 0 && FinalMerge(items, limit)[0] == items[0]
  {
    var head := items[0];
    var rest := items[1..];
    assert items == [head] + rest;
    var keep := HasTruthyKey(UrlOrId);
    FilterConcat([head], rest, keep);
    FilterSnoc([], head, keep);
    assert [] + [head] == [head];
    var truthy := Filter(items, keep);
    assert truthy == [head] + Filter(rest, keep);
    FirstPerKeyConcat([head], Filter(rest, keep), UrlOrId);
    FirstPerKeySnoc([], head, UrlOrId);
    var deduped := Deduped(items, UrlOrId);
    assert deduped[..1] == [head];
    assert deduped == [head] + deduped[1..];
    FilterConcat([head], deduped[1..], Listable);
    FilterSnoc([], head, Listable);
  }

  /** A product in the next-data state wins over a product with the same url
      found in the redux state, LD-JSON or HTML. */
  lemma NextDataWins(nextData: JsValue, reduxState: JsValue, ld: seq<RetailProduct>,
                     html: seq<RetailProduct>, limit: int)
    requires Search(nextData, reduxState, ld, html, limit).Some?
    requires var next := MapFromNextData(nextData).value;
      |next| > 0 && Listable(next[0]) && Truthy(UrlOrId(next[0]))
    requires limit > 0
    ensures var r := Search(nextData, reduxState, ld, html, limit).value;
      |r| > 0 && r[0] == MapFromNextData(nextData).value[0]
  {
    var next := MapFromNextData(nextData).value;
    var items := next + MapFromNextData(reduxState).value + ld + html;
    assert items[0] == next[0];
    FirstSourceFirst(items, limit);
  }

  /** The merged list is listable, has one product per url (or id) and
      holds at most `limit` products. */
  lemma SearchProperties(nextData: JsValue, reduxState: JsValue, ld: seq<RetailProduct>,
                         html: seq<RetailProduct>, limit: int)
    requires Search(nextData, reduxState, ld, html, limit).Some?
    ensures var r := Search(nextData, reduxState, ld, html, limit).value;
      && (forall i :: 0 <= i < |r| ==> Listable(r[i]))
      && DistinctKeys(r, UrlOrId)
      && (limit >= 0 ==> |r| <= limit)
  {
    FinalMergeProperties(MapFromNextData(nextData).value + MapFromNextData(reduxState).value + ld + html, limit);
  }
}
