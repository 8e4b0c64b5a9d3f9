/** The shared normalisation helpers of `scrapers/parse.js`: reading text and
    numbers out of loosely typed JSON, the two product record shapes, the
    de-duplication every adapter's final merge uses, and the pre-order walk
    that collects matching nodes of a JSON tree. */
module Parse {
  import opened Wrappers
  import opened Strings
  import opened Seqs
  import opened JsValues

  // ------------------------------------------------------ safeText / safeNumber

  /** `safeText(value)`: '' for null and undefined, otherwise the trimmed
      `String(value)`. */
  function SafeText(v: JsValue): (r: string)
    ensures Nullish(v) ==> r == ""
    ensures v.Str? ==> r == Trim(v.s)
    ensures |r| > 0 ==> !IsSpace(r[0]) && !IsSpace(r[|r| - 1])
  {
    if Nullish(v) then "" else Trim(ToJsString(v))
  }

  /** Reading a string back through `safeText` changes nothing more. */
  lemma SafeTextIdempotent(v: JsValue)
    ensures SafeText(Str(SafeText(v))) == SafeText(v)
  {
  }

  /** The characters the `/[^0-9.]/g` replacement keeps. */
  predicate NumberChar(c: char)
  {
    IsDigit(c) || c == '.'
  }

  /** `safeNumber(value)`: null for null and undefined, a number unchanged,
      otherwise `parseFloat` of the string with everything but digits and dots
      removed, null when that is empty or not a number. */
  function SafeNumber(v: JsValue): (r: Option<real>)
    ensures Nullish(v) ==> r.None?
    ensures v.Num? ==> r == Some(v.n)
    ensures !v.Num? && r.Some? ==> r.value >= 0.0
  {
    if Nullish(v) then None
    else if v.Num? then Some(v.n)
    else
      var cleaned := KeepChars(ToJsString(v), NumberChar);
      if cleaned == [] then None else ParseDecimal(cleaned)
  }

  /** The number or null an adapter passes on after reading a field with
      `safeNumber`. */
  function NumberOrNull(x: Option<real>): (v: JsValue)
    ensures SafeNumber(v) == x
  {
    if x.Some? then Num(x.value) else Null
  }

  /** A string made only of digits and dots is read by `parseFloat` as it
      stands. */
  lemma SafeNumberOfNumberText(s: string)
    requires |s| > 0 && forall i :: 0 <= i < |s| ==> NumberChar(s[i])
    ensures SafeNumber(Str(s)) == ParseDecimal(s)
  {
    assert KeepChars(s, NumberChar) == s;
  }

  /** Currency signs, commas and other decoration around a whole number are
      ignored: `safeNumber(prefix + digits)` reads the digits. */
  lemma SafeNumberReadsDigits(prefix: string, n: nat)
    requires forall i :: 0 <= i < |prefix| ==> !NumberChar(prefix[i])
    ensures SafeNumber(Str(prefix + NatText(n))) == Some(n as real)
  {
    var digits := NatText(n);
    KeepCharsConcat(prefix, digits, NumberChar);
    assert KeepChars(prefix, NumberChar) == [];
    assert KeepChars(digits, NumberChar) == digits;
    assert KeepChars(prefix + digits, NumberChar) == digits by {
      assert [] + digits == digits;
    }
    ParseDecimalDigits(digits);
    NatTextValue(n);
  }

  // ---------------------------------------------------- hex of the title

  const HexDigits: string := "0123456789abcdef"

  /** The two lower-case hex digits of a byte. */
  function HexByte(b: nat): (r: string)
    requires b < 256
    ensures |r| == 2 && r[0] in HexDigits && r[1] in HexDigits
  {
    [HexDigits[b / 16], HexDigits[b % 16]]
  }

  /** The UTF-8 bytes of one character, as `Buffer.from` writes them. */
  function Utf8(c: char): (bytes: seq<nat>)
    ensures 1 <= |bytes| <= 4 && forall i :: 0 <= i < |bytes| ==> bytes[i] < 256
    ensures (c as int) < 128 ==> bytes == [c as int]
  {
    var n := c as int;
    if n < 0x80 then [n]
    else if n < 0x800 then [0xC0 + n / 0x40, 0x80 + n % 0x40]
    else if n < 0x10000 then [0xE0 + n / 0x1000, 0x80 + (n / 0x40) % 0x40, 0x80 + n % 0x40]
    else [0xF0 + n / 0x40000, 0x80 + (n / 0x1000) % 0x40, 0x80 + (n / 0x40) % 0x40, 0x80 + n % 0x40]
  }

  /** `Buffer.from(s).toString('hex')`. */
  function Hex(s: string): (r: string)
    ensures |r| % 2 == 0
    ensures forall i :: 0 <= i < |r| ==> r[i] in HexDigits
    decreases |s|
  {
    if s == [] then []
    else
      var bytes := Utf8(s[0]);
      var head := HexBytes(bytes);
      var rest := Hex(s[1..]);
      EvenConcat(head, rest, |bytes|);
      head + rest
  }

  lemma EvenConcat(a: string, b: string, k: nat)
    requires |a| == 2 * k && |b| % 2 == 0
    ensures |a + b| % 2 == 0
  {
  }

  function HexBytes(bytes: seq<nat>): (r: string)
    requires forall i :: 0 <= i < |bytes| ==> bytes[i] < 256
    ensures |r| == 2 * |bytes|
    ensures forall i :: 0 <= i < |r| ==> r[i] in HexDigits
    decreases |bytes|
  {
    if bytes == [] then [] else HexByte(bytes[0]) + HexBytes(bytes[1..])
  }

  predicate Ascii(s: string)
  {
    forall i :: 0 <= i < |s| ==> (s[i] as int) < 128
  }

  /** The value of a lower-case hex digit. */
  function HexValue(c: char): (v: nat)
    requires c in HexDigits
    ensures v < 16 && HexDigits[v] == c
  {
    if '0' <= c <= '9' then c as int - '0' as int else c as int - 'a' as int + 10
  }

  /** Reads an ASCII string back from its hex text. */
  function FromHex(h: string): (s: string)
    requires |h| % 2 == 0 && forall i :: 0 <= i < |h| ==> h[i] in HexDigits
    decreases |h|
  {
    if h == [] then [] else [(16 * HexValue(h[0]) + HexValue(h[1])) as char] + FromHex(h[2..])
  }

  /** An ASCII title is encoded two hex digits per character and read back
      unchanged. */
  lemma {:induction false} HexRoundTrip(s: string)
    requires Ascii(s)
    ensures |Hex(s)| == 2 * |s|
    ensures FromHex(Hex(s)) == s
    decreases |s|
  {
    if s != [] {
      var tail := s[1..];
      AsciiTail(s);
      HexRoundTrip(tail);
      var b := s[0] as int;
      HexAsciiCons(s);
      HexByteValue(b);
      FromHexCons(HexByte(b), Hex(tail), |tail|);
      assert s == [b as char] + tail;
    }
  }

  lemma AsciiTail(s: string)
    requires s != [] && Ascii(s)
    ensures Ascii(s[1..])
  {
    var tail := s[1..];
    forall i | 0 <= i < |tail| ensures (tail[i] as int) < 128 {
      assert tail[i] == s[i + 1];
    }
  }

  /** Two hex digits in front read back as one character in front. */
  lemma FromHexCons(head: string, rest: string, pairs: nat)
    requires |head| == 2 && head[0] in HexDigits && head[1] in HexDigits
    requires |rest| == 2 * pairs && forall i :: 0 <= i < |rest| ==> rest[i] in HexDigits
    ensures forall i :: 0 <= i < |head + rest| ==> (head + rest)[i] in HexDigits
    ensures FromHex(head + rest) == [(16 * HexValue(head[0]) + HexValue(head[1])) as char] + FromHex(rest)
  {
    var h := head + rest;
    assert forall i :: 0 <= i < |h| ==> h[i] in HexDigits by {
      forall i | 0 <= i < |h| ensures h[i] in HexDigits {
        if i >= 2 { assert h[i] == rest[i - 2]; }
      }
    }
    assert h[2..] == rest;
  }

  /** An ASCII character is one byte, so two hex digits. */
  lemma HexAsciiCons(s: string)
    requires s != [] && (s[0] as int) < 128
    ensures Hex(s) == HexByte(s[0] as int) + Hex(s[1..])
  {
    var bytes := Utf8(s[0]);
    assert bytes == [s[0] as int];
    HexBytesOne(bytes);
  }

  lemma HexBytesOne(bytes: seq<nat>)
    requires |bytes| == 1 && bytes[0] < 256
    ensures HexBytes(bytes) == HexByte(bytes[0])
  {
    assert bytes[1..] == [];
  }

  /** The two digits of a byte read back as that byte. */
  lemma HexByteValue(b: nat)
    requires b < 256
    ensures 16 * HexValue(HexByte(b)[0]) + HexValue(HexByte(b)[1]) == b
  {
    HexDigitValue(b / 16);
    HexDigitValue(b % 16);
  }

  lemma HexDigitValue(d: nat)
    requires d < 16
    ensures HexValue(HexDigits[d]) == d
  {
  }

  // ------------------------------------------------- normalizeRetailProduct

  /** The destructured argument of `normalizeRetailProduct`; `Undefined`
      stands for a missing field. */
  datatype RetailInput = RetailInput(
    id: JsValue,
    title: JsValue,
    retailer: JsValue,
    price: JsValue,
    originalPrice: JsValue,
    url: JsValue,
    image: JsValue,
    clearance: JsValue,
    stock: JsValue,
    upc: JsValue)

  /** The retail product record every adapter returns. */
  datatype RetailProduct = RetailProduct(
    id: JsValue,
    title: string,
    retailer: JsValue,
    price: real,
    originalPrice: real,
    url: string,
    image: string,
    clearance: bool,
    stock: JsValue,
    upc: JsValue)

  /** A destructuring default: it applies to `undefined` only. */
  function Default(v: JsValue, d: JsValue): (r: JsValue)
    ensures v.Undefined? ==> r == d
    ensures !v.Undefined? ==> r == v
  {
    if v.Undefined? then d else v
  }

  /** The fallback id `${retailer}-<hex of the first 32 title characters>`. */
  function FallbackId(retailer: JsValue, title: JsValue): string
  {
    var text := if Truthy(title) && title.Str? then title.s else "";
    ToJsString(retailer) + "-" + Hex(JsSlice(text, 32))
  }

  function NormalizeRetailProduct(input: RetailInput): (p: RetailProduct)
    ensures p.price == SafeNumber(input.price).GetOr(0.0)
    ensures p.originalPrice == SafeNumber(input.originalPrice).GetOr(p.price)
    ensures p.clearance <==> Truthy(input.clearance) || p.originalPrice > p.price
    ensures Truthy(input.stock) ==> p.stock == input.stock
    ensures !Truthy(input.stock) ==> p.stock == Str("Unknown")
    ensures Truthy(input.upc) ==> p.upc == input.upc
    ensures !Truthy(input.upc) ==> p.upc == Null
    ensures Truthy(input.id) ==> p.id == input.id
    ensures !Truthy(input.id) ==> p.id == Str(FallbackId(input.retailer, input.title))
    ensures p.title == SafeText(input.title) && p.url == SafeText(input.url) && p.image == SafeText(input.image)
    ensures p.retailer == input.retailer
  {
    var clearance := Default(input.clearance, Bool(false));
    var stock := Default(input.stock, Str("Unknown"));
    var upc := Default(input.upc, Null);
    var price := SafeNumber(input.price).GetOr(0.0);
    var original := SafeNumber(input.originalPrice).GetOr(price);
    RetailProduct(
      Or(input.id, Str(FallbackId(input.retailer, input.title))),
      SafeText(input.title),
      input.retailer,
      price,
      original,
      SafeText(input.url),
      SafeText(input.image),
      Truthy(clearance) || original > price,
      Or(stock, Str("Unknown")),
      Or(upc, Null))
  }

  /** A product with no original price is on clearance only when flagged. */
  lemma NoOriginalNoMarkdown(input: RetailInput)
    requires Nullish(input.originalPrice)
    ensures NormalizeRetailProduct(input).originalPrice == NormalizeRetailProduct(input).price
    ensures NormalizeRetailProduct(input).clearance <==> Truthy(input.clearance)
  {
  }

  // ------------------------------------------------- normalizeAmazonResult

  datatype AmazonInput = AmazonInput(
    asin: JsValue,
    title: JsValue,
    price: JsValue,
    url: JsValue,
    image: JsValue,
    rating: JsValue,
    reviews: JsValue,
    salesRank: JsValue)

  datatype AmazonResult = AmazonResult(
    asin: string,
    title: string,
    price: Option<real>,
    url: string,
    image: string,
    rating: Option<real>,
    reviews: Option<real>,
    salesRank: Option<real>)

  /** No white space at either end. */
  predicate Trimmed(s: string)
  {
    |s| > 0 ==> !IsSpace(s[0]) && !IsSpace(s[|s| - 1])
  }

  /** A value `safeNumber` may return for an input that is not a number. */
  predicate NonNegativeOrNull(x: Option<real>)
  {
    x.Some? ==> x.value >= 0.0
  }

  /** A text field as `safeText` leaves it: trimmed, a string input trimmed
      to itself and a null or undefined input empty. */
  predicate TextField(input: JsValue, r: string)
  {
    Trimmed(r) && (input.Str? ==> r == Trim(input.s)) && (Nullish(input) ==> r == "")
  }

  /** A numeric field as `safeNumber` leaves it: a number passes, null and
      undefined give null, and anything else gives null or a value >= 0. */
  predicate NumberField(input: JsValue, r: Option<real>)
  {
    (input.Num? ==> r == Some(input.n)) && (Nullish(input) ==> r.None?) && (!input.Num? ==> NonNegativeOrNull(r))
  }

  /** `normalizeAmazonResult(...)`: every text field through `safeText` and
      every numeric field through `safeNumber`. */
  function NormalizeAmazonResult(input: AmazonInput): (r: AmazonResult)
    ensures TextField(input.asin, r.asin) && TextField(input.title, r.title)
    ensures TextField(input.url, r.url) && TextField(input.image, r.image)
    ensures NumberField(input.price, r.price) && NumberField(input.rating, r.rating)
    ensures NumberField(input.reviews, r.reviews) && NumberField(input.salesRank, r.salesRank)
  {
    AmazonResult(
      SafeText(input.asin),
      SafeText(input.title),
      SafeNumber(input.price),
      SafeText(input.url),
      SafeText(input.image),
      SafeNumber(input.rating),
      SafeNumber(input.reviews),
      SafeNumber(input.salesRank))
  }

  // ------------------------------------------------------------ dedupeBy

  /** The test `dedupeBy` applies before looking a key up: the key is truthy. */
  function HasTruthyKey<T>(keyFn: T -> JsValue): T -> bool
  {
    (item: T) => Truthy(keyFn(item))
  }

  /** What `dedupeBy(items, keyFn)` returns: the items whose key is truthy,
      the first one per key, in input order. */
  function Deduped<T(==)>(items: seq<T>, keyFn: T -> JsValue): seq<T>
  {
    FirstPerKey(Filter(items, HasTruthyKey(keyFn)), keyFn)
  }

  /** The loop of `dedupeBy`, with the `seen` set of keys. */
  method DedupeBy<T(==)>(items: seq<T>, keyFn: T -> JsValue) returns (results: seq<T>)
    ensures results == Deduped(items, keyFn)
  {
    var keep := HasTruthyKey(keyFn);
    var seen: set<JsValue> := {};
    results := [];
    for i := 0 to |items|
      invariant results == FirstPerKey(Filter(items[..i], keep), keyFn)
      invariant seen == KeySet(Filter(items[..i], keep), keyFn)
    {
      var item := items[i];
      var key := keyFn(item);
      ghost var kept := Filter(items[..i], keep);
      assert items[..i + 1] == items[..i] + [item];
      FilterSnoc(items[..i], item, keep);
      if !Truthy(key) {
        assert Filter(items[..i + 1], keep) == kept + [] == kept;
        continue;
      }
      assert Filter(items[..i + 1], keep) == kept + [item];
      FirstPerKeySnoc(kept, item, keyFn);
      KeySetSnoc(kept, item, keyFn);
      if key in seen {
        assert FirstPerKey(kept + [item], keyFn) == results + [] == results;
        continue;
      }
      seen := seen + {key};
      results := results + [item];
    }
    assert items[..|items|] == items;
  }

  /** The result keeps input order, has only truthy keys, each once, and
      every truthy key of the input is represented. */
  lemma DedupedProperties<T>(items: seq<T>, keyFn: T -> JsValue)
    ensures Subseq(Deduped(items, keyFn), items)
    ensures forall i :: 0 <= i < |Deduped(items, keyFn)| ==> Truthy(keyFn(Deduped(items, keyFn)[i]))
    ensures DistinctKeys(Deduped(items, keyFn), keyFn)
    ensures KeySet(Deduped(items, keyFn), keyFn) == KeySet(Filter(items, HasTruthyKey(keyFn)), keyFn)
  {
    var keep := HasTruthyKey(keyFn);
    var kept := Filter(items, keep);
    FilterSubseq(items, keep);
    FirstPerKeySubseq(kept, keyFn);
    SubseqTrans(Deduped(items, keyFn), kept, items);
    FirstPerKeyProperties(kept, keyFn);
  }

  // ------------------------------------------------- collectByPredicate

  /** The nodes `walkObject` visits, in visiting order: an array or object
      node, then (pre-order) the nodes under its elements or member values;
      primitives and null are not visited. */
  function PreOrder(node: JsValue): seq<JsValue>
    decreases node, 2
  {
    match node
    case Arr(items) => [node] + PreOrderAll(items)
    case Obj(members) => [node] + PreOrderMembers(members)
    case _ => []
  }

  function PreOrderAll(children: seq<JsValue>): seq<JsValue>
    decreases children, 1
  {
    if children == [] then [] else PreOrderAll(children[..|children| - 1]) + PreOrder(children[|children| - 1])
  }

  function PreOrderMembers(members: seq<Member>): seq<JsValue>
    decreases members, 1
  {
    if members == [] then [] else PreOrderMembers(members[..|members| - 1]) + PreOrder(members[|members| - 1].value)
  }

  /** `collectByPredicate(data, pred, limit)`: the first `limit` visited
      nodes that satisfy the predicate. */
  method CollectByPredicate(data: JsValue, pred: JsValue -> bool, limit: int) returns (results: seq<JsValue>)
    ensures results == Take(Filter(PreOrder(data), pred), limit)
  {
    results := Walk(data, pred, limit, []);
    WalkedFromEmpty(results, Filter(PreOrder(data), pred), limit);
  }

  lemma WalkedFromEmpty<T>(out: seq<T>, passed: seq<T>, limit: int)
    requires out == [] + Take(passed, limit - 0)
    ensures out == Take(passed, limit)
  {
  }

  /** `walkObject(node, visitor)` with the visitor of `collectByPredicate`,
      starting from the results collected so far: the visitor pushes a node
      that passes while fewer than `limit` results are held. */
  method Walk(node: JsValue, pred: JsValue -> bool, limit: int, acc: seq<JsValue>) returns (out: seq<JsValue>)
    ensures out == acc + Take(Filter(PreOrder(node), pred), limit - |acc|)
    decreases node, 2
  {
    if !IsObject(node) {
      assert Filter(PreOrder(node), pred) == [];
      return acc + [];
    }
    var mid := acc + (if |acc| < limit && pred(node) then [node] else []);
    if node.Arr? {
      out := WalkAll(node.items, pred, limit, mid);
    } else {
      out := WalkMembers(node.members, pred, limit, mid);
    }
    VisitStep(acc, node, pred, limit, mid, out);
  }

  /** The visitor's step on an array or object node, followed by the walk of
      its children. */
  lemma VisitStep(acc: seq<JsValue>, node: JsValue, pred: JsValue -> bool, limit: int, mid: seq<JsValue>, out: seq<JsValue>)
    requires IsObject(node)
    requires mid == acc + (if |acc| < limit && pred(node) then [node] else [])
    requires out == mid + Take(Filter(PreOrder(node)[1..], pred), limit - |mid|)
    ensures out == acc + Take(Filter(PreOrder(node), pred), limit - |acc|)
  {
    var rest := PreOrder(node)[1..];
    assert PreOrder(node) == [node] + rest;
    FirstStep(acc, node, rest, pred, limit, mid, out);
  }

  lemma FirstStep<T>(acc: seq<T>, x: T, rest: seq<T>, pred: T -> bool, limit: int, mid: seq<T>, out: seq<T>)
    requires mid == acc + (if |acc| < limit && pred(x) then [x] else [])
    requires out == mid + Take(Filter(rest, pred), limit - |mid|)
    ensures out == acc + Take(Filter([x] + rest, pred), limit - |acc|)
  {
    assert Filter([x], pred) == Filter([], pred) + (if pred(x) then [x] else []);
    FilterConcat([x], rest, pred);
    TakeSteps(acc, mid, Filter([x], pred), Filter(rest, pred), limit, out);
  }

  /** `node.forEach(child => walkObject(child, visitor))`. */
  method WalkAll(children: seq<JsValue>, pred: JsValue -> bool, limit: int, acc: seq<JsValue>) returns (out: seq<JsValue>)
    ensures out == acc + Take(Filter(PreOrderAll(children), pred), limit - |acc|)
    decreases children, 1
  {
    out := acc;
    for i := 0 to |children|
      invariant out == acc + Take(Filter(PreOrderAll(children[..i]), pred), limit - |acc|)
    {
      var before := out;
      out := Walk(children[i], pred, limit, before);
      assert children[..i + 1][..i] == children[..i];
      TakeFilterSteps(acc, before, PreOrderAll(children[..i]), PreOrder(children[i]), pred, limit, out);
    }
    assert children[..|children|] == children;
  }

  /** `Object.values(node).forEach(child => walkObject(child, visitor))`. */
  method WalkMembers(members: seq<Member>, pred: JsValue -> bool, limit: int, acc: seq<JsValue>) returns (out: seq<JsValue>)
    ensures out == acc + Take(Filter(PreOrderMembers(members), pred), limit - |acc|)
    decreases members, 1
  {
    out := acc;
    for i := 0 to |members|
      invariant out == acc + Take(Filter(PreOrderMembers(members[..i]), pred), limit - |acc|)
    {
      var before := out;
      out := Walk(members[i].value, pred, limit, before);
      assert members[..i + 1][..i] == members[..i];
      TakeFilterSteps(acc, before, PreOrderMembers(members[..i]), PreOrder(members[i].value), pred, limit, out);
    }
    assert members[..|members|] == members;
  }

  /** Collecting from `xs` and then from `ys` is collecting from `xs + ys`. */
  lemma TakeFilterSteps(acc: seq<JsValue>, mid: seq<JsValue>, xs: seq<JsValue>, ys: seq<JsValue>,
                        pred: JsValue -> bool, limit: int, out: seq<JsValue>)
    requires mid == acc + Take(Filter(xs, pred), limit - |acc|)
    requires out == mid + Take(Filter(ys, pred), limit - |mid|)
    ensures out == acc + Take(Filter(xs + ys, pred), limit - |acc|)
  {
    FilterConcat(xs, ys, pred);
    TakeSteps(acc, mid, Filter(xs, pred), Filter(ys, pred), limit, out);
  }

  lemma TakeSteps<T>(acc: seq<T>, mid: seq<T>, a: seq<T>, b: seq<T>, limit: int, out: seq<T>)
    requires mid == acc + Take(a, limit - |acc|)
    requires out == mid + Take(b, limit - |mid|)
    ensures out == acc + Take(a + b, limit - |acc|)
  {
    var n := limit - |acc|;
    TakeConcat(a, b, n);
    assert (acc + Take(a, n)) + Take(b, n - |Take(a, n)|) == acc + (Take(a, n) + Take(b, n - |Take(a, n)|));
  }

  lemma TakeConcat<T>(a: seq<T>, b: seq<T>, n: int)
    ensures Take(a + b, n) == Take(a, n) + Take(b, n - |Take(a, n)|)
  {
    if n <= 0 {
    } else if n <= |a| {
      assert (a + b)[..n] == a[..n];
    } else {
      assert (a + b)[..|a|] == a;
      if n - |a| < |b| {
        assert (a + b)[..n] == a + b[..n - |a|];
      }
    }
  }

  /** At most `limit` nodes, each satisfying the predicate, in visiting
      order. */
  lemma CollectedProperties(data: JsValue, pred: JsValue -> bool, limit: int)
    ensures |Take(Filter(PreOrder(data), pred), limit)| <= if limit < 0 then 0 else limit
    ensures forall i :: 0 <= i < |Take(Filter(PreOrder(data), pred), limit)| ==>
      pred(Take(Filter(PreOrder(data), pred), limit)[i])
    ensures Subseq(Take(Filter(PreOrder(data), pred), limit), PreOrder(data))
  {
    var f := Filter(PreOrder(data), pred);
    var t := Take(f, limit);
    FilterSubseq(PreOrder(data), pred);
    PrefixSubseq(f, |t|);
    SubseqTrans(t, f, PreOrder(data));
  }

  lemma {:induction false} PrefixSubseq<T>(s: seq<T>, n: nat)
    requires n <= |s|
    ensures Subseq(s[..n], s)
    decreases |s|
  {
    if n == |s| {
      SubseqRefl(s);
      assert s[..n] == s;
    } else {
      PrefixSubseq(s[..|s| - 1], n);
      assert s[..|s| - 1][..n] == s[..n];
    }
  }
}
