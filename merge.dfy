/** The post-fetch merge every retailer adapter ends its HTML path with:
    de-duplicate by url (or id), keep the listable products, truncate. */
module Merge {
  import opened Seqs
  import opened JsValues
  import opened Parse

  /** `item.url || item.id`. */
  function UrlOrId(item: RetailProduct): JsValue
  {
    Or(Str(item.url), item.id)
  }

  /** `item.title && item.price > 0`. */
  predicate Listable(item: RetailProduct)
  {
    item.title != "" && item.price > 0.0
  }

  /** `dedupeBy(items, urlOrId).filter(listable).slice(0, limit)`. */
  function FinalMerge(items: seq<RetailProduct>, limit: int): seq<RetailProduct>
  {
    JsSlice(Filter(Deduped(items, UrlOrId), Listable), limit)
  }

  /** The merged list is listable, has one product per url (or id), keeps
      the input order and holds at most `limit` products. */
  lemma FinalMergeProperties(items: seq<RetailProduct>, limit: int)
    ensures var r := FinalMerge(items, limit);
      && (forall i :: 0 <= i < |r| ==> Listable(r[i]) && Truthy(UrlOrId(r[i])))
      && DistinctKeys(r, UrlOrId)
      && Subseq(r, items)
      && (limit >= 0 ==> |r| <= limit)
  {
    var deduped := Deduped(items, UrlOrId);
    var kept := Filter(deduped, Listable);
    var r := FinalMerge(items, limit);
    DedupedProperties(items, UrlOrId);
    FilterSubseq(deduped, Listable);
    SubseqTrans(kept, deduped, items);
    PrefixSubseq(kept, |r|);
    SubseqTrans(r, kept, items);
    forall i | 0 <= i < |r| ensures Listable(r[i]) && Truthy(UrlOrId(r[i])) {
      assert r[i] == kept[i];
      assert kept[i] in deduped;
    }
    SubseqDistinctKeys(kept, deduped);
    forall i, j | 0 <= i < j < |r| ensures UrlOrId(r[i]) != UrlOrId(r[j]) {
      assert r[i] == kept[i] && r[j] == kept[j];
    }
  }

  /** Keys stay distinct in a subsequence. */
  lemma {:induction false} SubseqDistinctKeys(a: seq<RetailProduct>, b: seq<RetailProduct>)
    requires Subseq(a, b) && DistinctKeys(b, UrlOrId)
    ensures DistinctKeys(a, UrlOrId)
    decreases |b|
  {
    if a != [] {
      var b' := b[..|b| - 1];
      assert DistinctKeys(b', UrlOrId) by {
        forall i, j | 0 <= i < j < |b'| ensures UrlOrId(b'[i]) != UrlOrId(b'[j]) {
          assert b'[i] == b[i] && b'[j] == b[j];
        }
      }
      if a[|a| - 1] == b[|b| - 1] && Subseq(a[..|a| - 1], b') {
        var a' := a[..|a| - 1];
        SubseqDistinctKeys(a', b');
        forall i | 0 <= i < |a'| ensures UrlOrId(a'[i]) != UrlOrId(a[|a| - 1]) {
          SubseqMember(a', b', i);
          var k :| 0 <= k < |b'| && b'[k] == a'[i];
          assert b[k] == b'[k];
        }
        forall i, j | 0 <= i < j < |a| ensures UrlOrId(a[i]) != UrlOrId(a[j]) {
          if j < |a| - 1 {
            assert a[i] == a'[i] && a[j] == a'[j];
          } else {
            assert a[i] == a'[i];
          }
        }
      } else {
        SubseqDistinctKeys(a, b');
      }
    }
  }

  /** An element of a subsequence is an element of the sequence. */
  lemma {:induction false} SubseqMember<T>(a: seq<T>, b: seq<T>, i: int)
    requires Subseq(a, b) && 0 <= i < |a|
    ensures exists k :: 0 <= k < |b| && b[k] == a[i]
    decreases |b|
  {
    var b' := b[..|b| - 1];
    if a[|a| - 1] == b[|b| - 1] && Subseq(a[..|a| - 1], b') {
      if i < |a| - 1 {
        SubseqMember(a[..|a| - 1], b', i);
        var k :| 0 <= k < |b'| && b'[k] == a[..|a| - 1][i];
        assert b[k] == b'[k];
      } else {
        assert b[|b| - 1] == a[i];
      }
    } else {
      SubseqMember(a, b', i);
      var k :| 0 <= k < |b'| && b'[k] == a[i];
      assert b[k] == b'[k];
    }
  }

  /** Every product built by `normalizeRetailProduct` has a truthy merge key:
      its url, or else its id, which falls back to a non-empty text. */
  lemma NormalizedKeyTruthy(input: RetailInput)
    ensures Truthy(UrlOrId(NormalizeRetailProduct(input)))
  {
    var p := NormalizeRetailProduct(input);
    if p.url == "" && !Truthy(input.id) {
      var fallback := FallbackId(input.retailer, input.title);
      assert fallback[|ToJsString(input.retailer)|] == '-';
    }
  }

  /** De-duplication runs before the filter: an unlistable product hides a
      later listable one with the same url. */
  lemma UnlistableFirstHidesDuplicate(a: RetailProduct, b: RetailProduct, limit: int)
    requires a.url != "" && a.url == b.url && !Listable(a) && Listable(b) && limit > 0
    ensures FinalMerge([a, b], limit) == []
  {
    var keep := HasTruthyKey(UrlOrId);
    assert [] + [a] == [a] && [a] + [b] == [a, b];
    FilterSnoc([], a, keep);
    FilterSnoc([a], b, keep);
    FirstPerKeySnoc([], a, UrlOrId);
    FirstPerKeySnoc([a], b, UrlOrId);
    assert [a][0] == a;
    assert UrlOrId(b) in KeySet([a], UrlOrId);
    assert Deduped([a, b], UrlOrId) == [a];
    FilterSnoc([], a, Listable);
  }
}
