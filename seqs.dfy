/** Generic list operations the source performs with JavaScript array methods
    (`filter`, `map`, `slice`, `flatMap`) and with Set-based de-duplication. */
module Seqs {

  /** `s.filter(keep)`: the elements that pass, in their original order. */
  function Filter<T(==)>(s: seq<T>, keep: T -> bool): (r: seq<T>)
    ensures |r| <= |s|
    ensures forall i :: 0 <= i < |r| ==> r[i] in s && keep(r[i])
    ensures forall i :: 0 <= i < |s| && keep(s[i]) ==> s[i] in r
    decreases |s|
  {
    if s == [] then []
    else Filter(s[..|s| - 1], keep) + (if keep(s[|s| - 1]) then [s[|s| - 1]] else [])
  }

  lemma {:induction false} FilterConcat<T>(a: seq<T>, b: seq<T>, keep: T -> bool)
    ensures Filter(a + b, keep) == Filter(a, keep) + Filter(b, keep)
    decreases |b|
  {
    if b == [] {
      assert a + b == a;
    } else {
      var b' := b[..|b| - 1];
      assert (a + b)[..|a + b| - 1] == a + b';
      FilterConcat(a, b', keep);
    }
  }

  /** `s.map(f)`. */
  function Map<T, U>(s: seq<T>, f: T -> U): (r: seq<U>)
    ensures |r| == |s| && forall i :: 0 <= i < |s| ==> r[i] == f(s[i])
  {
    seq(|s|, i requires 0 <= i < |s| => f(s[i]))
  }

  /** `[].concat(...ss)`: the lists one after another. */
  function Flatten<T>(ss: seq<seq<T>>): (r: seq<T>)
    decreases |ss|
  {
    if ss == [] then [] else Flatten(ss[..|ss| - 1]) + ss[|ss| - 1]
  }

  /** `[y for x in s for y in f(x)]`: the lists `f` gives for the elements
      of `s`, one after another. */
  function FlatMap<T, U>(s: seq<T>, f: T -> seq<U>): seq<U>
    decreases |s|
  {
    if s == [] then [] else FlatMap(s[..|s| - 1], f) + f(s[|s| - 1])
  }

  lemma FlatMapSnoc<T, U>(s: seq<T>, x: T, f: T -> seq<U>)
    ensures FlatMap(s + [x], f) == FlatMap(s, f) + f(x)
  {
    assert (s + [x])[..|s|] == s;
  }

  lemma {:induction false} FlatMapConcat<T, U>(a: seq<T>, b: seq<T>, f: T -> seq<U>)
    ensures FlatMap(a + b, f) == FlatMap(a, f) + FlatMap(b, f)
    decreases |b|
  {
    if b == [] {
      assert a + b == a;
    } else {
      var b' := b[..|b| - 1];
      assert (a + b)[..|a + b| - 1] == a + b';
      FlatMapConcat(a, b', f);
    }
  }

  /** The first `n` elements (all of them when `n >= |s|`, none when `n <= 0`). */
  function Take<T>(s: seq<T>, n: int): (r: seq<T>)
    ensures |r| == if n <= 0 then 0 else if n < |s| then n else |s|
    ensures r == s[..|r|]
  {
    if n <= 0 then [] else if n < |s| then s[..n] else s
  }

  /** `s.slice(0, end)` with JavaScript's rule that a negative end counts
      back from the end of the array. */
  function JsSlice<T>(s: seq<T>, end: int): (r: seq<T>)
    ensures |r| <= |s| && r == s[..|r|]
    ensures 0 <= end ==> r == Take(s, end)
    ensures end < 0 ==> |r| == if |s| + end < 0 then 0 else |s| + end
  {
    var stop := if end < 0 then (if |s| + end < 0 then 0 else |s| + end)
                else if end < |s| then end else |s|;
    s[..stop]
  }

  /** The elements of `s` as a set. */
  function Elems<T>(s: seq<T>): set<T>
  {
    set i | 0 <= i < |s| :: s[i]
  }

  lemma ElemsSnoc<T>(s: seq<T>, x: T)
    ensures Elems(s + [x]) == Elems(s) + {x}
  {
    var t := s + [x];
    forall y | y in Elems(t) ensures y in Elems(s) + {x} {
      var i :| 0 <= i < |t| && t[i] == y;
      if i < |s| { assert t[i] == s[i]; }
    }
    forall y | y in Elems(s) + {x} ensures y in Elems(t) {
      if y in Elems(s) {
        var i :| 0 <= i < |s| && s[i] == y;
        assert t[i] == s[i];
      } else {
        assert t[|s|] == x;
      }
    }
  }

  /** A sequence without repetitions has as many elements as its set. */
  lemma {:induction false} DistinctCard<T>(s: seq<T>)
    requires Distinct(s)
    ensures |Elems(s)| == |s|
    decreases |s|
  {
    if s != [] {
      var init := s[..|s| - 1];
      var last := s[|s| - 1];
      assert s == init + [last];
      DistinctCard(init);
      ElemsSnoc(init, last);
      forall i | 0 <= i < |init| ensures init[i] != last {
        assert init[i] == s[i];
      }
    }
  }

  /** The set of keys of the elements of `s`. */
  function KeySet<T, K(==)>(s: seq<T>, key: T -> K): set<K>
  {
    set i | 0 <= i < |s| :: key(s[i])
  }

  /** De-duplication through a `seen` set: an element is kept exactly when no
      earlier element has the same key, and the kept elements stay in order. */
  function FirstPerKey<T, K(==)>(s: seq<T>, key: T -> K): (r: seq<T>)
    decreases |s|
  {
    if s == [] then []
    else
      var init := s[..|s| - 1];
      FirstPerKey(init, key) + (if key(s[|s| - 1]) in KeySet(init, key) then [] else [s[|s| - 1]])
  }

  /** Keys of `s` are pairwise distinct. */
  predicate DistinctKeys<T, K(==)>(s: seq<T>, key: T -> K)
  {
    forall i, j :: 0 <= i < j < |s| ==> key(s[i]) != key(s[j])
  }

  /** Elements of `s` are pairwise distinct. */
  predicate Distinct<T(==)>(s: seq<T>)
  {
    forall i, j :: 0 <= i < j < |s| ==> s[i] != s[j]
  }

  lemma KeySetSnoc<T, K>(s: seq<T>, x: T, key: T -> K)
    ensures KeySet(s + [x], key) == KeySet(s, key) + {key(x)}
  {
    var t := s + [x];
    forall k | k in KeySet(t, key) ensures k in KeySet(s, key) + {key(x)} {
      var i :| 0 <= i < |t| && key(t[i]) == k;
      if i < |s| { assert t[i] == s[i]; }
    }
    forall k | k in KeySet(s, key) + {key(x)} ensures k in KeySet(t, key) {
      if k in KeySet(s, key) {
        var i :| 0 <= i < |s| && key(s[i]) == k;
        assert t[i] == s[i];
      } else {
        assert t[|s|] == x;
      }
    }
  }

  /** What the de-duplicated list holds: the same set of keys as the input,
      each exactly once, every element taken from the input. */
  lemma {:induction false} FirstPerKeyProperties<T, K>(s: seq<T>, key: T -> K)
    ensures KeySet(FirstPerKey(s, key), key) == KeySet(s, key)
    ensures DistinctKeys(FirstPerKey(s, key), key)
    ensures forall i :: 0 <= i < |FirstPerKey(s, key)| ==> FirstPerKey(s, key)[i] in s
    decreases |s|
  {
    if s != [] {
      var init := s[..|s| - 1];
      var last := s[|s| - 1];
      assert s == init + [last];
      FirstPerKeyProperties(init, key);
      var p := FirstPerKey(init, key);
      KeySetSnoc(init, last, key);
      if key(last) in KeySet(init, key) {
        assert FirstPerKey(s, key) == p + [];
        assert p + [] == p;
      } else {
        KeySetSnoc(p, last, key);
        var r := p + [last];
        forall i, j | 0 <= i < j < |r| ensures key(r[i]) != key(r[j]) {
          if j == |p| {
            assert r[i] == p[i];
            assert key(p[i]) in KeySet(p, key);
          } else {
            assert r[i] == p[i] && r[j] == p[j];
          }
        }
      }
    }
  }

  /** The element kept for a key is the first element of the input with that
      key: an element is kept when no earlier element shares its key. */
  lemma {:induction false} FirstPerKeyKeepsFirst<T, K>(s: seq<T>, key: T -> K, i: int)
    requires 0 <= i < |s|
    requires forall j :: 0 <= j < i ==> key(s[j]) != key(s[i])
    ensures s[i] in FirstPerKey(s, key)
    decreases |s|
  {
    var init := s[..|s| - 1];
    if i < |s| - 1 {
      assert init[i] == s[i];
      forall j | 0 <= j < i ensures key(init[j]) != key(init[i]) { assert init[j] == s[j]; }
      FirstPerKeyKeepsFirst(init, key, i);
    } else {
      forall j | 0 <= j < |init| ensures key(init[j]) != key(s[i]) { assert init[j] == s[j]; }
    }
  }

  lemma {:induction false} FirstPerKeyConcat<T, K>(a: seq<T>, b: seq<T>, key: T -> K)
    ensures |FirstPerKey(a + b, key)| >= |FirstPerKey(a, key)|
    ensures FirstPerKey(a + b, key)[..|FirstPerKey(a, key)|] == FirstPerKey(a, key)
    decreases |b|
  {
    if b == [] {
      assert a + b == a;
    } else {
      var b' := b[..|b| - 1];
      assert (a + b)[..|a + b| - 1] == a + b';
      FirstPerKeyConcat(a, b', key);
    }
  }

  /** `a` is `b` with some elements deleted: the order of `b` is kept. */
  predicate Subseq<T(==)>(a: seq<T>, b: seq<T>)
    decreases |b|
  {
    if a == [] then true
    else if b == [] then false
    else (a[|a| - 1] == b[|b| - 1] && Subseq(a[..|a| - 1], b[..|b| - 1])) || Subseq(a, b[..|b| - 1])
  }

  /** Concatenation is associative. */
  lemma ConcatAssoc<T>(a: seq<T>, b: seq<T>, c: seq<T>)
    ensures a + (b + c) == (a + b) + c
  {
  }

  lemma SubseqRefl<T>(a: seq<T>)
    ensures Subseq(a, a)
    decreases |a|
  {
    if a != [] { SubseqRefl(a[..|a| - 1]); }
  }

  /** Keeping order is transitive. */
  lemma {:induction false} SubseqTrans<T>(a: seq<T>, b: seq<T>, c: seq<T>)
    requires Subseq(a, b) && Subseq(b, c)
    ensures Subseq(a, c)
    decreases |c|
  {
    if a != [] {
      var c' := c[..|c| - 1];
      if b[|b| - 1] == c[|c| - 1] && Subseq(b[..|b| - 1], c') {
        if a[|a| - 1] == b[|b| - 1] && Subseq(a[..|a| - 1], b[..|b| - 1]) {
          SubseqTrans(a[..|a| - 1], b[..|b| - 1], c');
        } else {
          SubseqTrans(a, b[..|b| - 1], c');
        }
      } else {
        SubseqTrans(a, b, c');
      }
    }
  }

  /** Filtering keeps the order of the input. */
  lemma {:induction false} FilterSubseq<T>(s: seq<T>, keep: T -> bool)
    ensures Subseq(Filter(s, keep), s)
    decreases |s|
  {
    if s != [] {
      var init := s[..|s| - 1];
      FilterSubseq(init, keep);
      var f := Filter(init, keep);
      if keep(s[|s| - 1]) {
        assert (f + [s[|s| - 1]])[..|f|] == f;
      } else {
        assert Filter(s, keep) == f + [];
        assert f + [] == f;
      }
    }
  }

  /** De-duplication keeps the order of the input. */
  lemma {:induction false} FirstPerKeySubseq<T, K>(s: seq<T>, key: T -> K)
    ensures Subseq(FirstPerKey(s, key), s)
    decreases |s|
  {
    if s != [] {
      var init := s[..|s| - 1];
      FirstPerKeySubseq(init, key);
      var f := FirstPerKey(init, key);
      if key(s[|s| - 1]) in KeySet(init, key) {
        assert FirstPerKey(s, key) == f + [];
        assert f + [] == f;
      } else {
        assert (f + [s[|s| - 1]])[..|f|] == f;
      }
    }
  }

  /** Appending one element to the input of `FirstPerKey` appends it to the
      output exactly when its key is new. */
  lemma FirstPerKeySnoc<T, K>(s: seq<T>, x: T, key: T -> K)
    ensures FirstPerKey(s + [x], key) == FirstPerKey(s, key) + (if key(x) in KeySet(s, key) then [] else [x])
  {
    assert (s + [x])[..|s|] == s;
  }

  lemma FilterSnoc<T>(s: seq<T>, x: T, keep: T -> bool)
    ensures Filter(s + [x], keep) == Filter(s, keep) + (if keep(x) then [x] else [])
  {
    assert (s + [x])[..|s|] == s;
  }

  /** Among elements with distinct keys, an element's key survives
      `s.filter(keep).map(key)` exactly when the element passes `keep`. */
  lemma FilteredKeyIn<T, K>(s: seq<T>, keep: T -> bool, key: T -> K, i: int)
    requires DistinctKeys(s, key) && 0 <= i < |s|
    ensures key(s[i]) in Map(Filter(s, keep), key) <==> keep(s[i])
  {
    var kept := Filter(s, keep);
    if key(s[i]) in Map(kept, key) {
      var j :| 0 <= j < |kept| && Map(kept, key)[j] == key(s[i]);
      var m :| 0 <= m < |s| && s[m] == kept[j];
      assert key(s[m]) == key(s[i]);
    }
    if keep(s[i]) {
      var j :| 0 <= j < |kept| && kept[j] == s[i];
      assert Map(kept, key)[j] == key(s[i]);
    }
  }
}
