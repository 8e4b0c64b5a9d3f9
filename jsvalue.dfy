/** The JavaScript values the scrapers pass around: parsed JSON documents,
    option bags and the product records built from them.  Objects keep their
    members in insertion order, which is the order `Object.values` and the
    spread operator use. */
module JsValues {
  import opened Strings

  datatype JsValue =
    | Undefined
    | Null
    | Bool(b: bool)
    | Num(n: real)
    | Str(s: string)
    | Arr(items: seq<JsValue>)
    | Obj(members: seq<Member>)

  datatype Member = Member(key: string, value: JsValue)

  /** `v === null || v === undefined`. */
  predicate Nullish(v: JsValue)
  {
    v.Undefined? || v.Null?
  }

  /** JavaScript truthiness: everything except undefined, null, false, 0 and
      the empty string. */
  predicate Truthy(v: JsValue)
  {
    match v
    case Undefined => false
    case Null => false
    case Bool(b) => b
    case Num(n) => n != 0.0
    case Str(s) => s != ""
    case Arr(_) => true
    case Obj(_) => true
  }

  /** `typeof v === 'object' && v !== null`. */
  predicate IsObject(v: JsValue)
  {
    v.Arr? || v.Obj?
  }

  /** `a || b`. */
  function Or(a: JsValue, b: JsValue): (r: JsValue)
    ensures Truthy(a) ==> r == a
    ensures !Truthy(a) ==> r == b
  {
    if Truthy(a) then a else b
  }

  /** `a ?? b`. */
  function Coalesce(a: JsValue, b: JsValue): (r: JsValue)
    ensures !Nullish(a) ==> r == a
    ensures Nullish(a) ==> r == b
  {
    if Nullish(a) then b else a
  }

  predicate HasKey(members: seq<Member>, key: string)
    decreases |members|
  {
    members != [] && (members[0].key == key || HasKey(members[1..], key))
  }

  /** Member keys are pairwise different, as they are in every JavaScript
      object. */
  predicate UniqueKeys(members: seq<Member>)
    decreases |members|
  {
    members == [] || (!HasKey(members[1..], members[0].key) && UniqueKeys(members[1..]))
  }

  function Lookup(members: seq<Member>, key: string): (r: JsValue)
    ensures !HasKey(members, key) ==> r == Undefined
    decreases |members|
  {
    if members == [] then Undefined
    else if members[0].key == key then members[0].value
    else Lookup(members[1..], key)
  }

  /** `v[key]`: the member's value on an object, `undefined` otherwise (a
      missing member, or a property read on an array or a primitive). */
  function Get(v: JsValue, key: string): JsValue
  {
    if v.Obj? then Lookup(v.members, key) else Undefined
  }

  function SetMember(members: seq<Member>, key: string, value: JsValue): (r: seq<Member>)
    ensures HasKey(r, key)
    ensures forall k :: HasKey(r, k) <==> HasKey(members, k) || k == key
    decreases |members|
  {
    if members == [] then [Member(key, value)]
    else if members[0].key == key then [Member(key, value)] + members[1..]
    else [members[0]] + SetMember(members[1..], key, value)
  }

  lemma {:induction false} LookupSetMember(members: seq<Member>, key: string, value: JsValue, other: string)
    ensures Lookup(SetMember(members, key, value), key) == value
    ensures other != key ==> Lookup(SetMember(members, key, value), other) == Lookup(members, other)
    decreases |members|
  {
    if members != [] && members[0].key != key {
      LookupSetMember(members[1..], key, value, other);
    }
  }

  /** `{ ...v, [key]: value }`: an existing member keeps its position, a new
      one goes last; spreading a non-object contributes no members. */
  function Put(v: JsValue, key: string, value: JsValue): (r: JsValue)
    ensures r.Obj?
    ensures Get(r, key) == value
    ensures forall k :: k != key ==> Get(r, k) == Get(v, k)
  {
    var members := if v.Obj? then v.members else [];
    forall k | k != key ensures Lookup(SetMember(members, key, value), k) == Get(v, k) {
      LookupSetMember(members, key, value, k);
    }
    LookupSetMember(members, key, value, key);
    Obj(SetMember(members, key, value))
  }

  /** `{ ...a, ...b }`: the members of `b` written over those of `a`, in order. */
  function Merge(a: JsValue, b: JsValue): (r: JsValue)
    requires b.Obj? ==> UniqueKeys(b.members)
    ensures r.Obj?
    ensures forall k :: Get(r, k) == if b.Obj? && HasKey(b.members, k) then Get(b, k) else Get(a, k)
  {
    var base := if a.Obj? then a.members else [];
    var over: seq<Member> := if b.Obj? then b.members else [];
    MergeMembersLookup(base, over);
    Obj(MergeMembers(base, over))
  }

  function MergeMembers(base: seq<Member>, over: seq<Member>): seq<Member>
    decreases |over|
  {
    if over == [] then base
    else MergeMembers(SetMember(base, over[0].key, over[0].value), over[1..])
  }

  lemma {:induction false} MergeMembersLookup(base: seq<Member>, over: seq<Member>)
    requires UniqueKeys(over)
    ensures forall k :: Lookup(MergeMembers(base, over), k) == if HasKey(over, k) then Lookup(over, k) else Lookup(base, k)
    decreases |over|
  {
    if over != [] {
      var next := SetMember(base, over[0].key, over[0].value);
      MergeMembersLookup(next, over[1..]);
      forall k ensures Lookup(MergeMembers(base, over), k) == if HasKey(over, k) then Lookup(over, k) else Lookup(base, k) {
        LookupSetMember(base, over[0].key, over[0].value, k);
      }
    }
  }

  /** `Object.values(v)`: an object's member values in order, an array's
      elements, a string's characters; nothing for other values. */
  function Values(v: JsValue): (r: seq<JsValue>)
    ensures v.Arr? ==> r == v.items
    ensures v.Obj? ==> |r| == |v.members| && forall i :: 0 <= i < |r| ==> r[i] == v.members[i].value
  {
    match v
    case Arr(items) => items
    case Obj(members) => seq(|members|, i requires 0 <= i < |members| => members[i].value)
    case Str(s) => seq(|s|, i requires 0 <= i < |s| => Str([s[i]]))
    case _ => []
  }

  /** `String(v)`. */
  function ToJsString(v: JsValue): (r: string)
    ensures v.Str? ==> r == v.s
    ensures v.Num? ==> r == NumberText(v.n)
    decreases v, 1
  {
    match v
    case Undefined => "undefined"
    case Null => "null"
    case Bool(b) => if b then "true" else "false"
    case Num(n) => NumberText(n)
    case Str(s) => s
    case Arr(items) => JoinItems(items)
    case Obj(_) => "[object Object]"
  }

  /** `items.join(',')`, where null and undefined elements print as empty. */
  function JoinItems(items: seq<JsValue>): string
    decreases items, 0
  {
    if items == [] then ""
    else
      var last := items[|items| - 1];
      var text := if Nullish(last) then "" else ToJsString(last);
      if |items| == 1 then text else JoinItems(items[..|items| - 1]) + "," + text
  }

  /** No value of `vs` is truthy. */
  predicate NoneTruthy(vs: seq<JsValue>)
  {
    forall j :: 0 <= j < |vs| ==> !Truthy(vs[j])
  }

  /** Every value of `vs` is null or undefined. */
  predicate AllNullish(vs: seq<JsValue>)
  {
    forall j :: 0 <= j < |vs| ==> Nullish(vs[j])
  }

  /** `vs[0] || vs[1] || … || vs[n - 1]`: the first truthy value, or the
      last value when none is truthy. */
  function OrAll(vs: seq<JsValue>): (r: JsValue)
    requires |vs| > 0
    ensures forall i :: 0 <= i < |vs| && Truthy(vs[i]) && NoneTruthy(vs[..i]) ==> r == vs[i]
    ensures NoneTruthy(vs) ==> r == vs[|vs| - 1]
    decreases |vs|
  {
    if |vs| == 1 then vs[0]
    else
      var rest := OrAll(vs[1..]);
      assert forall i :: 1 <= i < |vs| && NoneTruthy(vs[..i]) ==> NoneTruthy(vs[1..][..i - 1]) by {
        forall i | 1 <= i < |vs| && NoneTruthy(vs[..i]) ensures NoneTruthy(vs[1..][..i - 1]) {
          var t := vs[1..][..i - 1];
          forall j | 0 <= j < |t| ensures !Truthy(t[j]) {
            assert t[j] == vs[..i][j + 1];
          }
        }
      }
      Or(vs[0], rest)
  }

  /** `vs[0] ?? vs[1] ?? … ?? vs[n - 1]`: the first value that is neither
      null nor undefined, or the last value when all of them are. */
  function CoalesceAll(vs: seq<JsValue>): (r: JsValue)
    requires |vs| > 0
    ensures forall i :: 0 <= i < |vs| && !Nullish(vs[i]) && AllNullish(vs[..i]) ==> r == vs[i]
    ensures AllNullish(vs) ==> r == vs[|vs| - 1]
    decreases |vs|
  {
    if |vs| == 1 then vs[0]
    else
      var rest := CoalesceAll(vs[1..]);
      assert forall i :: 1 <= i < |vs| && AllNullish(vs[..i]) ==> AllNullish(vs[1..][..i - 1]) by {
        forall i | 1 <= i < |vs| && AllNullish(vs[..i]) ensures AllNullish(vs[1..][..i - 1]) {
          var t := vs[1..][..i - 1];
          forall j | 0 <= j < |t| ensures Nullish(t[j]) {
            assert t[j] == vs[..i][j + 1];
          }
        }
      }
      Coalesce(vs[0], rest)
  }

  /** A chain of `||` whose first value is truthy stops there. */
  lemma OrAllHead(vs: seq<JsValue>)
    requires |vs| > 0 && Truthy(vs[0])
    ensures OrAll(vs) == vs[0]
  {
    assert NoneTruthy(vs[..0]);
  }

  /** A chain of `??` whose first value is neither null nor undefined stops
      there; one whose first value is stops at the rest of the chain. */
  lemma CoalesceAllHead(vs: seq<JsValue>)
    requires |vs| > 1
    ensures !Nullish(vs[0]) ==> CoalesceAll(vs) == vs[0]
    ensures Nullish(vs[0]) ==> CoalesceAll(vs) == CoalesceAll(vs[1..])
  {
  }
}
