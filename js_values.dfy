/**
 * JavaScript values as the core sees them at run time: the mappers, the
 * cache and the query builders receive `any` and branch on its shape, so
 * the model keeps that dynamic shape instead of inventing static types.
 * Numbers are integers (floating point is left out). Objects are
 * insertion-ordered dictionaries.
 */
module JsValues {
  import opened Options
  import opened Dicts
  import opened Strings

  datatype JsValue =
    | Undefined
    | Null
    | Bool(b: bool)
    | Num(n: int)
    | Str(s: string)
    | Arr(elems: seq<JsValue>)
    | Obj(props: Dict<JsValue>)

  /** `isNil(v)` of lodash; also exactly the values whose property reads throw a TypeError. */
  predicate IsNil(v: JsValue) {
    v.Undefined? || v.Null?
  }

  /** JavaScript truthiness (`if (v)`, `!v`). */
  predicate Truthy(v: JsValue) {
    match v
    case Undefined => false
    case Null => false
    case Bool(b) => b
    case Num(n) => n != 0
    case Str(s) => s != ""
    case Arr(_) => true
    case Obj(_) => true
  }

  /** `Array.isArray(v)`. */
  predicate IsArray(v: JsValue) {
    v.Arr?
  }

  /**
   * `v[k]` for a value whose property reads do not throw: an own data
   * property of an object, and `undefined` for everything else.
   */
  function Get(v: JsValue, k: string): (r: JsValue)
    ensures v.Obj? && k in Keys(v.props) ==> (k, r) in v.props
    ensures !v.Obj? || k !in Keys(v.props) ==> r == Undefined
  {
    if v.Obj? then Lookup(v.props, k).GetOr(Undefined) else Undefined
  }

  /**
   * `v[k]` as `Get` reads it, defined without a contract: proofs that only
   * pass property values along stay cheap, and `AtIsGet` ties the two.
   */
  function At(v: JsValue, k: string): JsValue {
    if v.Obj? then Member(v.props, k) else Undefined
  }

  /** The value bound to `k`, or `undefined`. */
  function Member(props: Dict<JsValue>, k: string): JsValue {
    if |props| == 0 then Undefined
    else if props[0].0 == k then props[0].1
    else Member(props[1..], k)
  }

  lemma {:induction false} MemberIsLookup(props: Dict<JsValue>, k: string)
    ensures Member(props, k) == Lookup(props, k).GetOr(Undefined)
  {
    if |props| > 0 && props[0].0 != k {
      MemberIsLookup(props[1..], k);
    }
  }

  lemma AtIsGet(v: JsValue, k: string)
    ensures At(v, k) == Get(v, k)
  {
    if v.Obj? {
      MemberIsLookup(v.props, k);
    }
  }

  /** No element is null or undefined: a map that reads a property of each element does not throw. */
  predicate NoNil(xs: seq<JsValue>) {
    forall i :: 0 <= i < |xs| ==> !IsNil(xs[i])
  }

  /** The first binding of a key is the one read. */
  lemma {:induction false} MemberFirst(props: Dict<JsValue>, i: nat)
    requires i < |props|
    requires forall j :: 0 <= j < i ==> props[j].0 != props[i].0
    ensures Member(props, props[i].0) == props[i].1
  {
    if i > 0 {
      MemberFirst(props[1..], i - 1);
    }
  }

  /** A key bound nowhere reads `undefined`. */
  lemma {:induction false} MemberAbsent(props: Dict<JsValue>, k: string)
    requires forall i :: 0 <= i < |props| ==> props[i].0 != k
    ensures Member(props, k) == Undefined
  {
    if |props| > 0 {
      MemberAbsent(props[1..], k);
    }
  }

  /** In an object literal with distinct keys, each key reads its own value. */
  lemma MemberUnique(props: Dict<JsValue>, i: nat)
    requires UniqueKeys(props) && i < |props|
    ensures Member(props, props[i].0) == props[i].1
  {
    MemberFirst(props, i);
  }

  /** Reading a key of a two-key object literal. */
  lemma MemberPair(k1: string, v1: JsValue, k2: string, v2: JsValue, k: string)
    ensures Member([(k1, v1), (k2, v2)], k) == if k == k1 then v1 else if k == k2 then v2 else Undefined
  {
    var props := [(k1, v1), (k2, v2)];
    var tail := [(k2, v2)];
    assert props[1..] == tail;
    assert tail[1..] == [];
    assert Member(tail, k) == if k == k2 then v2 else Member([], k);
    if k != k1 {
      assert Member(props, k) == Member(tail, k);
    }
  }

  /** Reading a key after `obj[k] = v`. */
  lemma MemberPut(props: Dict<JsValue>, k: string, v: JsValue, k': string)
    ensures Member(Put(props, k, v), k') == if k' == k then v else Member(props, k')
  {
    MemberIsLookup(Put(props, k, v), k');
    MemberIsLookup(props, k');
    LookupPut(props, k, v, k');
  }

  /** Reading a key after `delete obj[k]`. */
  lemma MemberRemove(props: Dict<JsValue>, k: string, k': string)
    ensures Member(Remove(props, k), k') == if k' == k then Undefined else Member(props, k')
  {
    MemberIsLookup(Remove(props, k), k');
    MemberIsLookup(props, k');
    LookupRemove(props, k, k');
  }

  /** `v[k]` in full: `None` when `v` is null or undefined, where JavaScript throws a TypeError. */
  function Prop(v: JsValue, k: string): (r: Option<JsValue>)
    ensures r.None? <==> IsNil(v)
    ensures r.Some? ==> r.value == Get(v, k)
  {
    if IsNil(v) then None else Some(Get(v, k))
  }

  /** `v.hasOwnProperty(k)` for a value that is not null or undefined. */
  predicate HasOwn(v: JsValue, k: string) {
    v.Obj? && k in Keys(v.props)
  }

  /** `a || b`. */
  function Or(a: JsValue, b: JsValue): (r: JsValue)
    ensures Truthy(a) ==> r == a
    ensures !Truthy(a) ==> r == b
  {
    if Truthy(a) then a else b
  }

  /** `String(v)`, also the property key `obj[v]` uses and the text of `` `${v}` ``. */
  function ToStr(v: JsValue): string {
    match v
    case Undefined => "undefined"
    case Null => "null"
    case Bool(b) => if b then "true" else "false"
    case Num(n) => IntToString(n)
    case Str(s) => s
    case Arr(es) =>
      if |es| == 0 then ""
      else Join(seq(|es|, i requires 0 <= i < |es| => if IsNil(es[i]) then "" else ToStr(es[i])), ',')
    case Obj(_) => "[object Object]"
  }

  /** `a === b`. Objects compare by reference; distinct objects of the model never compare equal. */
  predicate StrictEquals(a: JsValue, b: JsValue) {
    match a
    case Undefined => b.Undefined?
    case Null => b.Null?
    case Bool(x) => b == Bool(x)
    case Num(x) => b == Num(x)
    case Str(x) => b == Str(x)
    case Arr(_) => false
    case Obj(_) => false
  }

  /** The values a `for-in` / lodash collection loop visits: array elements, object values, string characters. */
  function ForInValues(v: JsValue): (r: seq<JsValue>)
    ensures v.Arr? ==> r == v.elems
    ensures v.Str? ==> |r| == |v.s|
    ensures !v.Arr? && !v.Obj? && !v.Str? ==> r == []
  {
    match v
    case Arr(es) => es
    case Obj(ps) => seq(|ps|, i requires 0 <= i < |ps| => ps[i].1)
    case Str(s) => seq(|s|, i requires 0 <= i < |s| => Str([s[i]]))
    case _ => []
  }

  /** `Object.keys(v).length > 0`, which is also `!isEmpty(v)` in the search utilities. */
  predicate HasOwnKeys(v: JsValue) {
    match v
    case Arr(es) => |es| > 0
    case Obj(ps) => |ps| > 0
    case Str(s) => |s| > 0
    case _ => false
  }
}
