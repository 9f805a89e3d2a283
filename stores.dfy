/**
 * The store service: store documents read from Elasticsearch (one by id, or
 * all stores of a chain by a scrolled query), the stores whose merchant has
 * valid PayEx settings, a store's status for a member, a store's bag fees,
 * and the pickup points closest to a postal code, fetched from the
 * click & collect backend behind the cache.
 */
module Stores {
  import opened Options
  import opened Dicts
  import opened JsValues
  import opened Promises
  import SU = SearchUtils
  import Json
  import RedisServer
  import RedisCache
  import Elasticsearch
  import Merchants
  import StoreMapper
  import ExternalRequest

  // ---------------------------------------------------------------------
  // Configuration and known chains

  /** The `storeSearch` section of the Elasticsearch configuration. */
  datatype StoreConfig = StoreConfig(
    /** The index alias of each chain, keyed by the chain id as text. */
    chainAliases: Dict<JsValue>,
    esType: JsValue,
    returnFields: JsValue,
    scrollSize: JsValue)

  /** `isKnownChainId`: `chainId in chainAliases`, which turns the id into a property key. */
  predicate IsKnownChainId(config: StoreConfig, chainId: JsValue)
    ensures IsKnownChainId(config, chainId) <==>
      exists i :: 0 <= i < |config.chainAliases| && config.chainAliases[i].0 == ToStr(chainId)
  {
    ToStr(chainId) in Keys(config.chainAliases)
  }

  /** `chainAliases[chainId]`. */
  function Alias(config: StoreConfig, chainId: JsValue): JsValue {
    Member(config.chainAliases, ToStr(chainId))
  }

  /** A known chain reads its configured alias; an unknown one reads `undefined`. */
  lemma AliasOfKnownChain(config: StoreConfig, chainId: JsValue)
    ensures IsKnownChainId(config, chainId) ==> (ToStr(chainId), Alias(config, chainId)) in config.chainAliases
    ensures !IsKnownChainId(config, chainId) ==> Alias(config, chainId) == Undefined
  {
    MemberIsLookup(config.chainAliases, ToStr(chainId));
  }

  /** `options.fields` is set: the functions that map to `IStoreFull` refuse it. */
  const FieldsNotSupportedSingle: Failure := NewError("fields are not supported using this function. Use getSingleStore()")
  const FieldsNotSupportedAll: Failure := NewError("fields are not supported using this function. Use getAllStores()")

  /** A `throw` inside a promise executor rejects that promise. */
  function InExecutor<T>(o: Outcome<T>): (r: Outcome<T>)
    ensures !r.Throws?
    ensures o.Throws? ==> r == Rejected(o.reason)
    ensures !o.Throws? ==> r == o
  {
    if o.Throws? then Rejected(o.reason) else o
  }

  // ---------------------------------------------------------------------
  // getSingleStore

  /**
   * The synchronous start of the single-store functions: reading
   * `options.chain_id` throws without options, then the chain must be known
   * and the store id defined.
   */
  function SingleStoreChecks(config: StoreConfig, options: JsValue): (r: Option<Failure>)
    ensures r.None? <==>
      !IsNil(options) && IsKnownChainId(config, At(options, "chain_id")) && !At(options, "store_id").Undefined?
  {
    if IsNil(options) then Some(TypeError)
    else if !IsKnownChainId(config, At(options, "chain_id")) || At(options, "store_id").Undefined? then
      Some(Elasticsearch.AssertionFailed)
    else None
  }

  /** The search object of `getSingleStore` and `getStoresBagFees`. */
  function SingleStoreArgs(config: StoreConfig, options: JsValue): (p: Dict<JsValue>)
    ensures Keys(p) == ["index", "type", "_source", "fullResponse", "id"]
    ensures Member(p, "id") == At(options, "store_id")
    ensures Truthy(Member(p, "fullResponse")) <==> Truthy(At(options, "full_response"))
  {
    var p := [("index", Alias(config, At(options, "chain_id"))),
              ("type", Or(At(options, "type"), config.esType)),
              ("_source", Or(At(options, "fields"), config.returnFields)),
              ("fullResponse", Or(At(options, "full_response"), Bool(false))),
              ("id", At(options, "store_id"))];
    MemberFirst(p, 3);
    MemberFirst(p, 4);
    p
  }

  /** The search object of `getSingleStoreAsIStoreFull`: the configured type and fields, never the full response. */
  function SingleStoreFullArgs(config: StoreConfig, options: JsValue): Dict<JsValue> {
    [("index", Alias(config, At(options, "chain_id"))),
     ("type", config.esType),
     ("_source", config.returnFields),
     ("fullResponse", Bool(false)),
     ("id", At(options, "store_id"))]
  }

  /**
   * What `search.get` with these arguments gives the promise around it: an
   * argument assertion that fails inside the executor rejects the promise.
   */
  function Fetched(args: Dict<JsValue>, reply: Elasticsearch.Reply): (r: Outcome<JsValue>)
    ensures !r.Throws?
  {
    if !Elasticsearch.GetArgsValid(args) then Rejected(Elasticsearch.AssertionFailed)
    else Elasticsearch.GetAnswer(Elasticsearch.FullResponse(args), Member(args, "id").s, reply)
  }

  /** `getSingleStore` without a callback; `reply` is what the Elasticsearch client answers. */
  function GetSingleStore(config: StoreConfig, options: JsValue, reply: Elasticsearch.Reply): (r: Outcome<JsValue>)
    ensures IsNil(options) ==> r == Throws(TypeError)
    ensures !IsNil(options) && !IsKnownChainId(config, At(options, "chain_id")) ==> r == Throws(Elasticsearch.AssertionFailed)
    ensures !IsNil(options) && At(options, "store_id").Undefined? ==> r == Throws(Elasticsearch.AssertionFailed)
    ensures r.Throws? <==> SingleStoreChecks(config, options).Some?
  {
    match SingleStoreChecks(config, options)
    case Some(f) => Throws(f)
    case None => Fetched(SingleStoreArgs(config, options), reply)
  }

  /** Reading the search object back. */
  lemma SingleStoreArgsRead(config: StoreConfig, options: JsValue)
    ensures Member(SingleStoreArgs(config, options), "index") == Alias(config, At(options, "chain_id"))
    ensures Member(SingleStoreArgs(config, options), "type") == Or(At(options, "type"), config.esType)
    ensures Member(SingleStoreArgs(config, options), "fullResponse") == Or(At(options, "full_response"), Bool(false))
    ensures Member(SingleStoreArgs(config, options), "id") == At(options, "store_id")
  {
    var p := SingleStoreArgs(config, options);
    MemberFirst(p, 0);
    MemberFirst(p, 1);
    MemberFirst(p, 3);
    MemberFirst(p, 4);
  }

  /** The validity of a search object is that of its index, type and id. */
  lemma SingleStoreArgsValid(config: StoreConfig, options: JsValue)
    ensures Elasticsearch.GetArgsValid(SingleStoreArgs(config, options)) <==>
      Alias(config, At(options, "chain_id")).Str? && Or(At(options, "type"), config.esType).Str? && At(options, "store_id").Str?
    ensures Elasticsearch.FullResponse(SingleStoreArgs(config, options)) <==> Truthy(At(options, "full_response"))
  {
    SingleStoreArgsRead(config, options);
  }

  /**
   * A store that is found: the document's `_source`, or the whole response
   * when `full_response` is set.
   */
  lemma SingleStoreFound(config: StoreConfig, options: JsValue, response: JsValue)
    requires SingleStoreChecks(config, options).None?
    requires Alias(config, At(options, "chain_id")).Str? && Or(At(options, "type"), config.esType).Str?
    requires At(options, "store_id").Str?
    requires response.Obj? && !StrictEquals(At(response, "found"), Bool(false))
    ensures GetSingleStore(config, options, Elasticsearch.Reply(None, response)) ==
      Resolved(if Truthy(At(options, "full_response")) then response else At(response, "_source"))
  {
    SingleStoreArgsValid(config, options);
  }

  /**
   * A store id that passes the `!== undefined` assertion but is not a
   * string fails the client's assertion inside the executor: a rejection.
   */
  lemma SingleStoreIdNotText(config: StoreConfig, options: JsValue, reply: Elasticsearch.Reply)
    requires SingleStoreChecks(config, options).None? && !At(options, "store_id").Str?
    ensures GetSingleStore(config, options, reply) == Rejected(Elasticsearch.AssertionFailed)
  {
    SingleStoreArgsValid(config, options);
  }

  /** A client error rejects the promise. */
  lemma SingleStoreClientError(config: StoreConfig, options: JsValue, err: Failure, response: JsValue)
    requires SingleStoreChecks(config, options).None?
    ensures GetSingleStore(config, options, Elasticsearch.Reply(Some(err), response)).Rejected?
  {
  }

  // ---------------------------------------------------------------------
  // getSingleStoreAsIStoreFull

  /** `getSingleStoreAsIStoreFull` without a callback: the store found, mapped to `IStoreFull`. */
  function GetSingleStoreAsIStoreFull(config: StoreConfig, options: JsValue, reply: Elasticsearch.Reply): (r: Outcome<StoreMapper.StoreFull>)
    ensures SingleStoreChecks(config, options).Some? ==> r == Throws(SingleStoreChecks(config, options).value)
    ensures SingleStoreChecks(config, options).None? && Truthy(At(options, "fields")) ==> r == Throws(FieldsNotSupportedSingle)
    ensures r.Throws? <==> SingleStoreChecks(config, options).Some? || Truthy(At(options, "fields"))
  {
    match SingleStoreChecks(config, options)
    case Some(f) => Throws(f)
    case None =>
      if Truthy(At(options, "fields")) then Throws(FieldsNotSupportedSingle)
      else match Fetched(SingleStoreFullArgs(config, options), reply)
        case Resolved(doc) => StoreMapper.GetEsStoreAsIStoreFull(doc)
        case Rejected(e) => Rejected(e)
        case Throws(e) => Rejected(e)
        case NeverSettles(e) => NeverSettles(e)
  }

  /**
   * A found store is mapped from its `_source`, whatever `type` and
   * `full_response` the caller passes.
   */
  lemma SingleStoreFullMapsSource(config: StoreConfig, options: JsValue, response: JsValue)
    requires SingleStoreChecks(config, options).None? && !Truthy(At(options, "fields"))
    requires Alias(config, At(options, "chain_id")).Str? && config.esType.Str? && At(options, "store_id").Str?
    requires response.Obj? && !StrictEquals(At(response, "found"), Bool(false))
    ensures GetSingleStoreAsIStoreFull(config, options, Elasticsearch.Reply(None, response)) ==
      StoreMapper.GetEsStoreAsIStoreFull(At(response, "_source"))
  {
    var p := SingleStoreFullArgs(config, options);
    MemberFirst(p, 0);
    MemberFirst(p, 1);
    MemberFirst(p, 3);
    MemberFirst(p, 4);
  }

  // ---------------------------------------------------------------------
  // queryExpression

  /**
   * `queryExpression(options).query.bool.must`: the whitelist condition
   * (with the member's own whitelisting when a member is given), then the
   * home-delivery condition when asked for.
   */
  function QueryExpression(options: JsValue): (must: seq<SU.Clause>)
    ensures |must| == if Truthy(At(options, "hasValidHomeDeliveryData")) then 2 else 1
  {
    var whitelist :=
      if Truthy(At(options, "member_id")) then
        SU.Should([SU.Term("whitelist", Bool(false)), SU.Terms("whitelistedMembers", [At(options, "member_id")])])
      else SU.Term("whitelist", Bool(false));
    if Truthy(At(options, "hasValidHomeDeliveryData")) then
      [whitelist, SU.Term("hasValidHomeDeliveryData", Bool(true))]
    else [whitelist]
  }

  /** A clause as the query body carries it. */
  function ClauseJson(c: SU.Clause): JsValue
    decreases c
  {
    match c
    case Term(f, v) => Obj([("term", Obj([(f, v)]))])
    case Terms(f, vs) => Obj([("terms", Obj([(f, Arr(vs))]))])
    case Range(f, t, b) => Obj([("range", Obj([(f, Obj([(t, b)]))]))])
    case Exists(f) => Obj([("exists", Obj([("field", Str(f))]))])
    case Should(cs) => Obj([("bool", Obj([("should", Arr(seq(|cs|, i requires 0 <= i < |cs| => ClauseJson(cs[i]))))]))])
  }

  /** `{query: {bool: {must: [...]}}}`. */
  function QueryBody(options: JsValue): (body: JsValue)
    ensures body.Obj?
  {
    var must := QueryExpression(options);
    Obj([("query", Obj([("bool", Obj([("must", Arr(seq(|must|, i requires 0 <= i < |must| => ClauseJson(must[i]))))]))]))])
  }

  /** A document field holds a value: the value itself, or an array containing it. */
  predicate FieldHas(field: JsValue, v: JsValue) {
    if field.Arr? then v in field.elems else field == v
  }

  /** Whether a document satisfies a clause, as Elasticsearch evaluates it on stored values. */
  predicate Matches(doc: JsValue, c: SU.Clause)
    decreases c
  {
    match c
    case Term(f, v) => FieldHas(At(doc, f), v)
    case Terms(f, vs) => exists v :: v in vs && FieldHas(At(doc, f), v)
    case Range(f, t, b) =>
      At(doc, f).Num? && b.Num? &&
      (if t == "gte" then At(doc, f).n >= b.n
       else if t == "gt" then At(doc, f).n > b.n
       else if t == "lte" then At(doc, f).n <= b.n
       else if t == "lt" then At(doc, f).n < b.n
       else false)
    case Exists(f) => !IsNil(At(doc, f))
    case Should(cs) => exists i :: 0 <= i < |cs| && Matches(doc, cs[i])
  }

  predicate MatchesAll(doc: JsValue, cs: seq<SU.Clause>) {
    forall i :: 0 <= i < |cs| ==> Matches(doc, cs[i])
  }

  /**
   * The stores the query admits: not whitelisted, or whitelisting the given
   * member; and with valid home-delivery data when that is asked for.
   */
  lemma QueryAdmits(options: JsValue, doc: JsValue)
    ensures MatchesAll(doc, QueryExpression(options)) <==>
      (FieldHas(At(doc, "whitelist"), Bool(false)) ||
       (Truthy(At(options, "member_id")) && FieldHas(At(doc, "whitelistedMembers"), At(options, "member_id")))) &&
      (Truthy(At(options, "hasValidHomeDeliveryData")) ==> FieldHas(At(doc, "hasValidHomeDeliveryData"), Bool(true)))
  {
    var must := QueryExpression(options);
    var member := At(options, "member_id");
    var own := SU.Terms("whitelistedMembers", [member]);
    assert Matches(doc, own) <==> FieldHas(At(doc, "whitelistedMembers"), member) by {
      if FieldHas(At(doc, "whitelistedMembers"), member) {
        assert member in [member];
      }
    }
    if Truthy(member) {
      var cs := [SU.Term("whitelist", Bool(false)), own];
      assert Matches(doc, SU.Should(cs)) <==> Matches(doc, cs[0]) || Matches(doc, cs[1]);
    }
    assert MatchesAll(doc, must) <==> Matches(doc, must[0]) && (|must| == 2 ==> Matches(doc, must[1]));
    assert Matches(doc, must[0]) <==>
      FieldHas(At(doc, "whitelist"), Bool(false)) || (Truthy(member) && FieldHas(At(doc, "whitelistedMembers"), member));
  }

  // ---------------------------------------------------------------------
  // getAllStores

  /** The search object of `getAllStores`. */
  function AllStoresArgs(config: StoreConfig, options: JsValue): Dict<JsValue> {
    [("index", Alias(config, At(options, "chain_id"))),
     ("type", Or(At(options, "type"), config.esType)),
     ("size", config.scrollSize),
     ("_source", Or(At(options, "fields"), config.returnFields)),
     ("fullResponse", Or(At(options, "full_response"), Bool(false))),
     ("body", QueryBody(options))]
  }

  /** The search object of `getAllStoresAsIStoreFull`: the configured type and fields, never the full response. */
  function AllStoresFullArgs(config: StoreConfig, options: JsValue): Dict<JsValue> {
    [("index", Alias(config, At(options, "chain_id"))),
     ("type", config.esType),
     ("size", config.scrollSize),
     ("_source", config.returnFields),
     ("fullResponse", Bool(false)),
     ("body", QueryBody(options))]
  }

  /**
   * `getAllStores` as written: it calls `search.scrollEs`, which the
   * Elasticsearch module does not export (it exports the function as
   * `scroll`), so the call throws a TypeError inside the executor.
   */
  function GetAllStores(config: StoreConfig, options: JsValue): (r: Outcome<JsValue>)
    ensures IsNil(options) ==> r == Throws(TypeError)
    ensures !IsNil(options) && !IsKnownChainId(config, At(options, "chain_id")) ==> r == Throws(Elasticsearch.AssertionFailed)
  {
    if IsNil(options) then Throws(TypeError)
    else if !IsKnownChainId(config, At(options, "chain_id")) then Throws(Elasticsearch.AssertionFailed)
    else Rejected(TypeError)
  }

  /** Every call of `getAllStores` for a known chain is rejected, whatever the index holds. */
  lemma AllStoresAlwaysRejected(config: StoreConfig, options: JsValue)
    requires !IsNil(options) && IsKnownChainId(config, At(options, "chain_id"))
    ensures GetAllStores(config, options) == Rejected(TypeError)
  {
  }

  /** What `scroll` gives the callback for a search object over the scripted replies. */
  function ScrollOutcome(args: Dict<JsValue>, script: seq<Elasticsearch.Reply>): (r: Outcome<JsValue>)
    ensures !Elasticsearch.ScrollArgsValid(args) ==> r == Throws(Elasticsearch.AssertionFailed)
  {
    if !Elasticsearch.ScrollArgsValid(args) then Throws(Elasticsearch.AssertionFailed)
    else Elasticsearch.Scrolling(script, Elasticsearch.FullResponse(args), Elasticsearch.Duration(args), []).outcome
  }

  /** With a text alias both search objects pass the scroll's assertions; neither sets a scroll duration. */
  lemma AllStoresArgsValid(config: StoreConfig, options: JsValue)
    requires Alias(config, At(options, "chain_id")).Str?
    ensures Elasticsearch.ScrollArgsValid(AllStoresArgs(config, options))
    ensures Elasticsearch.ScrollArgsValid(AllStoresFullArgs(config, options))
    ensures Elasticsearch.Duration(AllStoresArgs(config, options)) == Str("30s")
    ensures !Elasticsearch.FullResponse(AllStoresFullArgs(config, options))
  {
    var p := AllStoresArgs(config, options);
    var q := AllStoresFullArgs(config, options);
    MemberFirst(p, 0);
    MemberFirst(p, 5);
    MemberAbsent(p, "scroll");
    MemberFirst(q, 0);
    MemberFirst(q, 4);
    MemberFirst(q, 5);
  }

  /**
   * `getAllStores` calling the exported `scroll`: the hits of all pages, or
   * the scroll's error.
   */
  method GetAllStoresFixed(config: StoreConfig, options: JsValue, client: Elasticsearch.ScrollBackend) returns (r: Outcome<JsValue>)
    modifies client
    ensures IsNil(options) ==> r == Throws(TypeError) && unchanged(client)
    ensures !IsNil(options) && !IsKnownChainId(config, At(options, "chain_id")) ==>
      r == Throws(Elasticsearch.AssertionFailed) && unchanged(client)
    ensures !IsNil(options) && IsKnownChainId(config, At(options, "chain_id")) ==>
      r == InExecutor(ScrollOutcome(AllStoresArgs(config, options), old(client.script)))
  {
    if IsNil(options) {
      return Throws(TypeError);
    }
    if !IsKnownChainId(config, At(options, "chain_id")) {
      return Throws(Elasticsearch.AssertionFailed);
    }
    var args := new Elasticsearch.EsArgs(AllStoresArgs(config, options));
    var found := Elasticsearch.ScrollEs(client, args);
    r := InExecutor(found);
  }

  /** For a configured chain the corrected call runs the scroll: its answer is the scroll's. */
  lemma AllStoresFixedScrolls(config: StoreConfig, options: JsValue, script: seq<Elasticsearch.Reply>)
    requires Alias(config, At(options, "chain_id")).Str?
    ensures InExecutor(ScrollOutcome(AllStoresArgs(config, options), script)) ==
      Elasticsearch.Scrolling(script, Elasticsearch.FullResponse(AllStoresArgs(config, options)), Str("30s"), []).outcome
  {
    AllStoresArgsValid(config, options);
    Elasticsearch.ScrollAnswersArray(script, Elasticsearch.FullResponse(AllStoresArgs(config, options)), Str("30s"), []);
  }

  // ---------------------------------------------------------------------
  // getAllStoresAsIStoreFull

  /**
   * Mapping the hits one after the other, each awaited: the stores, or the
   * first mapping failure.
   */
  function MapAll(hits: seq<JsValue>): (r: Outcome<seq<StoreMapper.StoreFull>>)
    ensures r.Resolved? || r.Rejected?
    ensures r.Resolved? ==>
      |r.value| == |hits| &&
      (forall i :: 0 <= i < |hits| ==> StoreMapper.GetEsStoreAsIStoreFull(hits[i]) == Resolved(r.value[i]))
    ensures r.Rejected? ==>
      exists i :: (0 <= i < |hits| && StoreMapper.GetEsStoreAsIStoreFull(hits[i]) == Rejected(r.reason) &&
                   forall j :: 0 <= j < i ==> StoreMapper.GetEsStoreAsIStoreFull(hits[j]).Resolved?)
  {
    if |hits| == 0 then Resolved([])
    else
      var n := |hits| - 1;
      var prefix := MapAll(hits[..n]);
      assert forall i :: 0 <= i < n ==> hits[..n][i] == hits[i];
      if !prefix.Resolved? then prefix
      else match StoreMapper.GetEsStoreAsIStoreFull(hits[n])
        case Resolved(s) => Resolved(prefix.value + [s])
        case Rejected(e) => Rejected(e)
        case Throws(e) => Rejected(e)
        case NeverSettles(e) => Rejected(e)
  }

  /** Once a prefix has failed, the whole sequence fails the same way. */
  lemma {:induction false} MapAllStops(hits: seq<JsValue>, k: nat)
    requires k <= |hits| && !MapAll(hits[..k]).Resolved?
    ensures MapAll(hits) == MapAll(hits[..k])
    decreases |hits| - k
  {
    if k < |hits| {
      var init := hits[..|hits| - 1];
      assert init[..k] == hits[..k];
      MapAllStops(init, k);
      assert !MapAll(init).Resolved?;
      MapAllFailed(hits);
    } else {
      assert hits[..k] == hits;
    }
  }

  /** A failure before the last hit is the answer for the whole sequence. */
  lemma MapAllFailed(hits: seq<JsValue>)
    requires |hits| > 0 && !MapAll(hits[..|hits| - 1]).Resolved?
    ensures MapAll(hits) == MapAll(hits[..|hits| - 1])
  {
  }

  /** The hits mapped so far, one more. */
  lemma MapAllStep(hits: seq<JsValue>, i: nat, stores: seq<StoreMapper.StoreFull>, s: StoreMapper.StoreFull)
    requires i < |hits| && MapAll(hits[..i]) == Resolved(stores)
    requires StoreMapper.GetEsStoreAsIStoreFull(hits[i]) == Resolved(s)
    ensures MapAll(hits[..i + 1]) == Resolved(stores + [s])
  {
    assert hits[..i + 1][..i] == hits[..i];
  }

  /** `getAllStoresAsIStoreFull` without a callback, over the scripted scroll replies. */
  function AllStoresFull(config: StoreConfig, options: JsValue, script: seq<Elasticsearch.Reply>): (r: Outcome<seq<StoreMapper.StoreFull>>)
    ensures IsNil(options) ==> r == Throws(TypeError)
    ensures !IsNil(options) && !IsKnownChainId(config, At(options, "chain_id")) ==> r == Throws(Elasticsearch.AssertionFailed)
    ensures !IsNil(options) && IsKnownChainId(config, At(options, "chain_id")) && Truthy(At(options, "fields")) ==>
      r == Throws(FieldsNotSupportedAll)
  {
    if IsNil(options) then Throws(TypeError)
    else if !IsKnownChainId(config, At(options, "chain_id")) then Throws(Elasticsearch.AssertionFailed)
    else if Truthy(At(options, "fields")) then Throws(FieldsNotSupportedAll)
    else match InExecutor(ScrollOutcome(AllStoresFullArgs(config, options), script))
      case Resolved(hits) =>
        if !hits.Arr? then NeverSettles(TypeError)
        else (match MapAll(hits.elems)
              case Resolved(stores) => Resolved(stores)
              case Rejected(e) => NeverSettles(e)
              case Throws(e) => NeverSettles(e)
              case NeverSettles(e) => NeverSettles(e))
      case Rejected(e) => Rejected(e)
      case Throws(e) => Rejected(e)
      case NeverSettles(e) => NeverSettles(e)
  }

  /**
   * When the scroll answers an array of hits: every hit mapped in order,
   * or, when some hit fails to map, a promise that never settles.
   */
  lemma AllStoresFullMapsHits(config: StoreConfig, options: JsValue, script: seq<Elasticsearch.Reply>, hits: seq<JsValue>)
    requires !IsNil(options) && IsKnownChainId(config, At(options, "chain_id")) && !Truthy(At(options, "fields"))
    requires ScrollOutcome(AllStoresFullArgs(config, options), script) == Resolved(Arr(hits))
    ensures AllStoresFull(config, options, script).NeverSettles? <==>
      exists i :: 0 <= i < |hits| && StoreMapper.GetEsStoreAsIStoreFull(hits[i]).Rejected?
    ensures AllStoresFull(config, options, script).Resolved? ==>
      var stores := AllStoresFull(config, options, script).value;
      |stores| == |hits| &&
      forall i :: 0 <= i < |hits| ==> StoreMapper.GetEsStoreAsIStoreFull(hits[i]) == Resolved(stores[i])
  {
    var m := MapAll(hits);
    if exists i :: 0 <= i < |hits| && StoreMapper.GetEsStoreAsIStoreFull(hits[i]).Rejected? {
      var i :| 0 <= i < |hits| && StoreMapper.GetEsStoreAsIStoreFull(hits[i]).Rejected?;
      if m.Resolved? {
        assert StoreMapper.GetEsStoreAsIStoreFull(hits[i]) == Resolved(m.value[i]);
      }
    }
  }

  /** `getAllStoresAsIStoreFull` without a callback. */
  method GetAllStoresAsIStoreFull(config: StoreConfig, options: JsValue, client: Elasticsearch.ScrollBackend)
    returns (r: Outcome<seq<StoreMapper.StoreFull>>)
    modifies client
    ensures r == AllStoresFull(config, options, old(client.script))
    ensures IsNil(options) || !IsKnownChainId(config, At(options, "chain_id")) || Truthy(At(options, "fields")) ==>
      unchanged(client)
  {
    if IsNil(options) {
      return Throws(TypeError);
    }
    if !IsKnownChainId(config, At(options, "chain_id")) {
      return Throws(Elasticsearch.AssertionFailed);
    }
    if Truthy(At(options, "fields")) {
      return Throws(FieldsNotSupportedAll);
    }
    ghost var script := client.script;
    var args := new Elasticsearch.EsArgs(AllStoresFullArgs(config, options));
    var found := Elasticsearch.ScrollEs(client, args);
    found := InExecutor(found);
    assert found == InExecutor(ScrollOutcome(AllStoresFullArgs(config, options), script));
    match found {
      case Rejected(e) => return Rejected(e);
      case Throws(e) => return Rejected(e);
      case NeverSettles(e) => return NeverSettles(e);
      case Resolved(_) =>
    }
    if !found.value.Arr? {
      return NeverSettles(TypeError);
    }
    var mapped := MapHits(found.value.elems);
    match mapped {
      case Resolved(stores) => r := Resolved(stores);
      case Rejected(e) => r := NeverSettles(e);
    }
  }

  /** The loop of the scroll callback: each hit mapped and awaited in turn, stopping at the first failure. */
  method MapHits(hits: seq<JsValue>) returns (m: Outcome<seq<StoreMapper.StoreFull>>)
    ensures m == MapAll(hits)
  {
    var stores: seq<StoreMapper.StoreFull> := [];
    var i := 0;
    while i < |hits|
      invariant 0 <= i <= |hits|
      invariant MapAll(hits[..i]) == Resolved(stores)
    {
      var mapped := StoreMapper.GetEsStoreAsIStoreFull(hits[i]);
      if !mapped.Resolved? {
        assert hits[..i + 1][..i] == hits[..i];
        MapAllStops(hits, i + 1);
        return Rejected(mapped.reason);
      }
      MapAllStep(hits, i, stores, mapped.value);
      stores := stores + [mapped.value];
      i := i + 1;
    }
    assert hits[..i] == hits;
    m := Resolved(stores);
  }

  // ---------------------------------------------------------------------
  // getStoresWithValidPayexSettings

  /** The callback of `merchants.find`: a merchant of this store with both PayEx settings. */
  predicate PayexMatch(merchant: JsValue, gln: string) {
    Truthy(merchant) && StrictEquals(At(merchant, "gln"), Str(gln)) &&
    Truthy(At(merchant, "accountNumber")) && Truthy(At(merchant, "encryptionKey"))
  }

  /** `merchants.find(...)` is truthy: the merchant it finds is. */
  predicate HasPayexMerchant(merchants: seq<JsValue>, gln: string)
    ensures HasPayexMerchant(merchants, gln) ==> exists i :: 0 <= i < |merchants| && PayexMatch(merchants[i], gln)
  {
    |merchants| > 0 && (PayexMatch(merchants[0], gln) || HasPayexMerchant(merchants[1..], gln))
  }

  lemma {:induction false} HasPayexMerchantExists(merchants: seq<JsValue>, gln: string)
    ensures HasPayexMerchant(merchants, gln) <==> exists i :: 0 <= i < |merchants| && PayexMatch(merchants[i], gln)
  {
    if |merchants| > 0 {
      HasPayexMerchantExists(merchants[1..], gln);
      if exists i :: 0 <= i < |merchants| && PayexMatch(merchants[i], gln) {
        var i :| 0 <= i < |merchants| && PayexMatch(merchants[i], gln);
        if i > 0 {
          assert merchants[1..][i - 1] == merchants[i];
        }
      }
      if HasPayexMerchant(merchants[1..], gln) {
        var i :| 0 <= i < |merchants[1..]| && PayexMatch(merchants[1..][i], gln);
        assert merchants[i + 1] == merchants[1..][i];
      }
    }
  }

  /** `stores.filter(...)`: the stores that have a PayEx merchant, in their order. */
  function KeepPayexValid(merchants: seq<JsValue>, stores: seq<StoreMapper.StoreFull>): (kept: seq<StoreMapper.StoreFull>)
    ensures |kept| <= |stores|
    ensures forall s :: s in kept ==> s in stores && HasPayexMerchant(merchants, s.gln)
  {
    if |stores| == 0 then []
    else
      var n := |stores| - 1;
      KeepPayexValid(merchants, stores[..n]) + if HasPayexMerchant(merchants, stores[n].gln) then [stores[n]] else []
  }

  /** Every store with a PayEx merchant is kept. */
  lemma {:induction false} KeepPayexValidComplete(merchants: seq<JsValue>, stores: seq<StoreMapper.StoreFull>, i: nat)
    requires i < |stores| && HasPayexMerchant(merchants, stores[i].gln)
    ensures stores[i] in KeepPayexValid(merchants, stores)
  {
    var n := |stores| - 1;
    if i < n {
      assert stores[..n][i] == stores[i];
      KeepPayexValidComplete(merchants, stores[..n], i);
    }
  }

  /** Filtering a concatenation filters each part: the kept stores keep their order. */
  lemma {:induction false} KeepPayexValidAppend(merchants: seq<JsValue>, xs: seq<StoreMapper.StoreFull>, ys: seq<StoreMapper.StoreFull>)
    ensures KeepPayexValid(merchants, xs + ys) == KeepPayexValid(merchants, xs) + KeepPayexValid(merchants, ys)
  {
    if |ys| > 0 {
      var n := |ys| - 1;
      assert (xs + ys)[..|xs| + n] == xs + ys[..n];
      KeepPayexValidAppend(merchants, xs, ys[..n]);
    } else {
      assert xs + ys == xs;
    }
  }

  /** The body of `then`: merchants that are not an array make `find` throw, unless there is no store to filter. */
  function PayexFilter(merchants: JsValue, stores: seq<StoreMapper.StoreFull>): (r: Outcome<seq<StoreMapper.StoreFull>>)
    ensures r.Resolved? || r == Rejected(TypeError)
    ensures r.Resolved? ==> forall s :: s in r.value ==> s in stores && merchants.Arr? && HasPayexMerchant(merchants.elems, s.gln)
    ensures merchants.Arr? ==>
      r.Resolved? &&
      forall i :: 0 <= i < |stores| && HasPayexMerchant(merchants.elems, stores[i].gln) ==> stores[i] in r.value
  {
    if |stores| == 0 then Resolved([])
    else if !merchants.Arr? then Rejected(TypeError)
    else
      assert forall i :: 0 <= i < |stores| && HasPayexMerchant(merchants.elems, stores[i].gln) ==>
        stores[i] in KeepPayexValid(merchants.elems, stores) by {
        forall i | 0 <= i < |stores| && HasPayexMerchant(merchants.elems, stores[i].gln) {
          KeepPayexValidComplete(merchants.elems, stores, i);
        }
      }
      Resolved(KeepPayexValid(merchants.elems, stores))
  }

  /**
   * `Promise.all([p1, p2])` in an async function, the merchants' promise
   * taken as settling first: a synchronous throw of `p2` rejects, then the
   * first rejection, then a promise that never settles keeps the result
   * pending; with both values, the filter.
   */
  function PayexCombine(merchants: Outcome<JsValue>, stores: Outcome<seq<StoreMapper.StoreFull>>): (r: Outcome<seq<StoreMapper.StoreFull>>)
    ensures !r.Throws?
    ensures r.Resolved? ==> merchants.Resolved? && stores.Resolved? && r == PayexFilter(merchants.value, stores.value)
    ensures stores.Throws? ==> r == Rejected(stores.reason)
    ensures !stores.Throws? && (merchants.Rejected? || merchants.Throws?) ==> r == Rejected(merchants.reason)
  {
    if stores.Throws? then Rejected(stores.reason)
    else if merchants.Rejected? || merchants.Throws? then Rejected(merchants.reason)
    else if stores.Rejected? then Rejected(stores.reason)
    else if merchants.NeverSettles? then NeverSettles(merchants.reason)
    else if stores.NeverSettles? then NeverSettles(stores.reason)
    else PayexFilter(merchants.value, stores.value)
  }

  /**
   * `getStoresWithValidPayexSettings`: the merchants of the chain (through
   * the cache) and the chain's stores, then the stores with a PayEx merchant.
   */
  method GetStoresWithValidPayexSettings(config: StoreConfig, options: JsValue, storage: Merchants.MerchantStorage,
                                         client: Elasticsearch.ScrollBackend)
    returns (r: Outcome<seq<StoreMapper.StoreFull>>)
    requires storage.Valid()
    modifies storage, storage.cache, client
    ensures storage.Valid() && storage.table == old(storage.table) && storage.cache.hasClient == old(storage.cache.hasClient)
    ensures IsNil(options) ==> r == Rejected(TypeError) && storage.cache.db == old(storage.cache.db) && unchanged(client)
    ensures !IsNil(options) ==>
      var lookup := Merchants.ListLookup(old(storage.cache.db), old(storage.cache.hasClient), old(storage.table),
                                         Merchants.Chain(ToStr(At(options, "chain_id"))));
      storage.cache.db == lookup.1 && r == PayexCombine(lookup.0, AllStoresFull(config, options, old(client.script)))
  {
    if IsNil(options) {
      return Rejected(TypeError);
    }
    var merchants := storage.GetMerchantsForChain(ToStr(At(options, "chain_id")));
    var stores := GetAllStoresAsIStoreFull(config, options, client);
    r := PayexCombine(merchants, stores);
  }

  /** The answer keeps exactly the stores that have a PayEx merchant, in order. */
  lemma PayexStoresExactly(merchants: seq<JsValue>, stores: seq<StoreMapper.StoreFull>, s: StoreMapper.StoreFull)
    requires |stores| > 0
    ensures PayexCombine(Resolved(Arr(merchants)), Resolved(stores)) == Resolved(KeepPayexValid(merchants, stores))
    ensures (s in stores && HasPayexMerchant(merchants, s.gln)) <==> s in KeepPayexValid(merchants, stores)
  {
    if s in stores && HasPayexMerchant(merchants, s.gln) {
      var i :| 0 <= i < |stores| && stores[i] == s;
      KeepPayexValidComplete(merchants, stores, i);
    }
  }

  /** No merchant with PayEx settings: the answer is empty, not an error. */
  lemma NoPayexMerchantsIsEmpty(merchants: seq<JsValue>, stores: seq<StoreMapper.StoreFull>)
    requires forall i :: 0 <= i < |merchants| ==> !Truthy(At(merchants[i], "accountNumber"))
    ensures PayexCombine(Resolved(Arr(merchants)), Resolved(stores)) == Resolved([])
  {
    if |stores| > 0 {
      var kept := KeepPayexValid(merchants, stores);
      if |kept| > 0 {
        assert kept[0] in kept;
        HasPayexMerchantExists(merchants, kept[0].gln);
      }
    }
  }

  // ---------------------------------------------------------------------
  // getStoreStatus

  datatype StoreStatus = StoreStatus(isActive: bool, errorCode: Option<int>)

  const Active: StoreStatus := StoreStatus(true, None)

  function Inactive(code: int): StoreStatus {
    StoreStatus(false, Some(code))
  }

  /** The options `getStoreStatus` passes to `getSingleStore`. */
  function StatusOptions(gln: string, chainId: string): JsValue {
    Obj([("store_id", Str(gln)), ("chain_id", Str(chainId)), ("fields", Arr([Str("whitelist"), Str("whitelistedMembers")]))])
  }

  /** The `catch` of `getStoreStatus`: 100 for a failure whose `statusCode` is 404, 101 for any other. */
  function FailureStatus(e: Failure): (s: StoreStatus)
    ensures s == Inactive(100) || s == Inactive(101)
    ensures s == Inactive(100) <==> StrictEquals(Field(e, "statusCode"), Num(404))
  {
    if StrictEquals(Field(e, "statusCode"), Num(404)) then Inactive(100) else Inactive(101)
  }

  /** How far the store alone decides the status. */
  datatype Gate = Decided(outcome: Outcome<StoreStatus>) | Continue

  /** The whitelist check on the store that `getSingleStore` answers. */
  function StoreGate(store: Outcome<JsValue>, memberId: JsValue): (g: Gate)
    ensures g.Decided? ==> g.outcome.Resolved? || g.outcome.NeverSettles?
    ensures g.Decided? && g.outcome.NeverSettles? <==> store.NeverSettles?
    ensures g.Decided? && g.outcome.Resolved? ==>
      !g.outcome.value.isActive && g.outcome.value.errorCode.Some? && g.outcome.value.errorCode.value in {98, 100, 101}
    ensures store.Resolved? && !IsNil(store.value) && !Truthy(At(store.value, "whitelist")) ==> g.Continue?
  {
    match store
    case Throws(e) => Decided(Resolved(FailureStatus(e)))
    case Rejected(e) => Decided(Resolved(FailureStatus(e)))
    case NeverSettles(e) => Decided(NeverSettles(e))
    case Resolved(s) =>
      if IsNil(s) then Decided(Resolved(FailureStatus(TypeError)))
      else if !Truthy(At(s, "whitelist")) then Continue
      else if memberId.Undefined? then Decided(Resolved(Inactive(98)))
      else if !At(s, "whitelistedMembers").Arr? then Decided(Resolved(FailureStatus(TypeError)))
      else if !SU.SomeStrictEquals(At(s, "whitelistedMembers").elems, memberId) then Decided(Resolved(Inactive(98)))
      else Continue
  }

  /** The merchant check: 99 when neither the PayEx nor the Aera settings are there. */
  function MerchantStatus(merchant: Outcome<JsValue>): (r: Outcome<StoreStatus>)
    ensures r.Resolved? || r.NeverSettles?
    ensures r.NeverSettles? <==> merchant.NeverSettles?
    ensures r.Resolved? && r.value.isActive ==> r.value == Active
    ensures r.Resolved? && !r.value.isActive ==> r.value.errorCode.Some? && r.value.errorCode.value in {99, 100, 101}
    ensures r.Resolved? && r.value.errorCode == Some(99) ==>
      merchant.Resolved? && !Truthy(At(merchant.value, "aeraStoreCode"))
  {
    match merchant
    case Throws(e) => Resolved(FailureStatus(e))
    case Rejected(e) => Resolved(FailureStatus(e))
    case NeverSettles(e) => NeverSettles(e)
    case Resolved(m) =>
      if IsNil(m) then Resolved(FailureStatus(TypeError))
      else
        var invalidPayex := !Truthy(At(m, "accountNumber")) || !Truthy(At(m, "encryptionKey"));
        var invalidAera := !Truthy(At(m, "aeraStoreCode"));
        if invalidPayex && invalidAera then Resolved(Inactive(99)) else Resolved(Active)
  }

  /** The status from the store's answer and, when it gets that far, the merchant's. */
  function StoreStatusOf(store: Outcome<JsValue>, memberId: JsValue, merchant: Outcome<JsValue>): (r: Outcome<StoreStatus>)
    ensures r.Resolved? || r.NeverSettles?
    ensures r.NeverSettles? ==> store.NeverSettles? || merchant.NeverSettles?
    ensures r.Resolved? ==> (r.value.isActive <==> r.value.errorCode.None?)
    ensures r.Resolved? && r.value.errorCode.Some? ==> r.value.errorCode.value in {98, 99, 100, 101}
  {
    match StoreGate(store, memberId)
    case Decided(o) => o
    case Continue => MerchantStatus(merchant)
  }

  /**
   * `getStoreStatus`: the store's whitelist fields, then the merchant
   * (read through the cache) only when the whitelist lets the member in.
   */
  method GetStoreStatus(config: StoreConfig, storage: Merchants.MerchantStorage, gln: string, chainId: string,
                        memberId: JsValue, reply: Elasticsearch.Reply)
    returns (r: Outcome<StoreStatus>)
    requires storage.Valid()
    modifies storage, storage.cache
    ensures storage.Valid() && storage.table == old(storage.table)
    ensures var store := GetSingleStore(config, StatusOptions(gln, chainId), reply);
      var lookup := Merchants.MerchantLookup(old(storage.cache.db), old(storage.cache.hasClient), old(storage.table), gln);
      r == StoreStatusOf(store, memberId, lookup.0) &&
      storage.cache.db == if StoreGate(store, memberId).Continue? then lookup.1 else old(storage.cache.db)
  {
    var store := GetSingleStore(config, StatusOptions(gln, chainId), reply);
    var gate := StoreGate(store, memberId);
    if gate.Decided? {
      return gate.outcome;
    }
    var merchant := storage.GetMerchant(gln);
    r := MerchantStatus(merchant);
  }

  /**
   * 98 exactly for a whitelisted store and a member it does not list, or
   * no member at all.
   */
  lemma WhitelistGives98(s: JsValue, memberId: JsValue, merchant: Outcome<JsValue>)
    requires !IsNil(s)
    ensures StoreStatusOf(Resolved(s), memberId, merchant) == Resolved(Inactive(98)) <==>
      Truthy(At(s, "whitelist")) &&
      (memberId.Undefined? ||
       (At(s, "whitelistedMembers").Arr? && !SU.SomeStrictEquals(At(s, "whitelistedMembers").elems, memberId)))
  {
  }

  /** A store open to the member leaves the status to the merchant. */
  lemma OpenStoreAsksMerchant(s: JsValue, memberId: JsValue, merchant: Outcome<JsValue>)
    requires !IsNil(s)
    requires !Truthy(At(s, "whitelist")) ||
      (!memberId.Undefined? && At(s, "whitelistedMembers").Arr? &&
       exists i :: 0 <= i < |At(s, "whitelistedMembers").elems| && StrictEquals(At(s, "whitelistedMembers").elems[i], memberId))
    ensures StoreStatusOf(Resolved(s), memberId, merchant) == MerchantStatus(merchant)
  {
    if Truthy(At(s, "whitelist")) {
      SU.SomeStrictEqualsExists(At(s, "whitelistedMembers").elems, memberId);
    }
  }

  /** A merchant that is found: 99 exactly when both its PayEx and its Aera settings are missing. */
  lemma MerchantSettingsStatus(m: JsValue)
    requires !IsNil(m)
    ensures MerchantStatus(Resolved(m)) == Resolved(Inactive(99)) <==>
      (!Truthy(At(m, "accountNumber")) || !Truthy(At(m, "encryptionKey"))) && !Truthy(At(m, "aeraStoreCode"))
    ensures MerchantStatus(Resolved(m)) != Resolved(Inactive(99)) ==> MerchantStatus(Resolved(m)) == Resolved(Active)
  {
  }

  /** Reading the status options back. */
  lemma StatusOptionsRead(gln: string, chainId: string)
    ensures At(StatusOptions(gln, chainId), "store_id") == Str(gln)
    ensures At(StatusOptions(gln, chainId), "chain_id") == Str(chainId)
    ensures At(StatusOptions(gln, chainId), "type") == Undefined
    ensures At(StatusOptions(gln, chainId), "full_response") == Undefined
  {
    var p := StatusOptions(gln, chainId).props;
    MemberFirst(p, 0);
    MemberFirst(p, 1);
    MemberAbsent(p, "type");
    MemberAbsent(p, "full_response");
  }

  /** The status lookup of a known chain's store passes a client error on, keeping its `statusCode`. */
  lemma StatusStoreError(config: StoreConfig, gln: string, chainId: string, err: Failure, response: JsValue)
    requires IsKnownChainId(config, Str(chainId)) && Alias(config, Str(chainId)).Str? && config.esType.Str?
    ensures var r := GetSingleStore(config, StatusOptions(gln, chainId), Elasticsearch.Reply(Some(err), response));
      r.Rejected? && Field(r.reason, "statusCode") == Field(err, "statusCode")
  {
    var options := StatusOptions(gln, chainId);
    var reply := Elasticsearch.Reply(Some(err), response);
    StatusOptionsRead(gln, chainId);
    SingleStoreArgsValid(config, options);
    var args := SingleStoreArgs(config, options);
    assert GetSingleStore(config, options, reply) == Fetched(args, reply);
    var e := Elasticsearch.CreateErrorObject(err, Elasticsearch.GetErrorMessage(err, Member(args, "id").s));
    assert Fetched(args, reply) == Rejected(e);
    assert Lookup(e.fields, "statusCode") == Lookup(Elasticsearch.Fields(err), "statusCode");
  }

  /** A client error with `statusCode` 404 for the store's document is code 100. */
  lemma StoreNotFoundGives100(config: StoreConfig, gln: string, chainId: string, memberId: JsValue,
                              err: Failure, response: JsValue, merchant: Outcome<JsValue>)
    requires IsKnownChainId(config, Str(chainId)) && Alias(config, Str(chainId)).Str? && config.esType.Str?
    requires Field(err, "statusCode") == Num(404)
    ensures StoreStatusOf(GetSingleStore(config, StatusOptions(gln, chainId), Elasticsearch.Reply(Some(err), response)),
                          memberId, merchant) == Resolved(Inactive(100))
  {
    StatusStoreError(config, gln, chainId, err, response);
  }

  /**
   * A merchant missing from the table is code 101, not 100: the table's
   * not-found error is re-thrown with `code` 404 and no `statusCode`.
   */
  lemma MissingMerchantGives101(db: RedisServer.Db, hasClient: bool, t: Merchants.Table, gln: string)
    requires Merchants.CachedValue(db, hasClient, Merchants.SingleMerchantKey(gln)).None?
    requires t.createError.None? && t.readError.None? && Merchants.FindRow(t.rows, gln, gln).None?
    ensures MerchantStatus(Merchants.MerchantLookup(db, hasClient, t, gln).0) == Resolved(Inactive(101))
  {
    var nf := Merchants.ResourceNotFound;
    var fields := [("message", nf.message), ("code", nf.statusCode)];
    assert Merchants.MerchantLookup(db, hasClient, t, gln).0 == Rejected(Exception(fields));
    MemberIsLookup(fields, "statusCode");
    MemberPair("message", nf.message, "code", nf.statusCode, "statusCode");
  }

  // ---------------------------------------------------------------------
  // getStoresBagFees

  const BagsMissing: Failure := Reason("Something wrong with result.specialGoods.bags")

  /** The callback's settlements in order: `resolve(bags)` when there are bags, then `reject(...)` always. */
  function BagsSettlement(result: JsValue): (p: PromiseState<JsValue>)
    ensures var goods := At(result, "specialGoods");
      !IsNil(goods) && !IsNil(At(goods, "bags")) ==> p == Fulfilled(At(goods, "bags"))
    ensures var goods := At(result, "specialGoods");
      IsNil(goods) || IsNil(At(goods, "bags")) ==> p == Broken(BagsMissing)
  {
    var goods := At(result, "specialGoods");
    var resolved := if !IsNil(goods) && !IsNil(At(goods, "bags")) then Resolve(Pending, At(goods, "bags")) else Pending;
    Reject(resolved, BagsMissing)
  }

  /** `getStoresBagFees`. */
  function GetStoresBagFees(config: StoreConfig, options: JsValue, reply: Elasticsearch.Reply): (r: Outcome<JsValue>)
    ensures r.Throws? <==> SingleStoreChecks(config, options).Some?
    ensures SingleStoreChecks(config, options).None? && reply.err.Some? && Elasticsearch.GetArgsValid(SingleStoreArgs(config, options)) ==>
      r.Rejected?
  {
    match SingleStoreChecks(config, options)
    case Some(f) => Throws(f)
    case None =>
      match Fetched(SingleStoreArgs(config, options), reply)
      case Resolved(result) =>
        if IsNil(result) then NeverSettles(TypeError)
        else (match BagsSettlement(result)
              case Fulfilled(bags) => Resolved(bags)
              case Broken(e) => Rejected(e)
              case Pending => Rejected(BagsMissing))
      case Rejected(e) => Rejected(e)
      case Throws(e) => Rejected(e)
      case NeverSettles(e) => NeverSettles(e)
  }

  /**
   * A found document: its bags when it has them, the later `reject` being
   * ignored; otherwise that rejection.
   */
  lemma BagsResolveBeforeReject(config: StoreConfig, options: JsValue, response: JsValue)
    requires SingleStoreChecks(config, options).None?
    requires Alias(config, At(options, "chain_id")).Str? && Or(At(options, "type"), config.esType).Str?
    requires At(options, "store_id").Str? && !Truthy(At(options, "full_response"))
    requires response.Obj? && !StrictEquals(At(response, "found"), Bool(false)) && !IsNil(At(response, "_source"))
    ensures var goods := At(At(response, "_source"), "specialGoods");
      GetStoresBagFees(config, options, Elasticsearch.Reply(None, response)) ==
        if !IsNil(goods) && !IsNil(At(goods, "bags")) then Resolved(At(goods, "bags")) else Rejected(BagsMissing)
  {
    SingleStoreArgsValid(config, options);
  }

  // ---------------------------------------------------------------------
  // getClosestInpostalCode

  function Kind(isStore: bool): string {
    if isStore then "butikker" else "hentepunkter"
  }

  /** The cache key: the kind of place followed by the postal code. */
  function PointsKey(postalCode: string, isStore: bool): (k: string)
    ensures |k| >= |postalCode| && k[|k| - |postalCode|..] == postalCode
    ensures isStore ==> k[..|k| - |postalCode|] == "butikker"
    ensures !isStore ==> k[..|k| - |postalCode|] == "hentepunkter"
  {
    Kind(isStore) + postalCode
  }

  /** Stores and pickup points of any two postal codes never share a cache key. */
  lemma PointsKeysApart(p: string, q: string)
    ensures PointsKey(p, true) != PointsKey(q, false)
  {
    assert PointsKey(p, true)[0] == 'b';
    assert PointsKey(q, false)[0] == 'h';
  }

  /** The path of the click & collect request. */
  function PointsUrl(chainId: string, postalCode: string, isStore: bool): string {
    "/tjenester/kjeder/" + chainId + "/" + Kind(isStore) + "/avstand/postnummer/" + postalCode
  }

  /** The request headers: the click & collect override, the fixed Basic credential, and JSON. */
  function PointsHeaders(authorization: JsValue): Dict<JsValue> {
    [(ExternalRequest.TargetHeader, Str("click & collect")), ("Authorization", authorization),
     ("content-type", Str("application/json"))]
  }

  /** `RedisCache.TTL_ONE_MINUTE * 30`. */
  const PointsTtl: int := RedisCache.TTL_ONE_MINUTE * 30

  /** The reason of a request whose response never ends. */
  const NoAnswer: Failure := Reason("no answer from the click & collect backend")

  /** `response.map(mapClosePickupPoint)`: `None` where one element makes the mapper throw. */
  function MapPoints(es: seq<JsValue>): (r: Option<seq<StoreMapper.ClosePickupPoint>>)
    ensures r.Some? <==> forall i :: 0 <= i < |es| ==> StoreMapper.MapClosePickupPoint(es[i]).Some?
    ensures r.Some? ==>
      |r.value| == |es| && forall i :: 0 <= i < |es| ==> StoreMapper.MapClosePickupPoint(es[i]) == Some(r.value[i])
  {
    if |es| == 0 then Some([])
    else
      var n := |es| - 1;
      var prefix := MapPoints(es[..n]);
      assert forall i :: 0 <= i < n ==> es[..n][i] == es[i];
      match StoreMapper.MapClosePickupPoint(es[n])
      case None => None
      case Some(p) =>
        if prefix.None? then None else Some(prefix.value + [p])
  }

  /** `JSON.parse(result.response)` mapped point by point: `None` where anything throws. */
  function PointsOf(text: string): (r: Option<seq<StoreMapper.ClosePickupPoint>>)
    ensures r.Some? <==> (Json.Parse(text).Some? && Json.Parse(text).value.Arr? &&
      forall i :: 0 <= i < |Json.Parse(text).value.elems| ==> StoreMapper.MapClosePickupPoint(Json.Parse(text).value.elems[i]).Some?)
    ensures r.Some? ==> |r.value| == |Json.Parse(text).value.elems|
  {
    match Json.Parse(text)
    case None => None
    case Some(v) => if v.Arr? then MapPoints(v.elems) else None
  }

  /** The list as returned and cached. */
  function PointsJs(ps: seq<StoreMapper.ClosePickupPoint>): (vs: seq<JsValue>)
    ensures |vs| == |ps| && forall i :: 0 <= i < |ps| ==> vs[i] == StoreMapper.ClosePickupPointJs(ps[i])
  {
    seq(|ps|, i requires 0 <= i < |ps| => StoreMapper.ClosePickupPointJs(ps[i]))
  }

  /** The answer, the cache afterwards, and the request sent upstream, if any. */
  datatype PointsLookup = PointsLookup(outcome: Outcome<JsValue>, db: RedisServer.Db, sent: Option<ExternalRequest.RequestOptions>)

  /** The request `getClosestInpostalCode` hands to `handleRequest`, and how the upstream answers it. */
  function PointsRequest(servers: ExternalRequest.Servers, authorization: JsValue, chainId: string, postalCode: string,
                         isStore: bool, events: seq<ExternalRequest.Event>): (h: ExternalRequest.Handling)
    ensures h.sent.None? <==> ExternalRequest.GetSource(servers, Undefined).None?
    ensures h.sent.Some? ==> h.sent.value.timeout == 50000
  {
    ExternalRequest.Handled(servers, PointsUrl(chainId, postalCode, isStore), Undefined, Str("GET"), Undefined,
                            PointsHeaders(authorization), false, events)
  }

  /**
   * After a cache miss, what the upstream's settlement leads to: the mapped
   * list, stored under `key` and given an expiry of thirty minutes; an
   * empty list for any failure on the way (the request, the JSON, an
   * element, the cache write). The answer and the cache afterwards.
   */
  function Upstream(db: RedisServer.Db, hasClient: bool, key: string, settled: ExternalRequest.Settlement): (r: (Outcome<JsValue>, RedisServer.Db))
    ensures r.0.Resolved? || r.0.NeverSettles?
    ensures r.0.NeverSettles? <==> settled.Unsettled?
    ensures !hasClient ==> r.1 == db
  {
    match settled
    case Unsettled => (NeverSettles(NoAnswer), db)
    case Rejects(_) => (Resolved(Arr([])), db)
    case Resolves(answer) =>
      match PointsOf(answer.response)
      case None => (Resolved(Arr([])), db)
      case Some(ps) =>
        var list := Arr(PointsJs(ps));
        var stored := RedisCache.Call(Str(key), hasClient, db, RedisServer.CmdSet(db, key, Json.Stringify(list).value));
        if !stored.1.Resolved? then (Resolved(Arr([])), stored.0)
        else
          var expired := RedisCache.Call(Str(key), hasClient, stored.0, RedisServer.CmdExpire(stored.0, key, PointsTtl));
          (Resolved(list), expired.0)
  }

  /** `getClosestInpostalCode`: the cached list when it parses, otherwise what the upstream leads to. */
  function ClosestInPostalCode(db: RedisServer.Db, hasClient: bool, servers: ExternalRequest.Servers, authorization: JsValue,
                               chainId: string, postalCode: string, isStore: bool, events: seq<ExternalRequest.Event>): (r: PointsLookup)
    ensures Merchants.CachedValue(db, hasClient, PointsKey(postalCode, isStore)).Some? ==>
      r == PointsLookup(Resolved(Merchants.CachedValue(db, hasClient, PointsKey(postalCode, isStore)).value), db, None)
    ensures r.outcome.Resolved? || r.outcome.NeverSettles?
    ensures r.outcome.NeverSettles? ==>
      PointsRequest(servers, authorization, chainId, postalCode, isStore, events).settled.Unsettled?
  {
    var key := PointsKey(postalCode, isStore);
    match Merchants.CachedValue(db, hasClient, key)
    case Some(v) => PointsLookup(Resolved(v), db, None)
    case None =>
      var h := PointsRequest(servers, authorization, chainId, postalCode, isStore, events);
      var u := Upstream(db, hasClient, key, h.settled);
      PointsLookup(u.0, u.1, h.sent)
  }

  /** The cache read: the parsed cached text, if any. */
  method ReadPoints(cache: RedisCache.RedisCacheV2, key: string) returns (r: Option<JsValue>)
    requires cache.Valid()
    ensures r == Merchants.CachedValue(cache.db, cache.hasClient, key)
  {
    var cached := cache.Get(Str(key));
    if !cached.Resolved? {
      return None;
    }
    r := Json.Parse(ToStr(cached.value));
  }

  /** The part of `getClosestInpostalCode` after the upstream has answered. */
  method AnswerUpstream(cache: RedisCache.RedisCacheV2, key: string, settled: ExternalRequest.Settlement) returns (r: Outcome<JsValue>)
    requires cache.Valid()
    modifies cache
    ensures cache.Valid() && cache.hasClient == old(cache.hasClient)
    ensures (r, cache.db) == Upstream(old(cache.db), old(cache.hasClient), key, settled)
  {
    if settled.Unsettled? {
      return NeverSettles(NoAnswer);
    }
    if settled.Rejects? {
      return Resolved(Arr([]));
    }
    var points := PointsOf(settled.value.response);
    if points.None? {
      return Resolved(Arr([]));
    }
    var list := Arr(PointsJs(points.value));
    var stored := cache.Set(Str(key), Str(Json.Stringify(list).value), true);
    if !stored.Resolved? {
      return Resolved(Arr([]));
    }
    var expired := cache.Expire(Str(key), PointsTtl);
    r := Resolved(list);
  }

  /** `getClosestInpostalCode`, with the cache client and the upstream's events. */
  method GetClosestInPostalCode(cache: RedisCache.RedisCacheV2, servers: ExternalRequest.Servers, authorization: JsValue,
                                chainId: string, postalCode: string, isStore: bool, events: seq<ExternalRequest.Event>)
    returns (r: Outcome<JsValue>, sent: Option<ExternalRequest.RequestOptions>)
    requires cache.Valid()
    modifies cache
    ensures cache.Valid() && cache.hasClient == old(cache.hasClient)
    ensures PointsLookup(r, cache.db, sent) ==
      ClosestInPostalCode(old(cache.db), old(cache.hasClient), servers, authorization, chainId, postalCode, isStore, events)
  {
    var key := PointsKey(postalCode, isStore);
    var cached := ReadPoints(cache, key);
    if cached.Some? {
      return Resolved(cached.value), None;
    }
    var request := new ExternalRequest.IncomingRequest(PointsUrl(chainId, postalCode, isStore), Undefined, Str("GET"),
                                                       Undefined, PointsHeaders(authorization));
    var settled, errorCalls;
    sent, settled, errorCalls := request.HandleRequest(servers, false, events);
    r := AnswerUpstream(cache, key, settled);
  }

  /** On a cache miss the request goes to the click & collect server with the credential, as JSON. */
  lemma PointsRequestRoute(servers: ExternalRequest.Servers, authorization: JsValue, chainId: string, postalCode: string,
                           isStore: bool, events: seq<ExternalRequest.Event>)
    requires ExternalRequest.GetSource(servers, Undefined).Some?
    ensures var h := PointsRequest(servers, authorization, chainId, postalCode, isStore, events);
      h.sent.Some? &&
      h.sent.value.uri == servers.clickAndCollect + ExternalRequest.CreateUriPath(PointsUrl(chainId, postalCode, isStore)) &&
      Member(h.sent.value.headers, "Authorization") == authorization &&
      Member(h.sent.value.headers, ExternalRequest.TargetHeader) == Undefined &&
      h.sent.value.json && h.sent.value.httpMethod == Str("GET")
  {
    var headers := PointsHeaders(authorization);
    var prepared := ExternalRequest.PreparedHeaders(headers, Undefined);
    MemberFirst(headers, 0);
    MemberFirst(headers, 1);
    MemberFirst(headers, 2);
    ExternalRequest.PreparedHeadersShape(headers, Undefined, ExternalRequest.TargetHeader);
    ExternalRequest.PreparedHeadersShape(headers, Undefined, "Authorization");
    var hs := Remove(prepared, ExternalRequest.TargetHeader);
    MemberRemove(prepared, ExternalRequest.TargetHeader, "Authorization");
    MemberRemove(prepared, ExternalRequest.TargetHeader, "content-type");
    MemberRemove(prepared, ExternalRequest.TargetHeader, ExternalRequest.TargetHeader);
  }

  /** A fetched list is answered, stored as its JSON text, and set to expire after 1800 seconds. */
  lemma PointsFetchedAreCached(db: RedisServer.Db, servers: ExternalRequest.Servers, authorization: JsValue,
                               chainId: string, postalCode: string, isStore: bool, events: seq<ExternalRequest.Event>,
                               ps: seq<StoreMapper.ClosePickupPoint>)
    requires Merchants.CachedValue(db, true, PointsKey(postalCode, isStore)).None?
    requires PointsRequest(servers, authorization, chainId, postalCode, isStore, events).settled.Resolves?
    requires PointsOf(PointsRequest(servers, authorization, chainId, postalCode, isStore, events).settled.value.response) == Some(ps)
    ensures var r := ClosestInPostalCode(db, true, servers, authorization, chainId, postalCode, isStore, events);
      var key := PointsKey(postalCode, isStore);
      r.outcome == Resolved(Arr(PointsJs(ps))) &&
      key in r.db.values && r.db.values[key] == RedisServer.Text(Json.Stringify(Arr(PointsJs(ps))).value) &&
      key in r.db.expiry && r.db.expiry[key] == 1800
  {
  }

  /**
   * Cache-aside: after a list is fetched and stored, the next call answers
   * the same list from the cache, whatever the upstream would say.
   */
  lemma PointsCacheAside(db: RedisServer.Db, servers: ExternalRequest.Servers, authorization: JsValue,
                         chainId: string, postalCode: string, isStore: bool, events: seq<ExternalRequest.Event>,
                         ps: seq<StoreMapper.ClosePickupPoint>, later: seq<ExternalRequest.Event>)
    requires Merchants.CachedValue(db, true, PointsKey(postalCode, isStore)).None?
    requires PointsRequest(servers, authorization, chainId, postalCode, isStore, events).settled.Resolves?
    requires PointsOf(PointsRequest(servers, authorization, chainId, postalCode, isStore, events).settled.value.response) == Some(ps)
    requires Json.Serializable(Arr(PointsJs(ps)))
    ensures var r := ClosestInPostalCode(db, true, servers, authorization, chainId, postalCode, isStore, events);
      ClosestInPostalCode(r.db, true, servers, authorization, chainId, postalCode, isStore, later) ==
        PointsLookup(r.outcome, r.db, None)
  {
    var key := PointsKey(postalCode, isStore);
    var list := Arr(PointsJs(ps));
    var r := ClosestInPostalCode(db, true, servers, authorization, chainId, postalCode, isStore, events);
    PointsFetchedAreCached(db, servers, authorization, chainId, postalCode, isStore, events, ps);
    Json.ParseStringify(list);
    assert RedisServer.CmdGet(r.db, key) == RedisServer.Ok(Str(Json.Stringify(list).value));
    assert Merchants.CachedValue(r.db, true, key) == Some(list);
  }

  /** Every failure after a cache miss (the request, the JSON, an element, the cache write) answers an empty list. */
  lemma PointsFailuresGiveEmpty(db: RedisServer.Db, hasClient: bool, servers: ExternalRequest.Servers, authorization: JsValue,
                                chainId: string, postalCode: string, isStore: bool, events: seq<ExternalRequest.Event>)
    requires Merchants.CachedValue(db, hasClient, PointsKey(postalCode, isStore)).None?
    requires var h := PointsRequest(servers, authorization, chainId, postalCode, isStore, events);
      h.settled.Rejects? || (h.settled.Resolves? && PointsOf(h.settled.value.response).None?) || !hasClient
    requires !PointsRequest(servers, authorization, chainId, postalCode, isStore, events).settled.Unsettled?
    ensures ClosestInPostalCode(db, hasClient, servers, authorization, chainId, postalCode, isStore, events).outcome == Resolved(Arr([]))
    ensures ClosestInPostalCode(db, hasClient, servers, authorization, chainId, postalCode, isStore, events).db == db
  {
  }
}
