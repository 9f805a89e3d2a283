/**
 * The merchant store: payment settings of each store (GLN), kept in the
 * MerchantInfo table and cached in Redis. Every lookup reads the cache
 * first; on a miss it opens the table, reads the rows, writes the result
 * back to the cache for one day (a failed write-back is ignored) and
 * answers. Chain and "all" lookups drop merchants without an account
 * number or an encryption key.
 */
module Merchants {
  import opened Options
  import opened Dicts
  import opened JsValues
  import opened Promises
  import opened RedisServer
  import opened RedisCache
  import opened Sequences
  import Json

  // ---------------------------------------------------------------------
  // Records and cache keys

  /** One merchant as the lookups answer it; every field is whatever the table row held. */
  datatype MerchantInfo = MerchantInfo(
    chainId: JsValue,
    gln: JsValue,
    accountNumber: JsValue,
    encryptionKey: JsValue,
    name: JsValue,
    oneClickDefaultMaxAmount: JsValue,
    zoopitAccessKey: JsValue,
    aeraStoreCode: JsValue)

  /** `pick(entity, attr)`: the `_` of the attribute when the attribute is truthy, otherwise `null`. */
  function Pick(entity: JsValue, attr: string): (r: Option<JsValue>)
    ensures r.None? <==> IsNil(entity)
    ensures r.Some? && Truthy(At(entity, attr)) ==> r.value == At(At(entity, attr), "_")
    ensures r.Some? && !Truthy(At(entity, attr)) ==> r.value == Null
  {
    if IsNil(entity) then None
    else
      var a := At(entity, attr);
      Some(if Truthy(a) then At(a, "_") else Null)
  }

  /** `mapEntity`: the GLN is the row key, the other seven fields are read under their own names. */
  function MapEntity(entity: JsValue): (r: Option<MerchantInfo>)
    ensures r.None? <==> IsNil(entity)
    ensures r.Some? ==> forall i :: 0 <= i < |EntityAttrs| ==>
      Fields(r.value)[i] == if Truthy(At(entity, EntityAttrs[i])) then Attr(entity, EntityAttrs[i]) else Null
  {
    if IsNil(entity) then None
    else Some(MerchantInfo(
      Pick(entity, "ChainId").value,
      Pick(entity, "RowKey").value,
      Pick(entity, "AccountNumber").value,
      Pick(entity, "EncryptionKey").value,
      Pick(entity, "Name").value,
      Pick(entity, "OneClickDefaultMaxAmount").value,
      Pick(entity, "ZoopitAccessKey").value,
      Pick(entity, "AeraStoreCode").value))
  }

  /** A row whose `ChainId` attribute holds a chain id maps to a merchant of that chain. */
  lemma MapEntityChain(entity: JsValue, chainId: string)
    requires !IsNil(entity) && Attr(entity, "ChainId") == Str(chainId)
    ensures MapEntity(entity).value.chainId == Str(chainId)
  {
    assert At(entity, "ChainId").Obj?;
  }

  /** The GLN of a merchant is its row key, read the same way. */
  lemma MapEntityGln(entity: JsValue, gln: string)
    requires !IsNil(entity) && Attr(entity, "RowKey") == Str(gln)
    ensures MapEntity(entity).value.gln == Str(gln)
  {
    assert At(entity, "RowKey").Obj?;
  }

  /** The table attributes `mapEntity` reads, in the order of the merchant's fields. */
  const EntityAttrs: seq<string> := ["ChainId", "RowKey", "AccountNumber", "EncryptionKey", "Name",
    "OneClickDefaultMaxAmount", "ZoopitAccessKey", "AeraStoreCode"]

  /** The merchant's fields, in declaration order. */
  function Fields(m: MerchantInfo): (fs: seq<JsValue>)
    ensures |fs| == |EntityAttrs|
  {
    [m.chainId, m.gln, m.accountNumber, m.encryptionKey, m.name, m.oneClickDefaultMaxAmount,
     m.zoopitAccessKey, m.aeraStoreCode]
  }

  /** A table row holding the eight attributes, each wrapped as `{_: value}` as the table service returns it. */
  function EntityDoc(m: MerchantInfo): JsValue {
    var fs := Fields(m);
    Obj(seq(|EntityAttrs|, i requires 0 <= i < |EntityAttrs| => (EntityAttrs[i], Obj([("_", fs[i])]))))
  }

  /** Mapping the row that stores a merchant gives the merchant back, field by field. */
  lemma MapEntityRoundTrip(m: MerchantInfo)
    ensures MapEntity(EntityDoc(m)) == Some(m)
  {
    var doc := EntityDoc(m);
    var props := doc.props;
    EntityAttrsUnique();
    assert UniqueKeys(props);
    forall i | 0 <= i < |EntityAttrs|
      ensures At(doc, EntityAttrs[i]) == Obj([("_", Fields(m)[i])])
    {
      MemberUnique(props, i);
    }
    assert Fields(MapEntity(doc).value) == Fields(m) by {
      forall i | 0 <= i < |EntityAttrs| ensures Fields(MapEntity(doc).value)[i] == Fields(m)[i] {
      }
    }
  }

  /** The eight attribute names are distinct. */
  lemma EntityAttrsUnique()
    ensures forall i, j :: 0 <= i < j < |EntityAttrs| ==> EntityAttrs[i] != EntityAttrs[j]
  {
  }

  /** The merchant as a JavaScript object, with its properties in the order `mapEntity` writes them. */
  function ToJs(m: MerchantInfo): (v: JsValue)
    ensures v.Obj? && |v.props| == 8
  {
    Obj([("chainId", m.chainId), ("gln", m.gln), ("accountNumber", m.accountNumber),
         ("encryptionKey", m.encryptionKey), ("name", m.name),
         ("oneClickDefaultMaxAmount", m.oneClickDefaultMaxAmount),
         ("zoopitAccessKey", m.zoopitAccessKey), ("aeraStoreCode", m.aeraStoreCode)])
  }

  /** Reading the eight properties back, as a cache hit is read. */
  function FromJs(v: JsValue): MerchantInfo {
    MerchantInfo(Get(v, "chainId"), Get(v, "gln"), Get(v, "accountNumber"), Get(v, "encryptionKey"),
                 Get(v, "name"), Get(v, "oneClickDefaultMaxAmount"), Get(v, "zoopitAccessKey"),
                 Get(v, "aeraStoreCode"))
  }

  /** Every field of a merchant is read back under its own property name. */
  lemma ToJsFromJs(m: MerchantInfo)
    ensures FromJs(ToJs(m)) == m
  {
    var p := ToJs(m).props;
    assert UniqueKeys(p);
    LookupAt(p, 0);
    LookupAt(p, 1);
    LookupAt(p, 2);
    LookupAt(p, 3);
    LookupAt(p, 4);
    LookupAt(p, 5);
    LookupAt(p, 6);
    LookupAt(p, 7);
  }

  function ToJsAll(ms: seq<MerchantInfo>): (vs: seq<JsValue>)
    ensures |vs| == |ms|
    ensures forall i :: 0 <= i < |ms| ==> vs[i] == ToJs(ms[i])
  {
    if |ms| == 0 then [] else ToJsAll(ms[..|ms| - 1]) + [ToJs(ms[|ms| - 1])]
  }

  /** Both payment credentials are present (truthy). */
  predicate HasCredentials(m: MerchantInfo) {
    Truthy(m.accountNumber) && Truthy(m.encryptionKey)
  }

  function SingleMerchantKey(gln: string): (k: string)
    ensures k == "merchant-" + gln
  {
    "merchant-" + gln
  }

  /** The chain cache key is built like a single merchant's, from the chain id. */
  function ChainKey(chainId: string): (k: string)
    ensures k == "merchant-" + chainId
  {
    SingleMerchantKey(chainId)
  }

  const AllMerchantsKey: string := "merchants"

  /** The single-merchant and chain keys share one prefix: a GLN equal to a chain id names the same cache entry. */
  lemma KeysShareNamespace(id: string)
    ensures SingleMerchantKey(id) == ChainKey(id)
    ensures SingleMerchantKey(id) != AllMerchantsKey
  {
    assert SingleMerchantKey(id)[8] == '-';
  }

  // ---------------------------------------------------------------------
  // The MerchantInfo table

  /** A table error as the storage SDK reports it. */
  datatype TableError = TableError(statusCode: JsValue, code: JsValue, message: JsValue)

  /**
   * The table: its rows as the SDK returns them (objects whose attributes
   * are `{_: value}`), what creating the table answers, and an error that
   * every read answers when set.
   */
  datatype Table = Table(rows: seq<JsValue>, createError: Option<TableError>, readError: Option<TableError>)

  datatype TableReply = TableOk(result: JsValue) | TableErr(error: TableError)

  const ResourceNotFound := TableError(Num(404), Str("ResourceNotFound"), Str("The specified resource does not exist."))

  /** `entity[attr]._`, as the table's own filters read an attribute. */
  function Attr(entity: JsValue, attr: string): JsValue {
    At(At(entity, attr), "_")
  }

  /** The rows a query returns: all of them, or those whose `ChainId` equals the filter. */
  function Matching(rows: seq<JsValue>, chainId: Option<string>): (r: seq<JsValue>)
    ensures |r| <= |rows|
    ensures forall x :: x in r ==> x in rows && (chainId.Some? ==> Attr(x, "ChainId") == Str(chainId.value))
  {
    if |rows| == 0 then []
    else
      var init := Matching(rows[..|rows| - 1], chainId);
      var last := rows[|rows| - 1];
      if chainId.None? || Attr(last, "ChainId") == Str(chainId.value) then init + [last] else init
  }

  /** `queryEntities`: an object whose `entries` are the matching rows. */
  function QueryEntities(t: Table, chainId: Option<string>): (r: TableReply)
    ensures t.readError.Some? ==> r == TableErr(t.readError.value)
    ensures t.readError.None? ==> r == TableOk(Obj([("entries", Arr(Matching(t.rows, chainId)))]))
  {
    if t.readError.Some? then TableErr(t.readError.value)
    else TableOk(Obj([("entries", Arr(Matching(t.rows, chainId)))]))
  }

  /** `retrieveEntity` by partition key and row key: the first such row, or a 404. */
  function FindRow(rows: seq<JsValue>, pk: string, rk: string): (r: Option<JsValue>)
    ensures r.Some? ==> (r.value in rows && r.value.Obj? &&
      Attr(r.value, "PartitionKey") == Str(pk) && Attr(r.value, "RowKey") == Str(rk))
    ensures r.None? ==> forall x :: x in rows ==> !(Attr(x, "PartitionKey") == Str(pk) && Attr(x, "RowKey") == Str(rk))
  {
    if |rows| == 0 then None
    else if Attr(rows[0], "PartitionKey") == Str(pk) && Attr(rows[0], "RowKey") == Str(rk) then Some(rows[0])
    else FindRow(rows[1..], pk, rk)
  }

  function RetrieveEntity(t: Table, pk: string, rk: string): (r: TableReply)
    ensures t.readError.Some? ==> r == TableErr(t.readError.value)
    ensures r.TableOk? ==> r.result.Obj? && r.result in t.rows
  {
    if t.readError.Some? then TableErr(t.readError.value)
    else match FindRow(t.rows, pk, rk)
      case Some(row) => TableOk(row)
      case None => TableErr(ResourceNotFound)
  }

  /** The rejection of a failed table setup: the status code (500 when missing) and a prefixed message. */
  function ConnectError(t: Table): (r: Option<Failure>)
    ensures t.createError.None? <==> r.None?
    ensures r.Some? ==> (r.value.Failed? &&
      Member(r.value.fields, "code") == Or(t.createError.value.statusCode, Num(500)))
  {
    match t.createError
    case None => None
    case Some(e) =>
      Some(Exception([("code", Or(e.statusCode, Num(500))),
                      ("message", Str("MerchantInfo table storage - " + ToStr(e.message)))]))
  }

  // ---------------------------------------------------------------------
  // The credential filter

  /** `mapEntity` over every entry; `None` when an entry is null or undefined, where reading it throws. */
  function Entities(entries: seq<JsValue>): (r: Option<seq<MerchantInfo>>)
    ensures r.Some? <==> NoNil(entries)
    ensures r.Some? ==> (|r.value| == |entries| &&
      forall i :: 0 <= i < |entries| ==> r.value[i] == MapEntity(entries[i]).value)
  {
    if NoNil(entries) then Some(seq(|entries|, i requires 0 <= i < |entries| => MapEntity(entries[i]).value))
    else None
  }

  /** Mapping one more entry appends its merchant. */
  lemma EntitiesSnoc(entries: seq<JsValue>, i: nat)
    requires i < |entries| && Entities(entries[..i]).Some? && !IsNil(entries[i])
    ensures Entities(entries[..i + 1]) == Some(Entities(entries[..i]).value + [MapEntity(entries[i]).value])
  {
    var a, b := entries[..i], entries[..i + 1];
    assert forall j :: 0 <= j < i ==> b[j] == a[j];
    assert NoNil(b);
    var x, y := Entities(b).value, Entities(a).value + [MapEntity(entries[i]).value];
    assert |x| == |y|;
    assert forall j :: 0 <= j < |x| ==> x[j] == y[j];
    assert x == y;
  }

  /** What the filter keeps of one merchant. */
  function Kept(m: MerchantInfo): seq<MerchantInfo> {
    if HasCredentials(m) then [m] else []
  }

  /** The merchants with both credentials, in their order. */
  function WithCredentials(ms: seq<MerchantInfo>): (r: seq<MerchantInfo>)
    ensures |r| <= |ms|
    ensures forall i :: 0 <= i < |r| ==> HasCredentials(r[i])
  {
    if |ms| == 0 then [] else WithCredentials(ms[..|ms| - 1]) + Kept(ms[|ms| - 1])
  }

  lemma WithCredentialsSnoc(ms: seq<MerchantInfo>, m: MerchantInfo)
    ensures WithCredentials(ms + [m]) == WithCredentials(ms) + Kept(m)
  {
    assert (ms + [m])[..|ms|] == ms;
  }

  /** A merchant is kept exactly when it is one of the input and has both credentials. */
  lemma {:induction false} WithCredentialsMembers(ms: seq<MerchantInfo>)
    ensures forall m :: m in WithCredentials(ms) <==> m in ms && HasCredentials(m)
  {
    if |ms| > 0 {
      var init := ms[..|ms| - 1];
      WithCredentialsMembers(init);
      assert ms == init + [ms[|ms| - 1]];
    }
  }

  /** The filter works merchant by merchant, so their order is kept. */
  lemma {:induction false} WithCredentialsAppend(xs: seq<MerchantInfo>, ys: seq<MerchantInfo>)
    ensures WithCredentials(xs + ys) == WithCredentials(xs) + WithCredentials(ys)
  {
    if |ys| == 0 {
      assert xs + ys == xs;
    } else {
      var init, last := ys[..|ys| - 1], ys[|ys| - 1];
      var c := xs + ys;
      assert c[..|c| - 1] == xs + init && c[|c| - 1] == last;
      WithCredentialsAppend(xs, init);
      AppendAssoc(WithCredentials(xs), WithCredentials(init), Kept(last));
    }
  }

  /** Merchants of which none has both credentials give an empty list, not an error. */
  lemma {:induction false} NoneWithCredentials(ms: seq<MerchantInfo>)
    requires forall i :: 0 <= i < |ms| ==> !HasCredentials(ms[i])
    ensures WithCredentials(ms) == []
  {
    if |ms| > 0 {
      var init := ms[..|ms| - 1];
      assert forall i :: 0 <= i < |init| ==> init[i] == ms[i];
      NoneWithCredentials(init);
    }
  }

  /**
   * The merchants of the entries that have both credentials, in table
   * order; `None` when an entry is null or undefined.
   */
  function ValidMerchants(entries: seq<JsValue>): Option<seq<MerchantInfo>> {
    match Entities(entries)
    case None => None
    case Some(ms) => Some(WithCredentials(ms))
  }

  /** Entries that all name one chain give merchants of that chain. */
  lemma ValidMerchantsOfChain(entries: seq<JsValue>, chainId: string)
    requires ValidMerchants(entries).Some?
    requires forall i :: 0 <= i < |entries| ==> Attr(entries[i], "ChainId") == Str(chainId)
    ensures forall m :: m in ValidMerchants(entries).value ==> m.chainId == Str(chainId) && HasCredentials(m)
  {
    var ms := Entities(entries).value;
    forall i | 0 <= i < |ms| ensures ms[i].chainId == Str(chainId) {
      MapEntityChain(entries[i], chainId);
    }
    WithCredentialsMembers(ms);
  }

  // ---------------------------------------------------------------------
  // Cache reads and write-back

  /** What a cache read finds: the parsed JSON of the string at `key`, if there is one and it parses. */
  function CachedValue(db: Db, hasClient: bool, key: string): (r: Option<JsValue>)
    ensures !hasClient || key !in db.values ==> r.None?
  {
    if !hasClient then None
    else match CmdGet(db, key)
      case Ok(Str(s)) => Json.Parse(s)
      case _ => None
  }

  /**
   * `cacheMerchants(key, data)`: SET of `JSON.stringify(data)`, which the
   * client refuses when `data` is undefined, then EXPIRE for one day.
   */
  function WriteBack(db: Db, hasClient: bool, key: string, data: JsValue): (d: Db)
    ensures !hasClient ==> d == db
    ensures hasClient && !data.Undefined? ==>
      d.values == db.values[key := Text(Json.Stringify(data).value)] &&
      d.expiry == db.expiry[key := TTL_ONE_DAY]
    ensures hasClient && data.Undefined? ==> d == CmdExpire(db, key, TTL_ONE_DAY).db
    ensures SameElsewhere(db, d, key)
    ensures WellFormed(db) ==> WellFormed(d)
  {
    if !hasClient then db
    else
      var d1 := if data.Undefined? then db else CmdSet(db, key, Json.Stringify(data).value).db;
      CmdExpire(d1, key, TTL_ONE_DAY).db
  }

  /** Cache-aside round trip: after a write-back the next read finds the same value. */
  lemma WriteBackThenRead(db: Db, key: string, data: JsValue)
    requires Json.Serializable(data)
    ensures CachedValue(WriteBack(db, true, key, data), true, key) == Some(data)
  {
    Json.ParseStringify(data);
  }

  /** The write-back of a single merchant passes no data: nothing is cached, only a TTL on an existing key. */
  lemma SingleWriteBackStoresNothing(db: Db, key: string)
    ensures WriteBack(db, true, key, Undefined).values == db.values
  {
  }

  // ---------------------------------------------------------------------
  // Lookups

  /** Which lookup: the merchants of one chain, or all of them. */
  datatype Scope = Chain(chainId: string) | All

  function ScopeKey(scope: Scope): string {
    match scope
    case Chain(c) => ChainKey(c)
    case All => AllMerchantsKey
  }

  function ScopeFilter(scope: Scope): Option<string> {
    match scope
    case Chain(c) => Some(c)
    case All => None
  }

  /**
   * The answer of a lookup that missed the cache, after the table was
   * opened; `Some(data)` in the second component is what is written back.
   * A chain lookup with no entries rejects with code 500; the "all" lookup
   * throws inside the SDK's callback instead, so its promise never settles.
   */
  function ListFromTable(t: Table, scope: Scope): (r: (Outcome<JsValue>, Option<JsValue>))
    ensures r.1.Some? <==> r.0.Resolved?
    ensures r.0.Resolved? ==> r.1 == Some(r.0.value) && r.0.value.Arr?
    ensures t.readError.Some? && !t.createError.Some? ==>
      r.0.Rejected? && r.0.reason.Failed? && Member(r.0.reason.fields, "code") == Or(t.readError.value.statusCode, Num(500))
  {
    if t.createError.Some? then (Rejected(ConnectError(t).value), None)
    else match QueryEntities(t, ScopeFilter(scope))
      case TableErr(e) =>
        (Rejected(Exception([("message", e.message), ("code", Or(e.statusCode, Num(500)))])), None)
      case TableOk(result) => EntriesAnswer(At(result, "entries"), scope)
  }

  /**
   * No entries: a chain lookup rejects with code 500; the "all" lookup
   * throws inside the SDK's callback instead, so its promise never settles.
   */
  function NoEntries(scope: Scope): (r: Outcome<JsValue>)
    ensures scope.Chain? ==> r.Rejected?
    ensures scope.All? ==> r.NeverSettles?
    ensures r.reason.Failed? && Member(r.reason.fields, "code") == Num(500)
  {
    match scope
    case Chain(_) =>
      Rejected(Exception([("message", Str("getMerchantsForChain, Azure-response is not an array or is empty")),
                          ("code", Num(500))]))
    case All =>
      NeverSettles(Exception([("message", Str("getAllMerchants, Azure-response is not an array or is empty.")),
                              ("code", Num(500))]))
  }

  /** The answer built from the `entries` of a query result. */
  function EntriesAnswer(entries: JsValue, scope: Scope): (r: (Outcome<JsValue>, Option<JsValue>))
    ensures r.1.Some? <==> r.0.Resolved?
    ensures r.0.Resolved? ==> r.1 == Some(r.0.value) && r.0.value.Arr?
    ensures !(entries.Arr? && |entries.elems| > 0) ==> r.1.None? && (scope.Chain? <==> r.0.Rejected?)
  {
    if !(entries.Arr? && |entries.elems| > 0) then (NoEntries(scope), None)
    else match ValidMerchants(entries.elems)
      case None => (NeverSettles(TypeError), None)
      case Some(ms) => (Resolved(Arr(ToJsAll(ms))), Some(Arr(ToJsAll(ms))))
  }

  /** The answer of a single-merchant lookup that missed the cache. */
  function MerchantFromTable(t: Table, gln: string): (r: Outcome<JsValue>)
    ensures t.createError.None? && t.readError.None? && FindRow(t.rows, gln, gln).Some? ==>
      r == Resolved(ToJs(MapEntity(FindRow(t.rows, gln, gln).value).value))
    ensures t.createError.None? && t.readError.None? && FindRow(t.rows, gln, gln).None? ==>
      r.Rejected? && r.reason.Failed? && Member(r.reason.fields, "code") == Num(404)
  {
    if t.createError.Some? then Rejected(ConnectError(t).value)
    else match RetrieveEntity(t, gln, gln)
      case TableErr(e) => Rejected(Exception([("message", e.message), ("code", e.statusCode)]))
      case TableOk(row) => Resolved(ToJs(MapEntity(row).value))
  }

  /** An answered element: the object of a merchant with both credentials. */
  predicate Credentialed(x: JsValue) {
    x == ToJs(FromJs(x)) && HasCredentials(FromJs(x))
  }

  lemma ToJsAllCredentialed(ms: seq<MerchantInfo>, chainId: Option<string>)
    requires forall m :: m in ms ==> HasCredentials(m) && (chainId.Some? ==> m.chainId == Str(chainId.value))
    ensures forall x :: x in ToJsAll(ms) ==>
      Credentialed(x) && (chainId.Some? ==> FromJs(x).chainId == Str(chainId.value))
  {
    forall x | x in ToJsAll(ms)
      ensures Credentialed(x) && (chainId.Some? ==> FromJs(x).chainId == Str(chainId.value))
    {
      var i :| 0 <= i < |ms| && ToJsAll(ms)[i] == x;
      assert ms[i] in ms;
      ToJsFromJs(ms[i]);
    }
  }

  /** What a resolved table answer is made of. */
  lemma TableAnswerIs(t: Table, scope: Scope)
    requires ListFromTable(t, scope).0.Resolved?
    ensures var ms := ValidMerchants(Matching(t.rows, ScopeFilter(scope)));
      ms.Some? && ListFromTable(t, scope).0.value == Arr(ToJsAll(ms.value))
  {
    var q := Obj([("entries", Arr(Matching(t.rows, ScopeFilter(scope))))]);
    assert At(q, "entries") == Arr(Matching(t.rows, ScopeFilter(scope)));
  }

  /**
   * A lookup answered by the table holds only merchants with both
   * credentials, and a chain lookup only merchants of that chain.
   */
  lemma TableAnswerFiltered(t: Table, scope: Scope)
    requires ListFromTable(t, scope).0.Resolved?
    ensures forall x :: x in ListFromTable(t, scope).0.value.elems ==>
      Credentialed(x) && (scope.Chain? ==> FromJs(x).chainId == Str(scope.chainId))
  {
    var entries := Matching(t.rows, ScopeFilter(scope));
    TableAnswerIs(t, scope);
    var ms := ValidMerchants(entries).value;
    if scope.Chain? {
      assert forall i :: 0 <= i < |entries| ==> entries[i] in entries;
      ValidMerchantsOfChain(entries, scope.chainId);
    } else {
      WithCredentialsMembers(Entities(entries).value);
    }
    ToJsAllCredentialed(ms, ScopeFilter(scope));
  }

  /**
   * A chain or "all" lookup: the cached value when the cache holds one that
   * parses, otherwise the table's answer, written back when it resolved.
   * The second component is the keyspace afterwards.
   */
  function ListLookup(db: Db, hasClient: bool, t: Table, scope: Scope): (r: (Outcome<JsValue>, Db))
    ensures CachedValue(db, hasClient, ScopeKey(scope)).Some? ==>
      r == (Resolved(CachedValue(db, hasClient, ScopeKey(scope)).value), db)
    ensures CachedValue(db, hasClient, ScopeKey(scope)).None? && !ListFromTable(t, scope).0.Resolved? ==> r.1 == db
    ensures SameElsewhere(db, r.1, ScopeKey(scope))
    ensures WellFormed(db) ==> WellFormed(r.1)
  {
    match CachedValue(db, hasClient, ScopeKey(scope))
    case Some(v) => (Resolved(v), db)
    case None =>
      var answer := ListFromTable(t, scope);
      (answer.0, if answer.1.Some? then WriteBack(db, hasClient, ScopeKey(scope), answer.1.value) else db)
  }

  /**
   * Cache-aside: once a lookup has gone to the table and resolved with a
   * value JSON can carry, the next lookup answers the same value from the
   * cache, whatever the table holds by then.
   */
  lemma ListLookupCaches(db: Db, t: Table, t': Table, scope: Scope)
    requires CachedValue(db, true, ScopeKey(scope)).None?
    requires ListLookup(db, true, t, scope).0.Resolved?
    requires Json.Serializable(ListLookup(db, true, t, scope).0.value)
    ensures var first := ListLookup(db, true, t, scope);
      ListLookup(first.1, true, t', scope) == first
  {
    var v := ListFromTable(t, scope).0.value;
    WriteBackThenRead(db, ScopeKey(scope), v);
  }

  /** A single-merchant lookup: the cached value, otherwise the table's row. */
  function MerchantLookup(db: Db, hasClient: bool, t: Table, gln: string): (r: (Outcome<JsValue>, Db))
    ensures CachedValue(db, hasClient, SingleMerchantKey(gln)).Some? ==>
      r == (Resolved(CachedValue(db, hasClient, SingleMerchantKey(gln)).value), db)
    ensures r.1.values == db.values
    ensures WellFormed(db) ==> WellFormed(r.1)
  {
    match CachedValue(db, hasClient, SingleMerchantKey(gln))
    case Some(v) => (Resolved(v), db)
    case None =>
      var answer := MerchantFromTable(t, gln);
      (answer, if answer.Resolved? then WriteBack(db, hasClient, SingleMerchantKey(gln), Undefined) else db)
  }

  /**
   * The write-back of `getMerchant` passes no data, so the client refuses
   * the SET: a merchant that missed the cache misses it again next time.
   */
  lemma MerchantLookupNeverCaches(db: Db, hasClient: bool, t: Table, gln: string)
    ensures CachedValue(MerchantLookup(db, hasClient, t, gln).1, hasClient, SingleMerchantKey(gln)) ==
      CachedValue(db, hasClient, SingleMerchantKey(gln))
  {
  }

  /** With a client, a stored merchant that is not cached is read from the table on every lookup. */
  lemma MerchantLookupRepeats(db: Db, t: Table, gln: string)
    requires CachedValue(db, true, SingleMerchantKey(gln)).None?
    ensures var first := MerchantLookup(db, true, t, gln);
      MerchantLookup(first.1, true, t, gln).0 == first.0
  {
    MerchantLookupNeverCaches(db, true, t, gln);
  }

  /** The single-merchant lookup as evidently intended: the merchant found is written back. */
  function MerchantLookupFixed(db: Db, hasClient: bool, t: Table, gln: string): (r: (Outcome<JsValue>, Db))
    ensures CachedValue(db, hasClient, SingleMerchantKey(gln)).None? ==> r.0 == MerchantFromTable(t, gln)
    ensures WellFormed(db) ==> WellFormed(r.1)
  {
    match CachedValue(db, hasClient, SingleMerchantKey(gln))
    case Some(v) => (Resolved(v), db)
    case None =>
      var answer := MerchantFromTable(t, gln);
      (answer, if answer.Resolved? then WriteBack(db, hasClient, SingleMerchantKey(gln), answer.value) else db)
  }

  /** With the fix, a merchant that resolved from the table is answered from the cache next time. */
  lemma MerchantLookupFixedCaches(db: Db, t: Table, t': Table, gln: string)
    requires CachedValue(db, true, SingleMerchantKey(gln)).None?
    requires MerchantLookupFixed(db, true, t, gln).0.Resolved?
    requires Json.Serializable(MerchantLookupFixed(db, true, t, gln).0.value)
    ensures var first := MerchantLookupFixed(db, true, t, gln);
      MerchantLookupFixed(first.1, true, t', gln) == first
  {
    WriteBackThenRead(db, SingleMerchantKey(gln), MerchantFromTable(t, gln).value);
  }

  /** A null or undefined entry makes the filter throw. */
  lemma NilEntryThrows(entries: seq<JsValue>, i: nat)
    requires i < |entries| && IsNil(entries[i])
    ensures ValidMerchants(entries).None?
  {
  }

  /** The keyspace after deleting each key in turn. */
  function DropAll(db: Db, keys: seq<string>): (d: Db)
    ensures forall k :: k in keys ==> k !in d.values
    ensures forall k :: k !in keys && k in db.values ==> k in d.values && d.values[k] == db.values[k]
    ensures WellFormed(db) ==> WellFormed(d)
  {
    if |keys| == 0 then db else CmdDel(DropAll(db, keys[..|keys| - 1]), keys[|keys| - 1]).db
  }

  /**
   * The single-merchant keys of what the chain lookup answered, as the
   * `for ... of` loop reads `merchant.gln`: array elements (or the
   * characters of a string); `None` where the loop throws.
   */
  function GlnKeys(v: JsValue): (r: Option<seq<string>>)
    ensures v.Arr? ==> (r.Some? <==> forall i :: 0 <= i < |v.elems| ==> !IsNil(v.elems[i]))
    ensures v.Arr? && r.Some? ==> (|r.value| == |v.elems| &&
      forall i :: 0 <= i < |v.elems| ==> r.value[i] == SingleMerchantKey(ToStr(Get(v.elems[i], "gln"))))
    ensures v.Str? ==> r == Some(seq(|v.s|, i => SingleMerchantKey("undefined")))
    ensures !v.Arr? && !v.Str? ==> r.None?
  {
    match v
    case Arr(es) => GlnKeysOf(es)
    case Str(s) => Some(seq(|s|, i => SingleMerchantKey("undefined")))
    case _ => None
  }

  function GlnKeysOf(es: seq<JsValue>): (r: Option<seq<string>>)
    ensures r.Some? <==> forall i :: 0 <= i < |es| ==> !IsNil(es[i])
    ensures r.Some? ==> (|r.value| == |es| &&
      forall i :: 0 <= i < |es| ==> r.value[i] == SingleMerchantKey(ToStr(Get(es[i], "gln"))))
  {
    if |es| == 0 then Some([])
    else
      var init := GlnKeysOf(es[..|es| - 1]);
      var last := es[|es| - 1];
      assert forall i :: 0 <= i < |es| - 1 ==> es[..|es| - 1][i] == es[i];
      if IsNil(last) || init.None? then None
      else Some(init.value + [SingleMerchantKey(ToStr(Get(last, "gln")))])
  }

  /**
   * The single-merchant keys the `for ... of` loop has already sent DELs for
   * when it reaches the first null or undefined element: one per element
   * before it, in order.
   */
  function SentKeysOf(es: seq<JsValue>): (ks: seq<string>)
    ensures |ks| <= |es|
    ensures forall i :: 0 <= i < |ks| ==> !IsNil(es[i]) && ks[i] == SingleMerchantKey(ToStr(Get(es[i], "gln")))
    ensures |ks| < |es| ==> IsNil(es[|ks|])
  {
    if |es| == 0 || IsNil(es[0]) then []
    else [SingleMerchantKey(ToStr(Get(es[0], "gln")))] + SentKeysOf(es[1..])
  }

  const InvalidatedAnswer: JsValue := Obj([("success", Bool(true))])

  /**
   * `invalidateCache`: the chain lookup, then one DEL per merchant key, the
   * chain key and the "all" key. Without a client every DEL fails and the
   * first failure is wrapped with `success: false`. When the loop throws
   * on a null or undefined element, the DELs it sent for the elements before
   * it have already reached the server.
   */
  function Invalidate(db: Db, hasClient: bool, t: Table, chainId: string): (r: (Outcome<JsValue>, Db))
    ensures r.0.Resolved? <==>
      hasClient && ListLookup(db, hasClient, t, Chain(chainId)).0.Resolved? &&
      GlnKeys(ListLookup(db, hasClient, t, Chain(chainId)).0.value).Some?
    ensures r.0.Resolved? ==> r.0.value == InvalidatedAnswer
    ensures !ListLookup(db, hasClient, t, Chain(chainId)).0.Resolved? ==> r == ListLookup(db, hasClient, t, Chain(chainId))
    ensures var (found, d1) := ListLookup(db, hasClient, t, Chain(chainId));
      found.Resolved? && GlnKeys(found.value).None? ==>
        r.0 == Rejected(TypeError) &&
        r.1 == (if hasClient && found.value.Arr? then DropAll(d1, SentKeysOf(found.value.elems)) else d1)
    ensures WellFormed(db) ==> WellFormed(r.1)
  {
    var (found, d1) := ListLookup(db, hasClient, t, Chain(chainId));
    if !found.Resolved? then (found, d1)
    else match GlnKeys(found.value)
      case None =>
        (Rejected(TypeError), if hasClient && found.value.Arr? then DropAll(d1, SentKeysOf(found.value.elems)) else d1)
      case Some(ks) =>
        if hasClient then (Resolved(InvalidatedAnswer), DropAll(d1, ks + [ChainKey(chainId), AllMerchantsKey]))
        else (Rejected(Exception([("success", Bool(false)), ("error", FailureValue(TypeError))])), d1)
  }

  /**
   * After a successful invalidation neither the chain entry, nor the "all"
   * entry, nor the entry of any merchant the chain lookup answered is cached.
   */
  lemma InvalidateClears(db: Db, t: Table, chainId: string)
    requires Invalidate(db, true, t, chainId).0.Resolved?
    ensures var d := Invalidate(db, true, t, chainId).1;
      var v := ListLookup(db, true, t, Chain(chainId)).0.value;
      ChainKey(chainId) !in d.values && AllMerchantsKey !in d.values &&
      (v.Arr? ==> forall i :: 0 <= i < |v.elems| ==> SingleMerchantKey(ToStr(Get(v.elems[i], "gln"))) !in d.values)
  {
    var (found, d1) := ListLookup(db, true, t, Chain(chainId));
    var ks := GlnKeys(found.value).value;
    var keys := ks + [ChainKey(chainId), AllMerchantsKey];
    assert keys[|keys| - 2] == ChainKey(chainId) && keys[|keys| - 1] == AllMerchantsKey;
    if found.value.Arr? {
      forall i | 0 <= i < |found.value.elems| ensures SingleMerchantKey(ToStr(Get(found.value.elems[i], "gln"))) in keys {
        assert keys[i] == ks[i];
      }
    }
  }

  /**
   * When the chain lookup answers an array whose element `i` is the first
   * null or undefined one, invalidation rejects with the TypeError, the
   * entries of the merchants before it are already deleted, and every other
   * key keeps its value.
   */
  lemma InvalidateThrowKeepsEarlierDeletes(db: Db, t: Table, chainId: string, i: nat)
    requires var found := ListLookup(db, true, t, Chain(chainId)).0;
      found.Resolved? && found.value.Arr? && i < |found.value.elems| && IsNil(found.value.elems[i]) &&
      forall j :: 0 <= j < i ==> !IsNil(found.value.elems[j])
    ensures var (found, d1) := ListLookup(db, true, t, Chain(chainId));
      var r := Invalidate(db, true, t, chainId);
      r.0 == Rejected(TypeError) &&
      (forall j :: 0 <= j < i ==> SingleMerchantKey(ToStr(Get(found.value.elems[j], "gln"))) !in r.1.values) &&
      (forall k :: k in d1.values && k !in SentKeysOf(found.value.elems) ==> k in r.1.values && r.1.values[k] == d1.values[k])
  {
    var (found, d1) := ListLookup(db, true, t, Chain(chainId));
    var ks := SentKeysOf(found.value.elems);
    assert |ks| == i;
    assert GlnKeys(found.value).None?;
    forall j | 0 <= j < i ensures SingleMerchantKey(ToStr(Get(found.value.elems[j], "gln"))) in ks {
      assert ks[j] == SingleMerchantKey(ToStr(Get(found.value.elems[j], "gln")));
    }
  }

  /** The module state: the shared cache, the table, and how many table services were created. */
  class MerchantStorage {
    const cache: RedisCacheV2
    var table: Table
    /** The module-level `service` is created again on every table access. */
    var servicesCreated: nat

    predicate Valid()
      reads this, cache
    {
      cache.Valid()
    }

    constructor(c: RedisCacheV2, t: Table)
      requires c.Valid()
      ensures Valid() && cache == c && table == t && servicesCreated == 0
    {
      cache := c;
      table := t;
      servicesCreated := 0;
    }

    /** `connect`: the early exit lacks `return`, so a new table service is made every time. */
    method Connect() returns (failure: Option<Failure>)
      modifies this
      ensures failure == ConnectError(table)
      ensures servicesCreated == old(servicesCreated) + 1 && table == old(table)
    {
      servicesCreated := servicesCreated + 1;
      failure := ConnectError(table);
    }

    /** `RedisCache.get` followed by `JSON.parse`; a rejection or a parse error is a miss. */
    method ReadCache(key: string) returns (hit: Option<JsValue>)
      requires Valid()
      ensures hit == CachedValue(cache.db, cache.hasClient, key)
    {
      var g := cache.Get(Str(key));
      if g.Resolved? {
        hit := Json.Parse(ToStr(g.value));
      } else {
        hit := None;
      }
    }

    /** `cacheMerchants`: both requests are sent and what they answer is ignored. */
    method CacheMerchants(key: string, data: JsValue)
      requires Valid()
      modifies cache
      ensures Valid()
      ensures cache.db == WriteBack(old(cache.db), old(cache.hasClient), key, data)
      ensures cache.hasClient == old(cache.hasClient)
    {
      var text := if data.Undefined? then Undefined else Str(Json.Stringify(data).value);
      var _ := cache.Set(Str(key), text, true);
      var _ := cache.Expire(Str(key), TTL_ONE_DAY);
    }

    /** `getMerchant`. */
    method GetMerchant(gln: string) returns (r: Outcome<JsValue>)
      requires Valid()
      modifies this, cache
      ensures Valid() && table == old(table) && cache.hasClient == old(cache.hasClient)
      ensures (r, cache.db) == MerchantLookup(old(cache.db), old(cache.hasClient), table, gln)
      ensures servicesCreated ==
        old(servicesCreated) + if CachedValue(old(cache.db), old(cache.hasClient), SingleMerchantKey(gln)).Some? then 0 else 1
    {
      var key := SingleMerchantKey(gln);
      var hit := ReadCache(key);
      if hit.Some? {
        return Resolved(hit.value);
      }
      var failure := Connect();
      if failure.Some? {
        return Rejected(failure.value);
      }
      var reply := RetrieveEntity(table, gln, gln);
      if reply.TableErr? {
        return Rejected(Exception([("message", reply.error.message), ("code", reply.error.statusCode)]));
      }
      var merchant := MapEntity(reply.result).value;
      CacheMerchants(key, Undefined);
      r := Resolved(ToJs(merchant));
    }

    /** The `forEach` that keeps the merchants with both credentials. */
    method CollectMerchants(entries: seq<JsValue>) returns (r: Option<seq<MerchantInfo>>)
      ensures r == ValidMerchants(entries)
    {
      var merchants: seq<MerchantInfo> := [];
      var i := 0;
      while i < |entries|
        invariant 0 <= i <= |entries|
        invariant Entities(entries[..i]).Some? && merchants == WithCredentials(Entities(entries[..i]).value)
      {
        assert entries[..i + 1][..i] == entries[..i];
        var m := MapEntity(entries[i]);
        if m.None? {
          NilEntryThrows(entries, i);
          return None;
        }
        EntitiesSnoc(entries, i);
        WithCredentialsSnoc(Entities(entries[..i]).value, m.value);
        merchants := merchants + Kept(m.value);
        i := i + 1;
      }
      assert entries[..i] == entries;
      r := Some(merchants);
    }

    /** `getMerchantsForChain` and `getAllMerchants`. */
    method ListMerchants(scope: Scope) returns (r: Outcome<JsValue>)
      requires Valid()
      modifies this, cache
      ensures Valid() && table == old(table) && cache.hasClient == old(cache.hasClient)
      ensures (r, cache.db) == ListLookup(old(cache.db), old(cache.hasClient), table, scope)
      ensures servicesCreated ==
        old(servicesCreated) + if CachedValue(old(cache.db), old(cache.hasClient), ScopeKey(scope)).Some? then 0 else 1
    {
      var hit := ReadCache(ScopeKey(scope));
      if hit.Some? {
        return Resolved(hit.value);
      }
      r := QueryMerchants(scope);
    }

    /** The table side of a lookup that missed the cache. */
    method QueryMerchants(scope: Scope) returns (r: Outcome<JsValue>)
      requires Valid()
      modifies this, cache
      ensures Valid() && table == old(table) && cache.hasClient == old(cache.hasClient)
      ensures var answer := ListFromTable(table, scope);
        r == answer.0 &&
        cache.db == if answer.1.Some? then WriteBack(old(cache.db), old(cache.hasClient), ScopeKey(scope), answer.1.value)
                    else old(cache.db)
      ensures servicesCreated == old(servicesCreated) + 1
    {
      var failure := Connect();
      if failure.Some? {
        return Rejected(failure.value);
      }
      var reply := QueryEntities(table, ScopeFilter(scope));
      if reply.TableErr? {
        return Rejected(Exception([("message", reply.error.message), ("code", Or(reply.error.statusCode, Num(500)))]));
      }
      r := AnswerEntries(scope, At(reply.result, "entries"));
    }

    /** The `entries` branch of the query callback. */
    method AnswerEntries(scope: Scope, entries: JsValue) returns (r: Outcome<JsValue>)
      requires Valid()
      modifies cache
      ensures Valid() && cache.hasClient == old(cache.hasClient)
      ensures var answer := EntriesAnswer(entries, scope);
        r == answer.0 &&
        cache.db == if answer.1.Some? then WriteBack(old(cache.db), old(cache.hasClient), ScopeKey(scope), answer.1.value)
                    else old(cache.db)
    {
      if !(entries.Arr? && |entries.elems| > 0) {
        return NoEntries(scope);
      }
      var ms := CollectMerchants(entries.elems);
      if ms.None? {
        return NeverSettles(TypeError);
      }
      var data := Arr(ToJsAll(ms.value));
      CacheMerchants(ScopeKey(scope), data);
      r := Resolved(data);
    }

    method GetMerchantsForChain(chainId: string) returns (r: Outcome<JsValue>)
      requires Valid()
      modifies this, cache
      ensures Valid() && table == old(table) && cache.hasClient == old(cache.hasClient)
      ensures (r, cache.db) == ListLookup(old(cache.db), old(cache.hasClient), table, Chain(chainId))
    {
      r := ListMerchants(Chain(chainId));
    }

    method GetAllMerchants() returns (r: Outcome<JsValue>)
      requires Valid()
      modifies this, cache
      ensures Valid() && table == old(table) && cache.hasClient == old(cache.hasClient)
      ensures (r, cache.db) == ListLookup(old(cache.db), old(cache.hasClient), table, All)
    {
      r := ListMerchants(All);
    }

    /** `invalidateCache`. */
    method InvalidateCache(chainId: string) returns (r: Outcome<JsValue>)
      requires Valid()
      modifies this, cache
      ensures Valid() && table == old(table) && cache.hasClient == old(cache.hasClient)
      ensures (r, cache.db) == Invalidate(old(cache.db), old(cache.hasClient), table, chainId)
    {
      var found := ListMerchants(Chain(chainId));
      if !found.Resolved? {
        return found;
      }
      var keys := GlnKeys(found.value);
      if keys.None? {
        if found.value.Arr? {
          var ignored := DeleteAll(SentKeysOf(found.value.elems));
        }
        return Rejected(TypeError);
      }
      var failure := DeleteAll(keys.value + [ChainKey(chainId), AllMerchantsKey]);
      if failure.Some? {
        return Rejected(Exception([("success", Bool(false)), ("error", FailureValue(failure.value))]));
      }
      r := Resolved(InvalidatedAnswer);
    }

    /** The deletes of `Promise.all`, taken in order: every key is sent; the first failure is kept. */
    method DeleteAll(keys: seq<string>) returns (failure: Option<Failure>)
      requires Valid()
      modifies cache
      ensures Valid()
      ensures cache.db == (if old(cache.hasClient) then DropAll(old(cache.db), keys) else old(cache.db))
      ensures failure == (if old(cache.hasClient) || |keys| == 0 then None else Some(TypeError))
      ensures cache.hasClient == old(cache.hasClient)
    {
      failure := None;
      var i := 0;
      while i < |keys|
        invariant 0 <= i <= |keys|
        invariant cache.Valid() && cache.hasClient == old(cache.hasClient)
        invariant cache.db == (if cache.hasClient then DropAll(old(cache.db), keys[..i]) else old(cache.db))
        invariant failure == (if cache.hasClient || i == 0 then None else Some(TypeError))
      {
        assert keys[..i + 1][..i] == keys[..i];
        var d := cache.Del(Str(keys[i]));
        if d.Rejected? && failure.None? {
          failure := Some(d.reason);
        }
        i := i + 1;
      }
      assert keys[..i] == keys;
    }
  }
}
