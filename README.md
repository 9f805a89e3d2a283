# The stores service's caching and lookup layer, in Dafny

This project models the core of the `stores` microservice and proves
properties of the model. The service answers questions about a retail
chain's stores. The model covers:

- **Search query builder** (`search_utils.dfy`, module `SearchUtils`): the
  static filters built from configuration, the compact facet string
  (`name:value;...`, values separated by a pipe, a leading `!` negating),
  aggregations, paging and result shaping. The clauses form the closed
  datatype `Clause` (term, terms, range, exists).
- **Redis client** (`redis_cache.dfy`, class `RedisCache.RedisCacheV2`): the
  connection state machine and the key, list, set and sorted-set commands,
  with their argument checks. The commands run against a model of the Redis
  server (`redis_server.dfy`), written from the command reference at
  redis.io. The `scan` cursor loop is a method with its invariants.
- **Cache-aside merchant store** (`merchants.dfy`, class
  `Merchants.MerchantStorage`): merchant lookups by GLN, by chain and in
  total. It sits on the Redis model and on a scripted MerchantInfo table.
- **Elasticsearch service** (`elasticsearch.dfy`): get, mget and search
  with their reply shaping, and the paged scroll over a scripted backend
  (class `ScrollBackend`). It also covers `createErrorObject` and the
  health probe.
- **Backend router** (`external_request.dfy`): which upstream a request
  goes to, the URI it is sent to and the headers it carries. It also covers
  how the upstream's events settle the promise of `handleRequest`.
- **Mappers** (`store_mapper.dfy`, `fees_mapper.dfy`,
  `pickupslots_mapper.dfy`, `alcohol_mapper.dfy`): search documents become
  the platform's records.
- **Store service** (`stores.dfy`): store lookups, the PayEx-valid store
  filter, the store status codes, the bag fees, and the closest pickup
  points behind the cache.

Shared modules hold the JavaScript semantics the source relies on:

- `Dicts`: objects as insertion-ordered association lists.
- `JsValues`: dynamic values, truthiness, property reads and `String()`.
- `Promises`: failures, outcomes and settle-once promises.
- `Json`: `JSON.stringify` and `JSON.parse` over the value model, with a
  proved round trip.
- `Strings`, `Sequences` and `Options`: helpers.

Every asynchronous operation has an outcome of type `Promises.Outcome`. The
outcome is one of four:

- `Resolved`: the promise resolves.
- `Rejected`: the promise rejects.
- `Throws`: the call throws before it returns a promise.
- `NeverSettles`: the error escaped into a callback, as an uncaught
  exception or an unhandled rejection.

The backends are parameters or scripted objects:

- The Elasticsearch client's replies.
- The table's rows and failures.
- The scroll pages.
- The upstream's response events.

The shared Redis cache is one `RedisCacheV2` instance that is passed in.

Three behaviours of the code that callers may not expect:

- When no merchant has valid PayEx settings, `getStoresWithValidPayexSettings`
  resolves with an empty list. It does not fail
  (`Stores.NoPayexMerchantsIsEmpty`).
- A merchant missing from the table gives status code 101, not 100. The
  lookup's error carries `code` 404 and no `statusCode`
  (`Stores.MissingMerchantGives101`).
- An Elasticsearch get whose reply has `found: false` is rejected, like a
  missing document.

## Model

| member | source | states |
|---|---|---|
| RedisServer.Drop | stores/src/modules/storage/RedisCacheV2.ts:203-217 | removing a key removes its time to live too and changes no other key; a well-formed keyspace stays well-formed |
| RedisServer.Store | stores/src/modules/storage/RedisCacheV2.ts:307-320 | an aggregate write keeps the key's time to live, and an emptied list, set or sorted set deletes the key, touching no other key |
| RedisServer.CmdGet | stores/src/modules/storage/RedisCacheV2.ts:112-117 | GET answers null for a missing key, the string for a string key and a wrong-type error for an aggregate |
| RedisServer.CmdSet | stores/src/modules/storage/RedisCacheV2.ts:138 | SET answers "OK", binds the key to the text whatever it held, clears its time to live and changes no other key |
| RedisServer.CmdSetex | stores/src/modules/storage/RedisCacheV2.ts:169 | SETEX with a non-positive time is refused with nothing changed; otherwise it binds the text with that time to live |
| RedisServer.CmdExpire | stores/src/modules/storage/RedisCacheV2.ts:190 | EXPIRE answers 0 and changes nothing for a missing key; otherwise 1, with a positive time recorded and a non-positive one deleting the key |
| RedisServer.CmdDel | stores/src/modules/storage/RedisCacheV2.ts:209 | DEL leaves the key and its time to live gone and answers 1 exactly when the key existed |
| RedisServer.CmdLlen | stores/src/modules/storage/RedisCacheV2.ts:273-293 | LLEN is the list length, 0 for a missing key, and a wrong-type error for a non-list |
| RedisServer.CmdLpush | stores/src/modules/storage/RedisCacheV2.ts:295-320 | LPUSH puts the value at the head and answers the new length; a non-list key is refused unchanged |
| RedisServer.CmdRpop | stores/src/modules/storage/RedisCacheV2.ts:322-341 | RPOP removes and answers the tail, null for an empty list, and refuses a non-list |
| RedisServer.Span | stores/src/modules/storage/RedisCacheV2.ts:343-364 | the inclusive start/stop offsets select a clamped range inside the sequence, and in-range offsets select exactly start..stop |
| RedisServer.Window | stores/src/modules/storage/RedisCacheV2.ts:343-364 | a selection is never longer than the sequence |
| RedisServer.WindowAll | stores/src/modules/storage/RedisCacheV2.ts:351 | the default offsets 0 and -1 of `lrange` select the whole list |
| RedisServer.WindowLast | stores/src/modules/storage/RedisCacheV2.ts:351 | offsets -1..-1 select exactly the last element |
| RedisServer.WindowPastEnd | stores/src/modules/storage/RedisCacheV2.ts:351 | a start past the end selects nothing |
| RedisServer.CmdLrange | stores/src/modules/storage/RedisCacheV2.ts:357 | LRANGE answers the selected elements head first, and refuses a non-list |
| RedisServer.CmdLtrim | stores/src/modules/storage/RedisCacheV2.ts:366-385 | LTRIM keeps exactly the selected elements, deleting the key when none remain, and refuses a non-list |
| RedisServer.LtrimThenLrange | stores/src/modules/storage/RedisCacheV2.ts:366-385 | after LTRIM the whole list equals what LRANGE with the same offsets answered before |
| RedisServer.CmdSadd | stores/src/modules/storage/RedisCacheV2.ts:410-428 | SADD adds the member and answers 1 exactly when it was new; a non-set key is refused unchanged |
| RedisServer.CmdSrem | stores/src/modules/storage/RedisCacheV2.ts:430-448 | SREM removes the member, answers 1 exactly when it was present, changes nothing when absent and refuses a non-set |
| RedisServer.SaddSrem | stores/src/modules/storage/RedisCacheV2.ts:410-448 | SADD then SREM of an absent member restores the set |
| RedisServer.Without | stores/src/modules/storage/RedisCacheV2.ts:450-469 | dropping a member from sorted-set entries keeps exactly the other entries, their order and uniqueness |
| RedisServer.Insert | stores/src/modules/storage/RedisCacheV2.ts:450-469 | inserting a new entry adds exactly that entry and keeps the set ascending by score, then member |
| RedisServer.AscendingFirst | stores/src/modules/storage/RedisCacheV2.ts:471-489 | in an ascending sorted set the lowest-ranked entry precedes every other |
| RedisServer.ZaddEntries | stores/src/modules/storage/RedisCacheV2.ts:462 | after ZADD the member occurs once, with its new score, the other entries are kept, and order and uniqueness are preserved |
| RedisServer.CmdZadd | stores/src/modules/storage/RedisCacheV2.ts:450-469 | ZADD places the member by its new score and answers 1 exactly when it is new; a non-sorted-set key is refused unchanged |
| RedisServer.CmdZrange | stores/src/modules/storage/RedisCacheV2.ts:471-489 | ZRANGE answers the selected members lowest score first, and refuses a non-sorted-set |
| RedisServer.Cut | stores/src/modules/storage/RedisCacheV2.ts:387-408 | removing a block of ranks leaves exactly the entries outside it, still ordered and unique |
| RedisServer.CmdZremrangebyrank | stores/src/modules/storage/RedisCacheV2.ts:387-408 | ZREMRANGEBYRANK removes the selected ranks and answers how many went; a non-sorted-set is refused unchanged |
| RedisServer.CutKeepsOrder | stores/src/modules/storage/RedisCacheV2.ts:387-408 | cutting ranks out of a sorted set keeps it ascending with unique members |
| RedisServer.PushAllList | stores/src/modules/storage/RedisCacheV2.ts:295-306 | successive LPUSHes put the values in front, last pushed first |
| RedisServer.PopAllList | stores/src/modules/storage/RedisCacheV2.ts:322-327 | popping a whole list answers its elements tail first |
| RedisServer.LpushRpopFifo | stores/src/modules/storage/RedisCacheV2.ts:295-341 | LPUSH and RPOP on a fresh key form a first-in first-out queue |
| RedisServer.SetThenGet | stores/src/modules/storage/RedisCacheV2.ts:106-148 | a value SET is read back unchanged by GET |
| RedisServer.SetexThenGet | stores/src/modules/storage/RedisCacheV2.ts:106-177 | an accepted SETEX is read back unchanged by GET |
| RedisServer.DelThenGet | stores/src/modules/storage/RedisCacheV2.ts:106-217 | after DEL, GET finds nothing |
| RedisCache.TtlSeconds | stores/src/modules/storage/RedisCacheV2.ts:29-33 | the expiry constants are 60, 3600, 86400, 604800 and 2419200 seconds |
| RedisCache.Settle | stores/src/modules/storage/RedisCacheV2.ts:139-145 | a command's promise resolves with the reply exactly when the server answered without error, and rejects with the error otherwise |
| RedisCache.Call | stores/src/modules/storage/RedisCacheV2.ts:203-217 | a non-string key rejects with "Missing key" and sends nothing; no client rejects with a TypeError; otherwise the server's answer decides the new keyspace and the outcome |
| RedisCache.Parsed | stores/src/modules/storage/RedisCacheV2.ts:143 | `useRaw` keeps the reply; otherwise the reply "OK" is not JSON, so the parse throws in the callback and the promise never settles |
| RedisCache.OkIsNotJson | stores/src/modules/storage/RedisCacheV2.ts:143 | the text "OK" does not parse as JSON |
| RedisCache.RedisCacheV2.constructor | stores/src/modules/storage/RedisCacheV2.ts:35-37 | a new client is unconnected, has no client and no stored promise |
| RedisCache.RedisCacheV2.Connect | stores/src/modules/storage/RedisCacheV2.ts:47-100 | already connected answers at once and changes nothing; a client with a stored promise answers that promise; otherwise exactly one client is created, ready at once in test mode, authenticating outside local mode |
| RedisCache.RedisCacheV2.OnReady | stores/src/modules/storage/RedisCacheV2.ts:84-89 | the ready event marks the client connected and resolves the stored promise if it is still pending |
| RedisCache.RedisCacheV2.OnEnd | stores/src/modules/storage/RedisCacheV2.ts:90-92 | the end event marks the client disconnected and keeps the client and its promise |
| RedisCache.RedisCacheV2.OnError | stores/src/modules/storage/RedisCacheV2.ts:93-96 | the error event rejects the stored promise if it is still pending |
| RedisCache.RedisCacheV2.Get | stores/src/modules/storage/RedisCacheV2.ts:106-120 | a non-string key rejects with "Missing key", a missing key rejects with Error("Not found"), a stored string resolves |
| RedisCache.RedisCacheV2.Set | stores/src/modules/storage/RedisCacheV2.ts:128-148 | a non-string key or falsy data rejects with nothing stored; otherwise the key holds the data's string form with no time to live |
| RedisCache.RedisCacheV2.Setex | stores/src/modules/storage/RedisCacheV2.ts:157-177 | the key, timeout and data checks are made in that order, each rejecting with nothing stored; otherwise the text is stored with the time to live |
| RedisCache.RedisCacheV2.Expire | stores/src/modules/storage/RedisCacheV2.ts:184-197 | the new keyspace and the outcome are those of EXPIRE behind the key check |
| RedisCache.RedisCacheV2.Del | stores/src/modules/storage/RedisCacheV2.ts:203-217 | the new keyspace and the outcome are those of DEL behind the key check |
| RedisCache.RedisCacheV2.Llen | stores/src/modules/storage/RedisCacheV2.ts:280-293 | the outcome is LLEN's reply behind the key check; nothing changes |
| RedisCache.RedisCacheV2.Lpush | stores/src/modules/storage/RedisCacheV2.ts:307-320 | the new keyspace and the outcome are those of LPUSH behind the key check |
| RedisCache.RedisCacheV2.Rpop | stores/src/modules/storage/RedisCacheV2.ts:328-341 | the new keyspace and the outcome are those of RPOP behind the key check |
| RedisCache.RedisCacheV2.Lrange | stores/src/modules/storage/RedisCacheV2.ts:351-364 | the outcome is LRANGE's reply behind the key check; nothing changes |
| RedisCache.RedisCacheV2.Ltrim | stores/src/modules/storage/RedisCacheV2.ts:372-385 | the new keyspace and the outcome are those of LTRIM behind the key check |
| RedisCache.RedisCacheV2.Zremrangebyrank | stores/src/modules/storage/RedisCacheV2.ts:395-408 | the new keyspace and the outcome are those of ZREMRANGEBYRANK behind the key check |
| RedisCache.RedisCacheV2.Sadd | stores/src/modules/storage/RedisCacheV2.ts:415-428 | the new keyspace and the outcome are those of SADD behind the key check |
| RedisCache.RedisCacheV2.Srem | stores/src/modules/storage/RedisCacheV2.ts:435-448 | the new keyspace and the outcome are those of SREM behind the key check |
| RedisCache.RedisCacheV2.Zadd | stores/src/modules/storage/RedisCacheV2.ts:456-469 | the new keyspace and the outcome are those of ZADD behind the key check |
| RedisCache.RedisCacheV2.Zrange | stores/src/modules/storage/RedisCacheV2.ts:476-489 | the outcome is ZRANGE's reply behind the key check; nothing changes |
| RedisCache.RedisCacheV2.Scan | stores/src/modules/storage/RedisCacheV2.ts:225-271 | the first SCAN sends cursor "0" and each later one the cursor just returned; it stops at cursor "0" with the keys of all pages, each once |
| RedisCache.FirstStop | stores/src/modules/storage/RedisCacheV2.ts:256-262 | the scan ends at the first reply whose cursor is "0", and every reply before it let the scan go on |
| RedisCache.ScanStops | stores/src/modules/storage/RedisCacheV2.ts:256-262 | a reply with cursor "0" after only running replies is where the scan ends |
| RedisCache.ScanRunsOut | stores/src/modules/storage/RedisCacheV2.ts:264-265 | while no reply has cursor "0", the scan is still running |
| RedisCache.Unique | stores/src/modules/storage/RedisCacheV2.ts:233-235 | de-duplication keeps exactly the keys that were found |
| RedisCache.IndexOf | stores/src/modules/storage/RedisCacheV2.ts:234 | `indexOf` finds the first occurrence |
| RedisCache.UniqueDistinct | stores/src/modules/storage/RedisCacheV2.ts:259 | the keys a scan resolves with occur once each |
| RedisCache.UniqueFirstSeenOrder | stores/src/modules/storage/RedisCacheV2.ts:259 | the keys a scan resolves with keep the order in which they were first seen |
| Merchants.Pick | stores/src/modules/storage/merchants.ts:238-240 | for a row that is not nil, the `_` of a truthy attribute and `null` for a falsy one; a nil row throws |
| Merchants.MapEntity | stores/src/modules/storage/merchants.ts:224-236 | mapping fails (reading a property of it throws) exactly for a null or undefined row; otherwise each of the eight fields is the `_` of its attribute when that attribute is truthy and `null` otherwise, the GLN coming from `RowKey` |
| Merchants.MapEntityChain | stores/src/modules/storage/merchants.ts:226 | the merchant's chain id is the `_` of the row's `ChainId` attribute |
| Merchants.MapEntityGln | stores/src/modules/storage/merchants.ts:227 | the merchant's GLN is the `_` of the row's `RowKey` attribute |
| Merchants.MapEntityRoundTrip | stores/src/modules/storage/merchants.ts:224-240 | a table row holding the eight attributes of a merchant, each wrapped as `{_: value}`, maps back to that merchant |
| Merchants.ToJs | stores/src/modules/storage/merchants.ts:225-234 | a merchant is an object of exactly the eight properties `mapEntity` writes |
| Merchants.ToJsFromJs | stores/src/modules/storage/merchants.ts:225-234 | reading the eight properties back gives the same merchant, as a cache hit reads it |
| Merchants.ToJsAll | stores/src/modules/storage/merchants.ts:125-141 | a list of merchants becomes a list of their objects, element by element |
| Merchants.SingleMerchantKey | stores/src/modules/storage/merchants.ts:250-252 | the single-merchant key is "merchant-" followed by the GLN |
| Merchants.ChainKey | stores/src/modules/storage/merchants.ts:246-248 | the chain key is "merchant-" followed by the chain id |
| Merchants.KeysShareNamespace | stores/src/modules/storage/merchants.ts:242-252 | a GLN equal to a chain id names the same cache entry as that chain, and neither is the "all" key "merchants" |
| Merchants.Matching | stores/src/modules/storage/merchants.ts:111 | a query returns only table rows, and with a chain filter only rows whose `ChainId` equals it |
| Merchants.QueryEntities | stores/src/modules/storage/merchants.ts:114 | a table read error is answered as the error; otherwise the result's `entries` are the matching rows |
| Merchants.FindRow | stores/src/modules/storage/merchants.ts:66 | `retrieveEntity` finds a row with that partition key and row key, and finds nothing only when no row has both |
| Merchants.RetrieveEntity | stores/src/modules/storage/merchants.ts:66 | a table read error is answered as the error; a row found is an object of the table |
| Merchants.ConnectError | stores/src/modules/storage/merchants.ts:28-47 | table setup rejects exactly when creating the table fails, with code the error's status code or 500 when it has none |
| Merchants.Entities | stores/src/modules/storage/merchants.ts:126-127 | mapping every entry succeeds exactly when no entry is null or undefined, and then keeps length and order |
| Merchants.EntitiesSnoc | stores/src/modules/storage/merchants.ts:126-127 | mapping one more entry appends its merchant |
| Merchants.WithCredentialsSnoc | stores/src/modules/storage/merchants.ts:128-136 | the `forEach` filter handles one merchant at a time: one more merchant adds it exactly when it has both credentials |
| Merchants.WithCredentials | stores/src/modules/storage/merchants.ts:126-137 | the `forEach` filter keeps only merchants with both credentials and never adds merchants |
| Merchants.WithCredentialsMembers | stores/src/modules/storage/merchants.ts:128-136 | a merchant is kept exactly when it is in the input and has both an account number and an encryption key |
| Merchants.WithCredentialsAppend | stores/src/modules/storage/merchants.ts:126-137 | the filter keeps the order of the merchants |
| Merchants.NoneWithCredentials | stores/src/modules/storage/merchants.ts:125-141 | entries of which none has both credentials resolve with an empty list, not an error |
| Merchants.ValidMerchantsOfChain | stores/src/modules/storage/merchants.ts:111-141 | from a chain query every merchant answered belongs to that chain and has both credentials |
| Merchants.CachedValue | stores/src/modules/storage/merchants.ts:96-104 | without a client, or for a missing key, the cache read is a miss |
| Merchants.WriteBack | stores/src/modules/storage/merchants.ts:254-264 | `cacheMerchants` stores the JSON text and a one-day expiry; with undefined data only the EXPIRE takes effect; without a client nothing changes; no other key changes |
| Merchants.WriteBackThenRead | stores/src/modules/storage/merchants.ts:254-264 | after a write-back of a JSON-representable value, the next cache read finds that same value |
| Merchants.SingleWriteBackStoresNothing | stores/src/modules/storage/merchants.ts:81 | the single-merchant write-back, which passes no data, stores no value |
| Merchants.ListFromTable | stores/src/modules/storage/merchants.ts:105-157 | after a cache miss a list lookup's answer is written back exactly when it resolves, and then it is an array; a query error rejects with its status code or 500 |
| Merchants.NoEntries | stores/src/modules/storage/merchants.ts:142-150 | no entries rejects a chain lookup and leaves the "all" lookup never settling (the throw at line 210), both with error code 500 |
| Merchants.EntriesAnswer | stores/src/modules/storage/merchants.ts:125-151 | entries that are not a non-empty array are never written back, rejecting for a chain lookup; a resolved answer is the array written back |
| Merchants.MerchantFromTable | stores/src/modules/storage/merchants.ts:62-91 | a row found resolves with its merchant; no row rejects with code 404 |
| Merchants.ToJsAllCredentialed | stores/src/modules/storage/merchants.ts:134-141 | the objects of credentialed merchants of one chain are credentialed and of that chain |
| Merchants.TableAnswerIs | stores/src/modules/storage/merchants.ts:109-141 | a resolved table answer is the array of the filtered merchants of the matching rows |
| Merchants.TableAnswerFiltered | stores/src/modules/storage/merchants.ts:125-141 | every merchant a table answer holds has both credentials, and a chain answer only merchants of that chain |
| Merchants.ListLookup | stores/src/modules/storage/merchants.ts:94-104 | a cache hit answers the cached value and changes nothing; a miss that does not resolve changes nothing; only the lookup's own key may change |
| Merchants.ListLookupCaches | stores/src/modules/storage/merchants.ts:94-141 | cache-aside: after a lookup resolved from the table, the next lookup answers the same from the cache, whatever the table holds by then |
| Merchants.MerchantLookup | stores/src/modules/storage/merchants.ts:51-92 | a cache hit answers the cached value; a single-merchant lookup never changes any stored value |
| Merchants.MerchantLookupNeverCaches | stores/src/modules/storage/merchants.ts:81 | as written, a merchant that missed the cache is still missing from it after the lookup |
| Merchants.MerchantLookupRepeats | stores/src/modules/storage/merchants.ts:62-91 | as written, a lookup of an uncached merchant is answered from the table again next time |
| Merchants.MerchantLookupFixed | stores/src/modules/storage/merchants.ts:51-92 | with the written-back data passed, a missed lookup still answers what the table holds |
| Merchants.MerchantLookupFixedCaches | stores/src/modules/storage/merchants.ts:81 | with the data passed, the next lookup answers the same merchant from the cache |
| Merchants.NilEntryThrows | stores/src/modules/storage/merchants.ts:126-128 | a null or undefined entry makes the filter throw |
| Merchants.DropAll | stores/src/modules/storage/merchants.ts:271-276 | after deleting the keys in turn none of them is stored and every other key keeps its value |
| Merchants.GlnKeys | stores/src/modules/storage/merchants.ts:271-273 | the `for ... of` loop yields one key per element, failing on a null or undefined one; a string yields one "merchant-undefined" per character; anything else throws |
| Merchants.GlnKeysOf | stores/src/modules/storage/merchants.ts:271-273 | an array's keys exist exactly when no element is null or undefined, one per element in order |
| Merchants.SentKeysOf | stores/src/modules/storage/merchants.ts:271-273 | the keys whose DELs the loop has sent when it reaches the first null or undefined element: one per element before it, in order |
| Merchants.Invalidate | stores/src/modules/storage/merchants.ts:266-289 | invalidation answers `{success: true}` exactly when there is a client, the chain lookup resolves and its keys can be read; a failed chain lookup is passed on unchanged; when the loop throws on a null element the TypeError rejects after the DELs already sent for the earlier merchants have taken effect |
| Merchants.InvalidateThrowKeepsEarlierDeletes | stores/src/modules/storage/merchants.ts:271-273 | on a chain answer whose first null element is at `i`, the call rejects with the TypeError, the entries of the `i` merchants before it are gone and every other key keeps its value |
| Merchants.InvalidateClears | stores/src/modules/storage/merchants.ts:271-276 | after a successful invalidation neither the chain entry, the "all" entry nor any answered merchant's entry is cached |
| Merchants.MerchantStorage.constructor | stores/src/modules/storage/merchants.ts:9-11 | the module starts with no table service created |
| Merchants.MerchantStorage.Connect | stores/src/modules/storage/merchants.ts:17-49 | `connect` creates a new table service every time (the early exit lacks `return`) and rejects exactly as the table setup fails |
| Merchants.MerchantStorage.ReadCache | stores/src/modules/storage/merchants.ts:53-61 | the cache read followed by `JSON.parse` finds exactly the cached value |
| Merchants.MerchantStorage.CacheMerchants | stores/src/modules/storage/merchants.ts:254-264 | sends SET and EXPIRE and leaves the keyspace of the write-back |
| Merchants.MerchantStorage.GetMerchant | stores/src/modules/storage/merchants.ts:51-92 | answers and leaves the cache as the single-merchant lookup says, creating a table service exactly on a cache miss |
| Merchants.MerchantStorage.CollectMerchants | stores/src/modules/storage/merchants.ts:126-137 | the loop collects exactly the credentialed merchants of the entries, in order |
| Merchants.MerchantStorage.ListMerchants | stores/src/modules/storage/merchants.ts:94-222 | answers and leaves the cache as the list lookup says, creating a table service exactly on a cache miss |
| Merchants.MerchantStorage.QueryMerchants | stores/src/modules/storage/merchants.ts:105-157 | the table side of a miss answers and writes back as the table lookup says |
| Merchants.MerchantStorage.AnswerEntries | stores/src/modules/storage/merchants.ts:124-151 | the `entries` branch answers and writes back as the entries answer says |
| Merchants.MerchantStorage.GetMerchantsForChain | stores/src/modules/storage/merchants.ts:94-158 | the chain lookup with its cache effect |
| Merchants.MerchantStorage.GetAllMerchants | stores/src/modules/storage/merchants.ts:160-222 | the "all" lookup with its cache effect |
| Merchants.MerchantStorage.InvalidateCache | stores/src/modules/storage/merchants.ts:266-289 | answers and leaves the cache as the invalidation says, sending the earlier merchants' DELs before throwing on a null element |
| Merchants.MerchantStorage.DeleteAll | stores/src/modules/storage/merchants.ts:278-284 | every DEL is sent; with a client all keys go, without one the first failure is a TypeError |
| Elasticsearch.CreateErrorObject | stores/src/modules/services/elasticsearch.ts:74-82 | the result is an `Error` carrying every property of the original error; a non-empty message replaces its message, and otherwise the message is the original's string form unless the error brought its own |
| Elasticsearch.CreateErrorObjectStable | stores/src/modules/services/elasticsearch.ts:74-82 | wrapping an error object a second time with the same message changes nothing |
| Elasticsearch.EsArgs.constructor | stores/src/modules/services/elasticsearch.ts:89 | the arguments object holds the caller's arguments |
| Elasticsearch.WithoutFlag | stores/src/modules/services/elasticsearch.ts:96-97 | the client receives the arguments without `fullResponse` and with every other argument as the caller passed it |
| Elasticsearch.Restored | stores/src/modules/services/elasticsearch.ts:101 | after the client answers, `fullResponse` is back as a boolean, now the last key |
| Elasticsearch.RestoredFlag | stores/src/modules/services/elasticsearch.ts:96-101 | the caller's flag is still there after the call with the same truthiness, and every other argument is as before |
| Elasticsearch.RestoredStable | stores/src/modules/services/elasticsearch.ts:96-101 | calling again with the restored arguments restores them to the same object |
| Elasticsearch.GetAnswer | stores/src/modules/services/elasticsearch.ts:100-143 | `get` rejects with an Error exactly on an error, a null response or `found: false`; an undefined response without error never settles; otherwise it resolves with the response or its `_source` as `fullResponse` says |
| Elasticsearch.Get404 | stores/src/modules/services/elasticsearch.ts:112-113 | a 404 is reported as `Requested id "<id>" not found`, keeping the error's other properties |
| Elasticsearch.GetErrorMessage | stores/src/modules/services/elasticsearch.ts:111-117 | a 404 status gives `Requested id "<id>" not found`; any other error a message starting "GET failed (" |
| Elasticsearch.Is404 | stores/src/modules/services/elasticsearch.ts:111 | a status counted as 404 is one whose string form is "404" |
| Elasticsearch.GetFoundFalse | stores/src/modules/services/elasticsearch.ts:119-124 | `found: false` without an error rejects with a message naming the id |
| Elasticsearch.GetDocument | stores/src/modules/services/elasticsearch.ts:89-144 | a wrong argument type throws with the arguments untouched; otherwise the client receives the arguments without the flag, the flag is restored and the callback receives the `get` answer |
| Elasticsearch.GetArgsValid | stores/src/modules/services/elasticsearch.ts:91-93 | the assertions pass only when `type`, `index` and `id` are present (and strings) |
| Elasticsearch.MgetAnswer | stores/src/modules/services/elasticsearch.ts:168-196 | `mget` rejects with the error, or "Unknown error" for a null response; otherwise it resolves with the full response or the simple search result, and never throws |
| Elasticsearch.MgetSources | stores/src/modules/services/elasticsearch.ts:183 | without `fullResponse` `mget` answers an array of truthy documents |
| Elasticsearch.Mget | stores/src/modules/services/elasticsearch.ts:156-197 | `mget` checks its arguments, hides and restores the flag and answers as the `mget` answer says |
| Elasticsearch.SimpleHits | stores/src/modules/services/elasticsearch.ts:306-307 | a search result is `response.hits` with its `hits` simplified, and exists only where the simplification succeeds |
| Elasticsearch.SimpleHitsKeeps | stores/src/modules/services/elasticsearch.ts:306-307 | the simplified result keeps every other property of `response.hits`, such as `total` |
| Elasticsearch.SearchAnswer | stores/src/modules/services/elasticsearch.ts:279-319 | `search` rejects with the wrapped error, or an "Unknown error: Got null response" error for a null response; otherwise it resolves with the full response or the simplified hits, and never throws |
| Elasticsearch.SearchNullMessage | stores/src/modules/services/elasticsearch.ts:296-299 | a null search response is reported with the message "Unknown error: Got null response" |
| Elasticsearch.Search | stores/src/modules/services/elasticsearch.ts:268-320 | `search` checks its arguments, hides and restores the flag and answers as the search answer says |
| Elasticsearch.Duration | stores/src/modules/services/elasticsearch.ts:213-218 | the scroll duration is the caller's when truthy, otherwise "30s" |
| Elasticsearch.ScrollSent | stores/src/modules/services/elasticsearch.ts:210-215 | the first search is sent without `fullResponse` |
| Elasticsearch.ScrollArgsValid | stores/src/modules/services/elasticsearch.ts:206-207 | the assertions pass only when `index` (a string) and `body` (an object) are present |
| Elasticsearch.ScrollSentDuration | stores/src/modules/services/elasticsearch.ts:213-223 | the first search asks for the same duration as every later page |
| Elasticsearch.PageHits | stores/src/modules/services/elasticsearch.ts:240-246 | a page adds one hit per element of `response.hits.hits`, the hits themselves with `fullResponse` |
| Elasticsearch.StepOf | stores/src/modules/services/elasticsearch.ts:223-260 | one call of `getMoreUntilDone` either ends with at most one clear, or asks for another page with more hits than before, keeping the earlier ones first |
| Elasticsearch.Scrolling | stores/src/modules/services/elasticsearch.ts:223-260 | a scroll makes at most one page request per scripted reply |
| Elasticsearch.EmptyPageEnds | stores/src/modules/services/elasticsearch.ts:248-258 | an empty page ends the scroll with the hits gathered so far |
| Elasticsearch.ScrollClears | stores/src/modules/services/elasticsearch.ts:232-237 | a successful scroll clears its scroll context exactly once, a failed one at most once |
| Elasticsearch.ScrollAnswersArray | stores/src/modules/services/elasticsearch.ts:237-258 | a scroll never throws, and a successful one answers an array of hits |
| Elasticsearch.ErrorClearsIfScrollId | stores/src/modules/services/elasticsearch.ts:226-237 | a failed reply rejects, clearing the scroll context exactly when the response carries a scroll id |
| Elasticsearch.ScrollReusesDuration | stores/src/modules/services/elasticsearch.ts:249-252 | every page request carries the same duration |
| Elasticsearch.ScrollKeepsEarlierHits | stores/src/modules/services/elasticsearch.ts:220-258 | the hits a scroll returns start with those gathered before |
| Elasticsearch.HitsOf | stores/src/modules/services/elasticsearch.ts:240 | one hit per document |
| Elasticsearch.PageDocs | stores/src/modules/services/elasticsearch.ts:240-246 | without `fullResponse` a page contributes exactly the documents of its hits |
| Elasticsearch.FiveHitsInPagesOfTwo | stores/src/modules/services/elasticsearch.ts:223-260 | five hits in pages of two take the search and two page requests, give the five documents in order and clear once |
| Elasticsearch.ObjectTotalScrollsOn | stores/src/modules/services/elasticsearch.ts:248 | a `total` that is an object never equals the count, so every non-empty page asks for another |
| Elasticsearch.ScrollBackend.constructor | stores/src/modules/services/elasticsearch.ts:63 | a client with its scripted replies and nothing asked yet |
| Elasticsearch.ScrollBackend.Search | stores/src/modules/services/elasticsearch.ts:223 | a search records its arguments and consumes the next reply |
| Elasticsearch.ScrollBackend.Scroll | stores/src/modules/services/elasticsearch.ts:249-252 | a page request is recorded and consumes the next reply |
| Elasticsearch.ScrollBackend.ClearScroll | stores/src/modules/services/elasticsearch.ts:235 | a clear is recorded and nothing else changes |
| Elasticsearch.GetMoreUntilDone | stores/src/modules/services/elasticsearch.ts:223-260 | the callback loop makes exactly the page requests of the scroll specification and ends with its outcome and clears |
| Elasticsearch.ScrollEs | stores/src/modules/services/elasticsearch.ts:204-261 | wrong arguments throw with nothing sent; otherwise the scroll answers as specified, clears as specified, and restores the flag only on success |
| Elasticsearch.Healthy | stores/src/modules/services/elasticsearch.ts:341-349 | a failed request is "Host not ready: " with the error; reading the status of a nil result throws; a red status is not ready and any other is ready |
| Elasticsearch.HealthError | stores/src/modules/services/elasticsearch.ts:344-347 | the callback receives a truthy error exactly when the host is not ready |
| Elasticsearch.IsHealthy | stores/src/modules/services/elasticsearch.ts:351-355 | `isHealthy` resolves true exactly when the cluster answered with a status other than red, and rejects only for a nil result |
| SearchUtils.GetPageNumber | stores/src/modules/utils/search-utils.ts:10-16 | pages 1 and below start at offset 0 |
| SearchUtils.PageNumberStep | stores/src/modules/utils/search-utils.ts:12-14 | from page 1 on, consecutive pages start `size` hits apart |
| SearchUtils.PageWindowsDisjoint | stores/src/modules/utils/search-utils.ts:10-16 | with a positive size, the windows of distinct pages do not overlap |
| SearchUtils.Then | stores/src/modules/utils/search-utils.ts:41-111 | a loop body that threw stops the loop with what was pushed so far; otherwise the next body's clauses follow |
| SearchUtils.TermEach | stores/src/modules/utils/search-utils.ts:52-58 | mode "AND" pushes one `term` clause per value, in order |
| SearchUtils.SettingOf | stores/src/modules/utils/search-utils.ts:50 | `setSF.hasOwnProperty` throws on a nil `setSF`, is false for an unset key and otherwise reads the caller's value |
| SearchUtils.TermFilter | stores/src/modules/utils/search-utils.ts:47-79 | a caller value replaces the default: it emits one clause, or one `term` per element in mode "AND"; an unset filter emits at most its default; every clause is on the filter's field; it throws exactly for a nil value or a nil default that is used |
| SearchUtils.RangeFilter | stores/src/modules/utils/search-utils.ts:80-99 | at most one `range` clause on the field and type; emitted exactly for a caller value without `remove` (with that bound) or an unset filter with a default (with the configured range); a nil caller value throws |
| SearchUtils.ExistsFilter | stores/src/modules/utils/search-utils.ts:100-106 | never throws; emits at most the one `exists` clause on the field, exactly when the filter is unset and on by default |
| SearchUtils.ElemFilters | stores/src/modules/utils/search-utils.ts:45-107 | with a nil `setSF` nothing is emitted, and it throws exactly for the three known filter types |
| SearchUtils.GroupFilters | stores/src/modules/utils/search-utils.ts:43-109 | with a nil `setSF` a group emits no clause |
| SearchUtils.StaticFilters | stores/src/modules/utils/search-utils.ts:41-111 | with a nil `setSF` no clause is emitted |
| SearchUtils.StaticFiltersThrow | stores/src/modules/utils/search-utils.ts:41-111 | the static filters throw exactly when the filters of some configured type throw |
| SearchUtils.GroupFiltersStep | stores/src/modules/utils/search-utils.ts:43-109 | the inner loop adds one configured filter's clauses at a time |
| SearchUtils.GroupFiltersStop | stores/src/modules/utils/search-utils.ts:43-109 | once a filter throws, the rest of the group adds nothing |
| SearchUtils.StaticFiltersStop | stores/src/modules/utils/search-utils.ts:41-111 | once a filter throws, the rest of the configuration adds nothing |
| SearchUtils.TermValueReplacesDefault | stores/src/modules/utils/search-utils.ts:50-72 | a caller-supplied term value replaces the configured default, which plays no part |
| SearchUtils.TermValueSingleClause | stores/src/modules/utils/search-utils.ts:59-78 | outside mode "AND" a caller value gives exactly one clause, `terms` exactly for an array |
| SearchUtils.TermAndMode | stores/src/modules/utils/search-utils.ts:51-58 | in mode "AND" an array gives one `term` clause per element, in order |
| SearchUtils.RangeRemove | stores/src/modules/utils/search-utils.ts:82-87 | a caller range value with a `remove` key emits nothing, even when the filter has a default |
| SearchUtils.RangeDefault | stores/src/modules/utils/search-utils.ts:92-98 | an unset range filter with a default emits the configured range under its type |
| SearchUtils.ExistsOnlyByDefault | stores/src/modules/utils/search-utils.ts:100-106 | an exists filter is emitted exactly when the caller did not set it and it is on by default |
| SearchUtils.UnknownTypeSkipped | stores/src/modules/utils/search-utils.ts:47-107 | filter types other than the three known ones are skipped, even when `setSF` is null |
| SearchUtils.NilSettingsThrow | stores/src/modules/utils/search-utils.ts:47-107 | for a known filter type a null or undefined `setSF` throws |
| SearchUtils.ClauseList.constructor | stores/src/modules/utils/search-utils.ts:40 | the caller's filter list with its initial entries |
| SearchUtils.ClauseList.Push | stores/src/modules/utils/search-utils.ts:54 | `push` appends one clause |
| SearchUtils.PushElemFilters | stores/src/modules/utils/search-utils.ts:45-107 | one configured filter appends exactly its clauses to the caller's list and fails exactly where the source throws |
| SearchUtils.PushGroupFilters | stores/src/modules/utils/search-utils.ts:43-109 | the inner loop appends exactly the group's clauses, in order, to the caller's list |
| SearchUtils.CreateStaticFilters | stores/src/modules/utils/search-utils.ts:40-113 | appends to the caller's list exactly the static filters, keeping its earlier entries; fails where the source throws, with the clauses pushed before left in place |
| SearchUtils.MissingElem | stores/src/modules/utils/search-utils.ts:117-123 | a nil `setQuery` throws; otherwise a field is added exactly when it is set or on by default |
| SearchUtils.MissingQuery | stores/src/modules/utils/search-utils.ts:115-127 | at most one clause per configured field, and every clause is an `exists` clause |
| SearchUtils.MissingQueryNil | stores/src/modules/utils/search-utils.ts:120 | a nil `setQuery` throws at the first configured field, having pushed nothing |
| SearchUtils.MissingQueryClauses | stores/src/modules/utils/search-utils.ts:115-127 | the missing query adds one `exists` clause per configured field that is set or on by default |
| SearchUtils.CreateMissingQuery | stores/src/modules/utils/search-utils.ts:115-127 | appends exactly the missing query to the caller's list; fails where the source throws |
| SearchUtils.FacetEntry | stores/src/modules/utils/search-utils.ts:142-143 | a part splits into the text before the first `:` and the text up to the next `:`, and a part without `:` gives no value |
| SearchUtils.FacetEntries | stores/src/modules/utils/search-utils.ts:140-145 | one entry per part, in order |
| SearchUtils.GetSetFacetsDict | stores/src/modules/utils/search-utils.ts:135-148 | an undefined or empty string gives `{}` |
| SearchUtils.FacetsDictLastWins | stores/src/modules/utils/search-utils.ts:139-145 | a facet name reads as the value of its last occurrence in the string |
| SearchUtils.ParamEntry | stores/src/modules/utils/search-utils.ts:206-209 | a part contributes a pair exactly when it contains `:` |
| SearchUtils.ParamEntries | stores/src/modules/utils/search-utils.ts:204-210 | at most one pair per part |
| SearchUtils.ParamEntriesAppend | stores/src/modules/utils/search-utils.ts:205 | `forEach` handles the parts one at a time |
| SearchUtils.ParamEntriesFrom | stores/src/modules/utils/search-utils.ts:206-208 | every pair comes from a part that contains `:` |
| SearchUtils.ParamEntriesSkip | stores/src/modules/utils/search-utils.ts:206 | a part without `:` contributes nothing, wherever it stands |
| SearchUtils.ParamSplitter | stores/src/modules/utils/search-utils.ts:202-212 | the result binds each name once |
| SearchUtils.ParamSplitterKeys | stores/src/modules/utils/search-utils.ts:202-212 | every name `paramSplitter` binds comes from a part that contains `:` |
| SearchUtils.ParamSplitterLastWins | stores/src/modules/utils/search-utils.ts:202-212 | a name reads as the value of the last `name:value` part that names it, later parts overriding earlier ones |
| SearchUtils.ParamSplitterBinds | stores/src/modules/utils/search-utils.ts:205-209 | every part that contains `:` binds its name |
| SearchUtils.SplitNegated | stores/src/modules/utils/search-utils.ts:263-265 | a value is in the positive list exactly when it is one of the parts without a leading `!`, and `y` is in the negated list exactly when `"!" + y` is a part; the two lists together are as long as the parts |
| SearchUtils.SplitNegatedOne | stores/src/modules/utils/search-utils.ts:264 | a single part goes to the negated list without its `!`, or unchanged to the positive list |
| SearchUtils.SplitNegatedSnoc | stores/src/modules/utils/search-utils.ts:263-265 | `forEach` handles one part at a time, extending exactly one of the two lists |
| SearchUtils.SplitNegatedAppend | stores/src/modules/utils/search-utils.ts:263-265 | splitting a concatenation concatenates the two splits, so both lists keep the order of the parts |
| SearchUtils.FacetClause | stores/src/modules/utils/search-utils.ts:267-294 | one value gives `term`, several give `terms`, none gives nothing |
| SearchUtils.FacetClauseValues | stores/src/modules/utils/search-utils.ts:267-294 | the clause made from a list of values carries exactly those values, in order |
| SearchUtils.FacetStep | stores/src/modules/utils/search-utils.ts:258-259 | a facet the mapper does not know adds nothing |
| SearchUtils.FacetFiltersOf | stores/src/modules/utils/search-utils.ts:262-294 | one facet value split on `|` gives at most one `must` and at most one `must_not` clause, at least one of them, and only `term`/`terms` clauses; which values each carries is stated by FacetFiltersValues |
| SearchUtils.FacetFiltersValues | stores/src/modules/utils/search-utils.ts:262-294 | the `must` clause carries exactly the parts without `!` and the `must_not` clause exactly the `!`-parts without the `!`, both in the order of the string and on the facet's field |
| SearchUtils.GetSetFacetsFilterAppend | stores/src/modules/utils/search-utils.ts:257-297 | the loop handles the caller's facets one at a time |
| SearchUtils.UnknownFacetIgnored | stores/src/modules/utils/search-utils.ts:259 | a facet the mapper does not know is ignored, wherever it stands |
| SearchUtils.GetSetFacetsFilter | stores/src/modules/utils/search-utils.ts:254-302 | only `term`/`terms` clauses, and at most one clause in each list per facet given; the values come from KnownFacetAppends and UnknownFacetIgnored |
| SearchUtils.KnownFacetAppends | stores/src/modules/utils/search-utils.ts:257-294 | a facet the mapper knows appends exactly its own `must` and `must_not` clauses on the configured field after the earlier ones; one without a value throws |
| SearchUtils.SplitRedBlue | stores/src/modules/utils/search-utils.ts:262 | a pipe-separated value such as red, !blue splits at each pipe into "red" and "!blue" |
| SearchUtils.SplitNegatedRedBlue | stores/src/modules/utils/search-utils.ts:263-265 | "red" is kept and "!blue" is negated as "blue" |
| SearchUtils.FacetsFilterExample | stores/src/modules/utils/search-utils.ts:254-302 | the facet `color` with the pipe-separated values red and !blue gives must `term c:red` and mustNot `term c:blue` |
| SearchUtils.SomeStrictEqualsExists | stores/src/modules/utils/search-utils.ts:166-168 | `_.some` with `===` holds exactly when some value is strictly equal |
| SearchUtils.SelectedByName | stores/src/modules/utils/search-utils.ts:164-169 | a facet is aggregated exactly when it is displayed by default and no facets are asked for, or some requested value equals its display name |
| SearchUtils.MakeAgg | stores/src/modules/utils/search-utils.ts:170-189 | the aggregation names the facet's field, carries `order` and `size` exactly when truthy, and has no children without a child mapper |
| SearchUtils.PutKeys | stores/src/modules/utils/search-utils.ts:186 | assigning `aggs[i]` adds exactly that key |
| SearchUtils.AggsOfLast | stores/src/modules/utils/search-utils.ts:161-192 | the last mapper entry adds its name exactly when it is selected |
| SearchUtils.AggsSelected | stores/src/modules/utils/search-utils.ts:156-194 | a facet is aggregated exactly when some mapper entry of that name is selected |
| SearchUtils.AggsOf | stores/src/modules/utils/search-utils.ts:156-194 | the loop over the mapper gives each aggregation name once and never more aggregations than entries |
| SearchUtils.GetAggsSelected | stores/src/modules/utils/search-utils.ts:156-194 | `getAggs` aggregates a facet exactly when some mapper entry of that name is selected, an empty `facets` string counting as none requested |
| SearchUtils.GetAggs | stores/src/modules/utils/search-utils.ts:156-194 | each facet is aggregated under one name at most, and there are never more aggregations than mapper entries |
| SearchUtils.ChildAggsByDisplay | stores/src/modules/utils/search-utils.ts:183-185 | child aggregations are built with no facets, so a child is aggregated exactly when its `display` is "true" |
| SearchUtils.MappedAggregationResult | stores/src/modules/utils/search-utils.ts:304-325 | one object per bucket visited |
| SearchUtils.MapBuckets | stores/src/modules/utils/search-utils.ts:306-311 | one object per bucket, in order |
| SearchUtils.BucketObj | stores/src/modules/utils/search-utils.ts:308-310 | a bucket maps to its `key` and `doc_count` under the configured names |
| SearchUtils.MappedBuckets | stores/src/modules/utils/search-utils.ts:304-325 | without children each bucket maps to its key and count, and only a null bucket fails |
| SearchUtils.FilterTruthy | stores/src/modules/utils/search-utils.ts:342 | `_.filter(xs, r => r)` keeps exactly the truthy values, in order |
| SearchUtils.Sources | stores/src/modules/utils/search-utils.ts:330-340 | one `_source` per hit, failing exactly when a hit is null or undefined |
| SearchUtils.Hits | stores/src/modules/utils/search-utils.ts:329-340 | the hits walked are the elements of `docs` when that is a truthy array, otherwise those of the results array |
| SearchUtils.CreateSimpleSearchResult | stores/src/modules/utils/search-utils.ts:327-343 | nil results throw, and every value returned is truthy |
| SearchUtils.SearchResultMembers | stores/src/modules/utils/search-utils.ts:327-343 | the result holds exactly the truthy `_source` values of the hits (of `docs` when truthy), and a null hit fails the call |
| SearchUtils.BuildFilters | stores/src/modules/utils/search-utils.ts:345-359 | `must`, `should` and `must_not` are present exactly when their input is non-empty, and then hold that input |
| SearchUtils.BuildFiltersEmpty | stores/src/modules/utils/search-utils.ts:345-359 | empty inputs give `{bool: {}}` |
| SearchUtils.IsEmpty | stores/src/modules/utils/search-utils.ts:361-368 | `isEmpty` holds exactly when a `for-in` loop over the value visits nothing |
| SearchUtils.TermParts | stores/src/modules/utils/search-utils.ts:221-222 | an array is walked as it is, a string as its `;`-separated parts, and anything else throws |
| SearchUtils.BuildTermFilterArr | stores/src/modules/utils/search-utils.ts:220-231 | a `terms` clause on the term name holding exactly the walked values of positive length, in order; it throws exactly when the parameters are neither an array nor a string or an element is nil, so a string always succeeds |
| SearchUtils.KeepNonEmpty | stores/src/modules/utils/search-utils.ts:224-228 | keeps exactly the values with a positive length and never more values than it is given |
| SearchUtils.KeepNonEmptyAppend | stores/src/modules/utils/search-utils.ts:223-228 | filtering a concatenation filters each part, so the kept values keep their order |
| SearchUtils.KeepNonEmptyOne | stores/src/modules/utils/search-utils.ts:224-226 | one value is kept exactly when it has a positive length |
| SearchUtils.BuildRangeFilter | stores/src/modules/utils/search-utils.ts:239-246 | `{range: {field: {type: value}}}` with the given field, type and value |
| ExternalRequest.OverrideTarget | stores/src/modules/utils/external-request.ts:64-76 | only "click & collect" gets the C&C class; every other override target is "External" |
| ExternalRequest.KnownTargets | stores/src/modules/utils/external-request.ts:64-73 | the five known header values reach their configured servers with their classes |
| ExternalRequest.UnknownTargetVerbatim | stores/src/modules/utils/external-request.ts:74-76 | any other header value is itself the server name, with the "External" class |
| ExternalRequest.GetSource | stores/src/modules/utils/external-request.ts:114-118 | the source is the query's truthy `source`, else the truthy default source, else "", lower-cased; a non-string chosen value throws |
| ExternalRequest.RouteOf | stores/src/modules/utils/external-request.ts:48-90 | routing throws exactly when `getSource` does, and without a truthy override header the headers are untouched |
| ExternalRequest.OverrideTakesPrecedence | stores/src/modules/utils/external-request.ts:57-77 | a truthy override header decides the route whatever the path and source say, and is removed from the headers, which otherwise read as before |
| ExternalRequest.OauthBeforeSource | stores/src/modules/utils/external-request.ts:53-81 | without the header, a path containing "/oauth" in any case goes to the OAuth server, whatever the source |
| ExternalRequest.IsOauthRequest | stores/src/modules/utils/external-request.ts:53 | an OAuth request is one whose URL contains "/oauth" in any letter case, at any position |
| ExternalRequest.SourceOrDefault | stores/src/modules/utils/external-request.ts:83-89 | otherwise source "ax" goes to the old Axapta server as "External" and everything else to the default server as "NGT" |
| ExternalRequest.DoPatch | stores/src/modules/utils/external-request.ts:125-135 | patching holds exactly when the source is "crm" and the lower-cased `format` (or "") is not "crm"; any other source never patches |
| ExternalRequest.NonAmpRun | stores/src/modules/utils/external-request.ts:101 | `[^&]+` takes the longest run before the first '&' |
| ExternalRequest.MatchEnd | stores/src/modules/utils/external-request.ts:101 | a match spans the six-letter name, at least one more character and an optional '&' |
| ExternalRequest.StripParams | stores/src/modules/utils/external-request.ts:101 | the global replace never lengthens the URL |
| ExternalRequest.TrimQuestion | stores/src/modules/utils/external-request.ts:101 | exactly one trailing '?' is removed |
| ExternalRequest.CreateUriPath | stores/src/modules/utils/external-request.ts:101 | the stripped path is never longer than the original URL |
| ExternalRequest.NoMatchByFirst | stores/src/modules/utils/external-request.ts:101 | a match can only start at 'f' or 's' in either case |
| ExternalRequest.KeepFirst | stores/src/modules/utils/external-request.ts:101 | where no match starts, the character is kept and the scan moves on |
| ExternalRequest.NoNamesUnchanged | stores/src/modules/utils/external-request.ts:101 | a URL in which neither name can start passes through unchanged |
| ExternalRequest.CutParam | stores/src/modules/utils/external-request.ts:101 | a parameter whose value ends in '&' is cut out with that '&' |
| ExternalRequest.RunOf | stores/src/modules/utils/external-request.ts:101 | the greedy run stops at the '&' after the value |
| ExternalRequest.KeepPrefix | stores/src/modules/utils/external-request.ts:101 | characters that cannot start a match are kept in front of the rest |
| ExternalRequest.ShortUnchanged | stores/src/modules/utils/external-request.ts:101 | strings of at most six characters cannot hold a match |
| ExternalRequest.StripOne | stores/src/modules/utils/external-request.ts:101 | one parameter after a kept prefix is cut out together with its '&' |
| ExternalRequest.RunToEnd | stores/src/modules/utils/external-request.ts:101 | the greedy run takes a whole '&'-free string |
| ExternalRequest.CutLast | stores/src/modules/utils/external-request.ts:101 | a last parameter with no '&' after it leaves nothing behind |
| ExternalRequest.CreateUriExample | stores/src/modules/utils/external-request.ts:100-101 | for any path in which neither name can start, a `format` and a `source` parameter are cut out with their '&' and a short last parameter stays, as in the comment's "/api/x?format=json&source=crm&foo=1" giving "/api/x?foo=1" |
| ExternalRequest.StripCutsPath | stores/src/modules/utils/external-request.ts:101 | as written, a path followed by "source" and any '&'-free run loses everything from "source" on, so "/api/resources/1" becomes "/api/re" |
| ExternalRequest.StripLeavesAmpersand | stores/src/modules/utils/external-request.ts:101 | as written, a URL ending in '&' followed by a last `format` parameter keeps the dangling '&', so "/x?a=1&format=json" becomes "/x?a=1&" |
| ExternalRequest.QueryStart | stores/src/modules/utils/external-request.ts:100 | the query string starts at the first '?' |
| ExternalRequest.KeepParams | stores/src/modules/utils/external-request.ts:100 | the kept parameters are parameters of the query not named `format` or `source` |
| ExternalRequest.StripQueryFixed | stores/src/modules/utils/external-request.ts:100-101 | the corrected strip keeps the path before the '?' and leaves a URL without a query alone |
| ExternalRequest.KeepParamsComplete | stores/src/modules/utils/external-request.ts:100 | every parameter not named `format` or `source` survives the corrected strip |
| ExternalRequest.FixedKeepsPath | stores/src/modules/utils/external-request.ts:100-101 | with the correction, a URL without a query string is unchanged (unlike "/api/resources/1" as written) |
| ExternalRequest.StripQueryOf | stores/src/modules/utils/external-request.ts:100-101 | with the correction, a query keeps exactly its parameters not named `format` or `source`, in order, and loses the '?' when none is left |
| ExternalRequest.FixedExample | stores/src/modules/utils/external-request.ts:100-101 | with the correction, the documented example comes out as the comment says, for any values |
| ExternalRequest.KeptOf | stores/src/modules/utils/external-request.ts:100 | of the example's parameters only the last survives |
| ExternalRequest.Utf8Length | stores/src/modules/utils/external-request.ts:201 | the UTF-8 byte length is at least the number of characters |
| ExternalRequest.ContentLength | stores/src/modules/utils/external-request.ts:198-205 | `content-length` is recomputed exactly for a truthy body with own keys, as the byte length of the string body itself or of its JSON text |
| ExternalRequest.PreparedHeaders | stores/src/modules/utils/external-request.ts:179-205 | the outgoing headers carry neither `accept-encoding` nor `host` |
| ExternalRequest.PutKeepsAbsent | stores/src/modules/utils/external-request.ts:190-201 | assigning one header does not bring back a deleted one |
| ExternalRequest.RemoveKeepsAbsent | stores/src/modules/utils/external-request.ts:179-185 | deleting one header does not bring back another |
| ExternalRequest.PreparedHeadersShape | stores/src/modules/utils/external-request.ts:173-205 | outgoing headers lack `accept-encoding` and `host`, carry a content type ("application/json" unless a truthy one was set), and keep every other header as sent |
| ExternalRequest.AgentFor | stores/src/modules/utils/external-request.ts:231 | the TLS agent is used exactly when the URI starts with "https://" |
| ExternalRequest.SettleOnce | stores/src/modules/utils/external-request.ts:155 | only the first `resolve` or `reject` counts |
| ExternalRequest.OnEvent | stores/src/modules/utils/external-request.ts:249-342 | a settled promise stays settled, a "data" event only appends its chunk, and one event calls the error handler at most once |
| ExternalRequest.SettledStays | stores/src/modules/utils/external-request.ts:249-342 | whatever the upstream emits later, a settled call keeps its settlement |
| ExternalRequest.Chunks | stores/src/modules/utils/external-request.ts:279-281 | one "data" event per chunk |
| ExternalRequest.Exchanged | stores/src/modules/utils/external-request.ts:249-342 | the error handler is called at most once per upstream event |
| ExternalRequest.ChunksAccumulate | stores/src/modules/utils/external-request.ts:279-281 | the body collects every chunk in order and nothing else changes |
| ExternalRequest.StatusClassification | stores/src/modules/utils/external-request.ts:260-314 | a status at or below 304 resolves with the collected response; above 304 it rejects, with the collected response, or with the raw response when an error handler is passed |
| ExternalRequest.ErrorWithoutStatus | stores/src/modules/utils/external-request.ts:316-322 | a transport error before any status rejects with status 500 |
| ExternalRequest.Handled | stores/src/modules/utils/external-request.ts:146-247 | nothing is sent and the call rejects with a TypeError exactly when the source throws; otherwise the prepared headers are sent with a 50-second timeout and the TLS agent exactly for "https://" |
| ExternalRequest.IncomingRequest.constructor | stores/src/modules/utils/external-request.ts:146-147 | the request with its URL, query, method, body and shared headers |
| ExternalRequest.IncomingRequest.GetServerInfo | stores/src/modules/utils/external-request.ts:48-90 | the route of the request, the override header deleted from it in place; the headers are untouched where it throws |
| ExternalRequest.IncomingRequest.CreateUri | stores/src/modules/utils/external-request.ts:97-105 | the server name followed by the stripped path, with the route's effect on the headers |
| ExternalRequest.IncomingRequest.PrepareHeaders | stores/src/modules/utils/external-request.ts:173-205 | the shared headers are replaced, in place, by the prepared form of the old ones |
| ExternalRequest.RunExchange | stores/src/modules/utils/external-request.ts:249-342 | handling the upstream events one after another ends in the exchange the handling specification gives |
| ExternalRequest.IncomingRequest.HandleRequest | stores/src/modules/utils/external-request.ts:146-344 | the headers changed in place, the request sent, the settlement and the error-handler calls are those of the handling specification |
| StoreMapper.BagOf | stores/src/modules/mappers/store-mapper.ts:62-69 | mapping a bag throws exactly when it is null or undefined |
| StoreMapper.MapBags | stores/src/modules/mappers/store-mapper.ts:58-75 | anything but an array gives `[]`; an array gives one bag per element, in order, and fails only on a null element |
| StoreMapper.BagRoundTrip | stores/src/modules/mappers/store-mapper.ts:63-68 | ean, price, title and type are copied by name: the stored form of a bag maps back to it |
| StoreMapper.MapBagsRoundTrip | stores/src/modules/mappers/store-mapper.ts:58-75 | the stored form of a list of bags maps back to the same list |
| StoreMapper.FallbackToOldDeliveryFormat | stores/src/modules/mappers/store-mapper.ts:100-115 | a non-empty new-format list is kept; otherwise one group without zip codes holds the old fees; the result is never empty |
| StoreMapper.MapSpecialGoods | stores/src/modules/mappers/store-mapper.ts:77-90 | nil special goods throw; pickup fees, corporate pickup fees and bags are mapped from their own fields; home and corporate delivery are the fallback of their mapped new-format lists to the old fee fields, so never empty; for non-nil input it succeeds exactly when each of these mappings does |
| StoreMapper.NewFormatKept | stores/src/modules/mappers/store-mapper.ts:83-87 | home and corporate delivery groups in the new format are kept as mapped, and the old fee fields are then ignored |
| StoreMapper.NoFeesGiveOneEmptyGroup | stores/src/modules/mappers/store-mapper.ts:84-87 | without fees in either format each delivery kind is one empty group |
| StoreMapper.LocationOf | stores/src/modules/mappers/store-mapper.ts:31-34 | the location is `response.location`'s when truthy, latitude and longitude otherwise |
| StoreMapper.GetEsStoreAsIStoreFull | stores/src/modules/mappers/store-mapper.ts:11-56 | a nil store rejects with "store is null or undefined"; a missing store id rejects with a TypeError; a part that fails to map rejects naming the store; it resolves exactly when all parts map |
| StoreMapper.MappedStoreFields | stores/src/modules/mappers/store-mapper.ts:21-46 | both glns are the store id as a string, the chain comes from `chain`, the location rule holds, and `pickupPointDescription` and `whitelist` default to "" and false |
| StoreMapper.MissingSpecialGoodsRejects | stores/src/modules/mappers/store-mapper.ts:49-78 | a store without special goods is rejected with a message naming the store id |
| StoreMapper.MapClosePickupPoint | stores/src/modules/mappers/store-mapper.ts:117-123 | mapping throws exactly without an entry or a gln, and the gln is the string form of the entry's |
| StoreMapper.ClosePickupPointRoundTrip | stores/src/modules/mappers/store-mapper.ts:117-123 | the service's entry of a point maps back to the point, the sort index and distance renamed |
| StoreMapper.NumericGln | stores/src/modules/mappers/store-mapper.ts:119 | a numeric gln becomes its decimal string |
| FeesMapper.PickupFeeOf | stores/src/modules/mappers/fees-mapper.ts:7-15 | mapping a fee throws exactly when it is null or undefined |
| FeesMapper.MapPickupFees | stores/src/modules/mappers/fees-mapper.ts:3-21 | anything but an array gives `[]`; an array gives one fee per element, in order |
| FeesMapper.PickupFeeRoundTrip | stores/src/modules/mappers/fees-mapper.ts:8-14 | every field is copied by name: a stored fee maps back to itself |
| FeesMapper.MapPickupFeesRoundTrip | stores/src/modules/mappers/fees-mapper.ts:3-21 | a stored list of fees maps back to the same list |
| FeesMapper.HomeDeliveryFeeOf | stores/src/modules/mappers/fees-mapper.ts:38-50 | mapping a fee throws exactly when it is null or undefined |
| FeesMapper.MapHomeDeliveryFees | stores/src/modules/mappers/fees-mapper.ts:34-51 | anything but an array gives `[]`; an array gives one fee per element, in order |
| FeesMapper.HomeDeliveryFeeRoundTrip | stores/src/modules/mappers/fees-mapper.ts:39-49 | `flexibility` is read from `fleksibilitetsgrad` and every other field by its own name |
| FeesMapper.MapHomeDeliveryFeesRoundTrip | stores/src/modules/mappers/fees-mapper.ts:34-51 | a stored list of home-delivery fees maps back to the same list |
| FeesMapper.GroupOf | stores/src/modules/mappers/fees-mapper.ts:25-28 | a group keeps its zip codes as they are and maps its fees |
| FeesMapper.MapHomeDelivery | stores/src/modules/mappers/fees-mapper.ts:23-32 | anything but a non-empty array gives `[]`; otherwise one group per element, in order |
| FeesMapper.GroupRoundTrip | stores/src/modules/mappers/fees-mapper.ts:25-28 | a stored group maps back to itself |
| FeesMapper.MapHomeDeliveryRoundTrip | stores/src/modules/mappers/fees-mapper.ts:23-32 | a stored list of groups maps back to the same list |
| FeesMapper.NilFeeFailsGroup | stores/src/modules/mappers/fees-mapper.ts:27-38 | a null fee inside a group makes the whole mapping throw |
| PickupSlotsMapper.TripleTrumf | stores/src/modules/mappers/pickupslots-mapper.ts:17 | `isTripleTrumf` or false: a truthy flag is kept, a falsy one becomes false |
| PickupSlotsMapper.StoreSlotOf | stores/src/modules/mappers/pickupslots-mapper.ts:7-18 | mapping a slot throws exactly when it is null or undefined, and its flag is truthy or false |
| PickupSlotsMapper.MapStorePickupSlots | stores/src/modules/mappers/pickupslots-mapper.ts:3-25 | anything but an array gives `[]`; an array gives one slot per element, in order |
| PickupSlotsMapper.StoreSlotRoundTrip | stores/src/modules/mappers/pickupslots-mapper.ts:8-17 | `storeWindowId` comes from `id` and the rest by name: a stored slot maps back to itself |
| PickupSlotsMapper.NormalFlagKept | stores/src/modules/mappers/pickupslots-mapper.ts:17 | `b` or false is `b` for a flag the mapper produces |
| PickupSlotsMapper.MapStorePickupSlotsRoundTrip | stores/src/modules/mappers/pickupslots-mapper.ts:3-25 | a stored list of store slots maps back to the same list |
| PickupSlotsMapper.PointSlotOf | stores/src/modules/mappers/pickupslots-mapper.ts:31-43 | mapping a pickup-point slot throws exactly when it is null or undefined, and its flag is truthy or false |
| PickupSlotsMapper.MapPickupPointPickupSlots | stores/src/modules/mappers/pickupslots-mapper.ts:27-50 | anything but an array gives `[]`; an array gives one slot per element, in order |
| PickupSlotsMapper.PointSlotDocFields | stores/src/modules/mappers/pickupslots-mapper.ts:32-42 | the stored form has each field under the name the mapper reads |
| PickupSlotsMapper.PointSlotRoundTrip | stores/src/modules/mappers/pickupslots-mapper.ts:39-42 | `pickupPointWindowId`, `displayFrom` and `displayTo` come from `id`, `pickupStart` and `pickupStop`: a stored slot maps back to itself |
| PickupSlotsMapper.MapPickupPointPickupSlotsRoundTrip | stores/src/modules/mappers/pickupslots-mapper.ts:27-50 | a stored list of pickup-point slots maps back to the same list |
| PickupSlotsMapper.FalsyFlagBecomesFalse | stores/src/modules/mappers/pickupslots-mapper.ts:17 | a stored flag of 0, "" or null comes out as false, so that slot is not mapped back to itself |
| AlcoholMapper.AreaOf | stores/src/modules/mappers/alcohol-mapper.ts:8-21 | an area throws exactly when nil; the municipality is present exactly when the stored one is non-nil, and then holds exactly its `id` and `name`; the zip codes are copied unchanged |
| AlcoholMapper.MapAlcoholGrant | stores/src/modules/mappers/alcohol-mapper.ts:4-27 | anything but an array gives `[]`; an array gives one area per element, in order |
| AlcoholMapper.AreaRoundTrip | stores/src/modules/mappers/alcohol-mapper.ts:9-20 | a stored area maps back to itself |
| AlcoholMapper.MapAlcoholGrantRoundTrip | stores/src/modules/mappers/alcohol-mapper.ts:4-27 | a stored list of areas maps back to the same list |
| AlcoholMapper.MunicipalityCopiesIdAndName | stores/src/modules/mappers/alcohol-mapper.ts:11-14 | whatever other properties a stored municipality object has, the mapped one holds the values bound to its `id` and `name` keys and nothing else |
| Stores.IsKnownChainId | stores/src/modules/services/stores.ts:14-16 | a chain id is known exactly when its text is the key of some configured chain alias |
| Stores.AliasOfKnownChain | stores/src/modules/services/stores.ts:14-16 | a chain is known exactly when its id, as a property key, is among the configured aliases; a known chain reads its alias and an unknown one reads undefined |
| Stores.InExecutor | stores/src/modules/services/stores.ts:28-47 | a throw inside a promise executor becomes a rejection with the same reason; any other outcome passes through |
| Stores.SingleStoreChecks | stores/src/modules/services/stores.ts:26-27 | the synchronous assertions pass exactly when options are given, the chain is known and the store id is defined |
| Stores.Fetched | stores/src/modules/services/stores.ts:36-46 | what the Elasticsearch get hands the promise around it is never a synchronous throw |
| Stores.GetSingleStore | stores/src/modules/services/stores.ts:25-48 | missing options throw a TypeError; an unknown chain or an undefined store id fails the assertion synchronously; it throws exactly when those checks fail |
| Stores.SingleStoreArgsRead | stores/src/modules/services/stores.ts:29-35 | the search object carries the chain's alias as index, the given type or the configured one, the full-response flag or false, and the store id |
| Stores.SingleStoreArgs | stores/src/modules/services/stores.ts:29-35 | the search object has exactly the keys index, type, _source, fullResponse and id; the id is the store id, and the flag is truthy exactly when `full_response` is |
| Stores.SingleStoreArgsValid | stores/src/modules/services/stores.ts:29-35 | the search object is valid for get exactly when alias, type and id are text, and asks for the full response exactly when `full_response` is truthy |
| Stores.SingleStoreFound | stores/src/modules/services/stores.ts:36-46 | a found store resolves with the document's `_source`, or with the whole response when `full_response` is set |
| Stores.SingleStoreIdNotText | stores/src/modules/services/stores.ts:27-36 | a defined store id that is not text passes the first assertion but the client's, inside the executor, rejects |
| Stores.SingleStoreClientError | stores/src/modules/services/stores.ts:40-41 | an error from the client rejects the promise |
| Stores.GetSingleStoreAsIStoreFull | stores/src/modules/services/stores.ts:57-62 | the same synchronous assertions, then a truthy `fields` throws the "fields are not supported" error; it throws exactly in those cases |
| Stores.SingleStoreFullMapsSource | stores/src/modules/services/stores.ts:63-88 | a found store is the store mapper's result on its `_source`, whatever type or full-response flag the caller passes |
| Stores.QueryExpression | stores/src/modules/services/stores.ts:278-321 | the query has one must clause, plus a second exactly when home-delivery data is asked for |
| Stores.QueryBody | stores/src/modules/services/stores.ts:279-285 | the body is an object of the shape query, bool, must |
| Stores.QueryAdmits | stores/src/modules/services/stores.ts:286-318 | a document matches exactly when it is not whitelisted or (a member is given and) it whitelists that member, and, when asked for, it has valid home-delivery data |
| Stores.GetAllStores | stores/src/modules/services/stores.ts:98-121 | missing options throw a TypeError and an unknown chain fails the assertion synchronously |
| Stores.AllStoresAlwaysRejected | stores/src/modules/services/stores.ts:109 | for every known chain, as written, the call of the missing `search.scrollEs` rejects with a TypeError, whatever the index holds |
| Stores.ScrollOutcome | stores/src/modules/services/stores.ts:145 | a search object that fails the scroll's assertions throws the assertion failure |
| Stores.AllStoresArgsValid | stores/src/modules/services/stores.ts:101-108 | with a text alias both search objects pass the scroll's assertions with the default 30s duration, and the full-store one never asks for the full response |
| Stores.GetAllStoresFixed | stores/src/modules/services/stores.ts:98-121 | with the exported `scroll` called: the same synchronous failures with the backend untouched, otherwise the scroll's outcome with executor throws turned into rejections |
| Stores.AllStoresFixedScrolls | stores/src/modules/services/stores.ts:98-121 | for a configured chain the corrected call answers exactly what the scroll over all pages answers |
| Stores.MapAll | stores/src/modules/services/stores.ts:152-158 | mapping each hit awaited in turn resolves with one store per hit, each the mapper's result on that hit, or rejects with the first hit's mapping failure |
| Stores.MapAllStops | stores/src/modules/services/stores.ts:153-157 | once a prefix of the hits fails to map, the whole run fails the same way |
| Stores.MapAllStep | stores/src/modules/services/stores.ts:153-157 | mapping one more hit appends its store to those mapped so far |
| Stores.MapAllFailed | stores/src/modules/services/stores.ts:153-157 | when mapping fails before the last hit, the last hit changes nothing |
| Stores.AllStoresFull | stores/src/modules/services/stores.ts:131-135 | missing options throw a TypeError, an unknown chain fails the assertion, and a truthy `fields` throws the "fields are not supported" error |
| Stores.AllStoresFullMapsHits | stores/src/modules/services/stores.ts:145-161 | when the scroll answers hits, the promise never settles exactly when some hit fails to map; otherwise it resolves with every hit mapped, in order |
| Stores.MapHits | stores/src/modules/services/stores.ts:152-158 | the loop over the hits computes the mapping of all hits in order, stopping at the first failure |
| Stores.GetAllStoresAsIStoreFull | stores/src/modules/services/stores.ts:131-163 | its answer is the specification over the backend's scripted replies, and the backend is untouched when the call fails synchronously |
| Stores.HasPayexMerchantExists | stores/src/modules/services/stores.ts:181-195 | `find` is truthy exactly when some merchant has the store's GLN and both its account number and encryption key |
| Stores.HasPayexMerchant | stores/src/modules/services/stores.ts:181-195 | a truthy `find` result means some merchant has the store's GLN and both credentials |
| Stores.KeepPayexValid | stores/src/modules/services/stores.ts:180-196 | the filter keeps only stores of the input that have a PayEx merchant, and no more than the input |
| Stores.KeepPayexValidComplete | stores/src/modules/services/stores.ts:180-196 | every store that has a PayEx merchant is kept |
| Stores.KeepPayexValidAppend | stores/src/modules/services/stores.ts:180-196 | filtering a concatenation is the concatenation of the filtered parts, so order is kept |
| Stores.PayexFilter | stores/src/modules/services/stores.ts:177-198 | a merchants value that is not an array makes `find` throw (a rejection) unless there are no stores; with an array it resolves, keeping exactly the stores that have a PayEx merchant |
| Stores.PayexCombine | stores/src/modules/services/stores.ts:176-202 | it never throws; it resolves only when both inputs resolve and then with the filter; a synchronous throw of the stores call and a rejected merchant lookup are rejections re-thrown by the catch |
| Stores.GetStoresWithValidPayexSettings | stores/src/modules/services/stores.ts:172-203 | the merchants of the chain come through the cache-aside lookup, whose cache update it keeps; the answer combines that lookup with the chain's stores; the table is never written |
| Stores.PayexStoresExactly | stores/src/modules/services/stores.ts:176-198 | for a merchant array and some stores a store is in the answer exactly when it is an input store with a PayEx merchant |
| Stores.NoPayexMerchantsIsEmpty | stores/src/modules/services/stores.ts:176-198 | when no merchant has an account number the answer is an empty list, not an error |
| Stores.FailureStatus | stores/src/modules/services/stores.ts:236-243 | a caught failure gives code 100 exactly when its `statusCode` is 404, and 101 otherwise |
| Stores.StoreGate | stores/src/modules/services/stores.ts:216-226 | the store alone decides only an inactive status with code 98, 100 or 101, or a lookup that never settles; a store that is not whitelisted goes on to the merchant |
| Stores.MerchantStatus | stores/src/modules/services/stores.ts:227-243 | the merchant check settles exactly when the lookup does; an active status has no code, an inactive one has code 99, 100 or 101, and 99 needs a found merchant without an Aera store code |
| Stores.StoreStatusOf | stores/src/modules/services/stores.ts:210-243 | the status always resolves unless a lookup never settles; a store is active exactly when it has no error code, and the codes are 98, 99, 100 and 101 |
| Stores.GetStoreStatus | stores/src/modules/services/stores.ts:205-244 | the status is the specification over the store's reply and the merchant's cache-aside lookup; the merchant is looked up, and the cache touched, only when the whitelist lets the member through |
| Stores.WhitelistGives98 | stores/src/modules/services/stores.ts:217-226 | code 98 exactly for a whitelisted store and no member, or a member its list does not contain |
| Stores.OpenStoreAsksMerchant | stores/src/modules/services/stores.ts:217-227 | a store that is not whitelisted, or whitelists the member, leaves the status to the merchant |
| Stores.MerchantSettingsStatus | stores/src/modules/services/stores.ts:227-235 | a found merchant is 99 exactly when its PayEx settings are incomplete and it has no Aera store code, and active otherwise |
| Stores.StatusOptionsRead | stores/src/modules/services/stores.ts:211-215 | the status lookup asks for the GLN as store id in the given chain, with no type and no full response |
| Stores.StatusStoreError | stores/src/modules/services/stores.ts:216-238 | the status lookup of a known chain's store rejects on a client error, keeping the error's `statusCode` |
| Stores.StoreNotFoundGives100 | stores/src/modules/services/stores.ts:216-238 | a client error with `statusCode` 404 for the store's document gives code 100 |
| Stores.MissingMerchantGives101 | stores/src/modules/services/stores.ts:227-241 | a merchant missing from cache and table gives code 101: the lookup's error has a `code` but no `statusCode` |
| Stores.GetStoresBagFees | stores/src/modules/services/stores.ts:253-276 | it throws exactly when the synchronous assertions fail; a client error on a valid search object rejects |
| Stores.BagsResolveBeforeReject | stores/src/modules/services/stores.ts:264-273 | a found document resolves with its bags when it has special goods with bags, the later reject being ignored; otherwise it rejects with the "Something wrong" message |
| Stores.BagsSettlement | stores/src/modules/services/stores.ts:267-272 | the callback fulfils with the bags when special goods with bags exist, the later reject being ignored; otherwise the promise breaks with the "Something wrong" message |
| Stores.PointsKeysApart | stores/src/modules/services/stores.ts:328-329 | a cache key for stores never equals one for pickup points, whatever the postal codes |
| Stores.PointsKey | stores/src/modules/services/stores.ts:328-329 | the key is "butikker" or "hentepunkter" followed by the postal code |
| Stores.MapPoints | stores/src/modules/services/stores.ts:348 | the mapping succeeds exactly when every element maps, and then gives one point per element, in order |
| Stores.PointsJs | stores/src/modules/services/stores.ts:348-351 | the returned list has one object per mapped point, in order |
| Stores.Upstream | stores/src/modules/services/stores.ts:334-355 | after a cache miss the answer resolves unless the request never settles; without a cache client the keyspace is untouched |
| Stores.ClosestInPostalCode | stores/src/modules/services/stores.ts:323-357 | a cached list that parses is answered with no request and no cache change; otherwise the answer resolves unless the upstream never settles |
| Stores.ReadPoints | stores/src/modules/services/stores.ts:330-332 | the read gives the parsed cached text under the key, if there is one |
| Stores.PointsOf | stores/src/modules/services/stores.ts:347-348 | the parsed response maps exactly when it is an array whose every element maps, giving one point per element |
| Stores.AnswerUpstream | stores/src/modules/services/stores.ts:346-354 | the answer and the new keyspace are those of the specification for the upstream's settlement |
| Stores.GetClosestInPostalCode | stores/src/modules/services/stores.ts:323-357 | the answer, the new keyspace and the request sent are those of the specification |
| Stores.PointsRequestRoute | stores/src/modules/services/stores.ts:336-346 | on a cache miss a GET goes to the click & collect server on the chain's path, with the credential, as JSON and without the target header |
| Stores.PointsRequest | stores/src/modules/services/stores.ts:336-346 | the request is sent exactly when the source resolves, and always with the 50-second timeout |
| Stores.PointsFetchedAreCached | stores/src/modules/services/stores.ts:346-351 | a fetched list is answered, stored under the key as its JSON text, and given an expiry of 1800 seconds |
| Stores.PointsCacheAside | stores/src/modules/services/stores.ts:328-351 | after a list is fetched and stored, the next call answers the same list from the cache, whatever the upstream would say |
| Stores.PointsFailuresGiveEmpty | stores/src/modules/services/stores.ts:352-355 | any failure after a cache miss (the request, the JSON, an element, no cache client) answers an empty list and leaves the keyspace as it was |
| Json.ParseStringify | stores/src/modules/services/stores.ts:332-349 | parsing the JSON text of a serializable value gives the value back, so a list cached as text reads back as the same list |
| Json.Parse | stores/src/modules/services/stores.ts:347 | empty or blank text throws, and parsed text never gives `undefined` |
| Json.Stringify | stores/src/modules/services/stores.ts:349 | only `undefined` has no JSON text, and any text produced is non-empty |

## Left out

- The `callback` parameter of `getSingleStore`, `getSingleStoreAsIStoreFull`, `getAllStores` and `getAllStoresAsIStoreFull` is not modelled. These paths only hand the client's answer to the caller's function. The model follows the promise path.
- `Promise.all` in `getStoresWithValidPayexSettings` and `invalidateCache` runs its parts one after the other, merchants first. Interleavings of the cache and backend calls are not modelled.
- Stores.PayexCombine: when both lookups reject, the model takes the merchants' rejection as the first. In the service, whichever rejects first in time wins.
- The chain id is read as text (`String(chainId)`) for the `in` test and for key derivation. Keys inherited from `Object.prototype` (such as `constructor`) are not modelled as present.
- JavaScript orders integer-like object keys before the others when it iterates. Dictionaries here keep plain insertion order.
- Numbers are integers. Floating point is left out, including response-time arithmetic and `hrtime`. JSON numbers with a fraction or exponent, and `\u` escapes of surrogate halves, are outside the JSON model.
- Strings.Lower: only ASCII letters are lowered; `toLowerCase` on other letters is not modelled.
- Logging (`log4js`, console output) is left out. It has no effect on results.
- Streaming in `handleRequest` is not modelled: piping into the response, keep-alive agents, and the timing and logging of events. The upstream is a scripted sequence of events. The model keeps the URI, the headers sent, the TLS agent choice and how the promise settles.
- The fixed Basic credential of `getClosestInpostalCode` is a parameter (`authorization`). Its value is not reproduced.
- The `expire` that `getClosestInpostalCode` issues is not awaited. If it rejects, that is an unhandled rejection at process level. The model keeps its effect on the keyspace only.
- RedisServer: key expiry is recorded but no clock runs, so keys never expire by themselves.
- The `status()` report of `RedisCacheV2` and its two-minute ping timer are not modelled. They are diagnostics and a clock.
- Client construction for Redis, Elasticsearch and the Azure table is not modelled, and neither is the sniffing configuration. The Redis client's replies come from the server model and the others are parameters or scripts.
- The static `RedisCache` facade is not part of this model. Callers get one `RedisCacheV2` instance that was created, so the model assumes `RedisCache.init` ran. Before `init`, the facade's `_client` is unset and every facade call throws a TypeError synchronously: `getMerchant` would then throw instead of returning a promise, and `invalidateCache` would reject with that TypeError rather than with `{success: false}`. That state is not modelled. A `RedisCacheV2` instance whose connection has no client (before `connect`) is modelled: its operations reject.
- The pass-through Elasticsearch wrappers are left out: `index`, `delete`, `update`, `refresh`, `exists` and `suggest`. They forward to the client unchanged.
- The `catch` in Elasticsearch `get` is not modelled, because no statement inside its `try` can throw. The model states the reachable paths only.
- The check-types assertion message is not kept: a failed `check.assert` is the failure `Elasticsearch.AssertionFailed`.
- Stores.QueryBody: only the object shape of the body is stated. How `ClauseJson` renders each clause has no lemma; `QueryAdmits` states the query's meaning over `QueryExpression`.
- Configuration and secret loading, the HTTP servers, process signals and the authentication gateway are not part of this model. Configuration values are parameters (`StoreConfig`, `Servers`).
- `getUtcNowAsString` reads the clock and is left out.
- Elasticsearch.Is404: the client's `status` is compared with 404 as the number 404 or the string "404". Other values that JavaScript's loose equality also equates with 404, such as "0404", " 404" or `[404]`, take the generic message in the model.
- Elasticsearch.GetErrorMessage: `util.format` with `%s` is modelled as `String()`. The two differ for objects, which `util.format` renders with `inspect`; the model states only the message's prefix for that case.
- SearchUtils.NonEmptyLength: `length > 0` on an object's `length` property is modelled for numbers, booleans, `null` and `undefined`. A string, array or object `length` is converted by JavaScript to a number (so `{length: "3"}` passes); the model reads those as not positive, so `buildFilters` drops such a `must_not` value and `buildTermFilterArr` drops such an element.
- SearchUtils.SettingOf: only plain objects have own properties in the model. For a string or an array `setSF`, JavaScript's `hasOwnProperty` is also true for index keys and `length`; the model reads every filter as unset there.
- `errors.ts` is not part of this model. Its error helper is the `Promises.Exception` failure.

## Findings

| source | as written | input that shows it | evidently intended | confidence | as-written member | corrected member |
|---|---|---|---|---|---|---|
| stores/src/modules/storage/merchants.ts:81 | the write-back after a missed single-merchant lookup passes no data, so the cache refuses it and the merchant is never cached | any GLN whose merchant is in the table but not in the cache | the merchant found is written back, so the next lookup hits the cache | not executed | Merchants.MerchantLookupNeverCaches | Merchants.MerchantLookupFixedCaches |
| stores/src/modules/utils/external-request.ts:101 | the pattern that strips `format` and `source` parameters also matches inside the path | "/api/resources/1" becomes "/api/re" | only query parameters are removed and the path is kept | not executed | ExternalRequest.StripCutsPath | ExternalRequest.FixedKeepsPath |
| stores/src/modules/utils/external-request.ts:101 | a stripped last parameter leaves the '&' of the parameter before it | "/x?a=1&format=json" becomes "/x?a=1&" | the kept parameters joined by '&', with no separator left dangling | not executed | ExternalRequest.StripLeavesAmpersand | ExternalRequest.StripQueryOf |
| stores/src/modules/services/stores.ts:109 | `getAllStores` calls `search.scrollEs`, but the Elasticsearch module exports that function as `scroll` (elasticsearch.ts lines 374-386) | any options with a known chain id | the stores of the chain, as the scroll answers them | not executed | Stores.AllStoresAlwaysRejected | Stores.AllStoresFixedScrolls |
