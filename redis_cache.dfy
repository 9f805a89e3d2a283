/**
 * The promise-returning Redis client of the stores service. Every command
 * first checks its key (a key that is not a string is refused with
 * "Missing key" before anything is sent), then hands the command to the
 * client; the server's answer settles the promise. The connection is a
 * small state machine: already connected, an attempt pending, or no client.
 */
module RedisCache {
  import opened Options
  import opened JsValues
  import opened Promises
  import opened RedisServer
  import Json

  /** Expiry times in seconds; a "month" is four weeks. */
  const TTL_ONE_MINUTE: int := 60
  const TTL_ONE_HOUR: int := 60 * 60
  const TTL_ONE_DAY: int := 24 * TTL_ONE_HOUR
  const TTL_ONE_WEEK: int := 7 * TTL_ONE_DAY
  const TTL_ONE_MONTH: int := 4 * TTL_ONE_WEEK

  lemma TtlSeconds()
    ensures TTL_ONE_MINUTE == 60 && TTL_ONE_HOUR == 3600 && TTL_ONE_DAY == 86400
    ensures TTL_ONE_WEEK == 604800 && TTL_ONE_MONTH == 2419200
  {
  }

  const MissingKey: Failure := Reason("Missing key")
  const EmptyData: Failure := Reason("The data param cannot be empty")
  const TimeoutNotNumber: Failure := Reason("Timeout should be a number")
  const NotFound: Failure := NewError("Not found")
  const SyntaxError: Failure := Failed("SyntaxError", Str("Unexpected token in JSON"), [])

  /** How the configuration asks for a client: the test flag, or the environment name. */
  datatype ConnectConfig = ConnectConfig(testMode: bool, nodeEnv: string)

  /** What `connect` hands back: `Promise.resolve(this)`, or the promise the instance stores. */
  datatype ConnectReply = AlreadyConnected | StoredPromise

  /** The server's reply as the promise of a command settles with it. */
  function Settle(resp: Response): (r: Outcome<JsValue>)
    ensures resp.Ok? <==> r.Resolved?
    ensures resp.Ok? ==> r == Resolved(resp.value)
    ensures resp.Err? ==> r == Rejected(resp.error)
  {
    match resp
    case Ok(v) => Resolved(v)
    case Err(e) => Rejected(e)
  }

  /**
   * A key-taking command: a key that is not a string is refused and nothing
   * is sent; without a client the call on it throws inside the promise
   * executor, which rejects; otherwise the server applies `a`.
   */
  function Call(key: JsValue, hasClient: bool, db: Db, a: Answer): (r: (Db, Outcome<JsValue>))
    ensures !key.Str? ==> r == (db, Rejected(MissingKey))
    ensures key.Str? && !hasClient ==> r == (db, Rejected(TypeError))
    ensures key.Str? && hasClient ==> r.0 == a.db && r.1.Resolved? == a.response.Ok?
    ensures r.1.Rejected? || r.1.Resolved?
  {
    if !key.Str? then (db, Rejected(MissingKey))
    else if !hasClient then (db, Rejected(TypeError))
    else (a.db, Settle(a.response))
  }

  /** The key text a command sends; irrelevant when the key is refused. */
  function KeyText(key: JsValue): string {
    if key.Str? then key.s else ""
  }

  /**
   * `useRaw = false` parses the reply. A reply that is not JSON makes
   * `JSON.parse` throw inside the client's callback, where nothing catches
   * it: the promise never settles.
   */
  function Parsed(r: Outcome<JsValue>, useRaw: bool): (p: Outcome<JsValue>)
    ensures useRaw || !r.Resolved? ==> p == r
    ensures !useRaw && r == Resolved(Str("OK")) ==> p.NeverSettles?
  {
    if useRaw || !r.Resolved? then r
    else if !r.value.Str? then r
    else match Json.Parse(r.value.s)
      case Some(v) => Resolved(v)
      case None =>
        assert r.value.s == "OK" ==> Json.Parse(r.value.s).None? by { if r.value.s == "OK" { OkIsNotJson(); } }
        NeverSettles(SyntaxError)
  }

  /** The reply "OK" of SET and SETEX is not JSON text. */
  lemma OkIsNotJson()
    ensures Json.Parse("OK") == None
  {
    assert Json.SkipWs("OK") == "OK";
    assert Json.ParseToken("OK") == Json.ParseNumber("OK");
  }

  /** The connection state and the server the client talks to. */
  class RedisCacheV2 {
    var isConnected: bool
    var hasClient: bool
    /** `_connectPromise`, once one was made; it resolves with this instance. */
    var connectPromise: Option<PromiseState<RedisCacheV2>>
    var clientsCreated: nat
    /** The key sent with AUTH, when one was sent. */
    var authSent: Option<string>
    var db: Db

    /** A client exists exactly when a connect promise was stored, and at most one is ever made. */
    predicate Valid()
      reads this
    {
      (hasClient <==> connectPromise.Some?) &&
      clientsCreated == (if hasClient then 1 else 0) &&
      (isConnected ==> hasClient) &&
      WellFormed(db)
    }

    constructor(db0: Db)
      requires WellFormed(db0)
      ensures Valid()
      ensures !isConnected && !hasClient && clientsCreated == 0 && authSent == None && db == db0
    {
      isConnected := false;
      hasClient := false;
      connectPromise := None;
      clientsCreated := 0;
      authSent := None;
      db := db0;
    }

    /**
     * `connect`: already connected answers at once; a client with a stored
     * promise answers that promise; otherwise a client is created. In test
     * mode it is ready at once; otherwise it authenticates (except in the
     * "local" environment) and the promise waits for the client's events.
     */
    method Connect(cfg: ConnectConfig, authKey: string) returns (r: ConnectReply)
      requires Valid()
      modifies this
      ensures Valid()
      ensures db == old(db)
      ensures old(isConnected) ==> r == AlreadyConnected && unchanged(this)
      ensures !old(isConnected) && old(hasClient) ==> r == StoredPromise && unchanged(this)
      ensures !old(isConnected) && !old(hasClient) ==>
        r == StoredPromise && hasClient && clientsCreated == 1 &&
        var test := cfg.testMode || cfg.nodeEnv == "test";
        isConnected == test &&
        connectPromise == Some(if test then Fulfilled(this) else Pending) &&
        authSent == (if !test && cfg.nodeEnv != "local" then Some(authKey) else old(authSent))
    {
      if isConnected {
        return AlreadyConnected;
      }
      if hasClient && connectPromise.Some? {
        return StoredPromise;
      }
      if cfg.testMode || cfg.nodeEnv == "test" {
        hasClient := true;
        clientsCreated := clientsCreated + 1;
        isConnected := true;
        connectPromise := Some(Fulfilled(this));
        return StoredPromise;
      }
      hasClient := true;
      clientsCreated := clientsCreated + 1;
      if cfg.nodeEnv != "local" {
        authSent := Some(authKey);
      }
      connectPromise := Some(Pending);
      r := StoredPromise;
    }

    /** The client's "ready" event: connected, and the stored promise resolves if still pending. */
    method OnReady()
      requires Valid() && hasClient
      modifies this
      ensures Valid()
      ensures isConnected && connectPromise == Some(Resolve(old(connectPromise).value, this))
      ensures hasClient == old(hasClient) && clientsCreated == old(clientsCreated)
      ensures db == old(db) && authSent == old(authSent)
    {
      isConnected := true;
      connectPromise := Some(Resolve(connectPromise.value, this));
    }

    /** The client's "end" event: no longer connected; the client and its promise stay. */
    method OnEnd()
      requires Valid() && hasClient
      modifies this
      ensures Valid()
      ensures !isConnected
      ensures hasClient == old(hasClient) && connectPromise == old(connectPromise)
      ensures clientsCreated == old(clientsCreated) && db == old(db) && authSent == old(authSent)
    {
      isConnected := false;
    }

    /** The client's "error" event: rejects the stored promise if it is still pending. */
    method OnError(err: Failure)
      requires Valid() && hasClient
      modifies this
      ensures Valid()
      ensures connectPromise == Some(Reject(old(connectPromise).value, err))
      ensures isConnected == old(isConnected) && hasClient == old(hasClient)
      ensures clientsCreated == old(clientsCreated) && db == old(db) && authSent == old(authSent)
    {
      connectPromise := Some(Reject(connectPromise.value, err));
    }

    /** `get`: the stored string; a missing key rejects with "Not found". */
    method Get(key: JsValue) returns (r: Outcome<JsValue>)
      requires Valid()
      ensures !key.Str? ==> r == Rejected(MissingKey)
      ensures key.Str? && !hasClient ==> r == Rejected(TypeError)
      ensures key.Str? && hasClient && key.s !in db.values ==> r == Rejected(NotFound)
      ensures key.Str? && hasClient && key.s in db.values ==>
        r == (if db.values[key.s].Text? then Resolved(Str(db.values[key.s].s)) else Rejected(WrongType))
    {
      if !key.Str? {
        return Rejected(MissingKey);
      }
      if !hasClient {
        return Rejected(TypeError);
      }
      var resp := CmdGet(db, key.s);
      if resp.Err? {
        return Rejected(resp.error);
      }
      if resp.value.Null? {
        return Rejected(NotFound);
      }
      r := Resolved(resp.value);
    }

    /** `set`: refuses a falsy `data`; stores its string form and drops any time to live. */
    method Set(key: JsValue, data: JsValue, useRaw: bool) returns (r: Outcome<JsValue>)
      requires Valid()
      modifies this
      ensures Valid()
      ensures !key.Str? ==> r == Rejected(MissingKey) && db == old(db)
      ensures key.Str? && !Truthy(data) ==> r == Rejected(EmptyData) && db == old(db)
      ensures key.Str? && Truthy(data) ==>
        var c := Call(key, old(hasClient), old(db), CmdSet(old(db), key.s, ToStr(data)));
        db == c.0 && r == Parsed(c.1, useRaw)
      ensures isConnected == old(isConnected) && hasClient == old(hasClient)
      ensures connectPromise == old(connectPromise) && clientsCreated == old(clientsCreated)
      ensures authSent == old(authSent)
    {
      if !key.Str? {
        return Rejected(MissingKey);
      }
      if !Truthy(data) {
        return Rejected(EmptyData);
      }
      var c := Call(key, hasClient, db, CmdSet(db, key.s, ToStr(data)));
      db := c.0;
      r := Parsed(c.1, useRaw);
    }

    /** `setex`: refuses a timeout that is not a number, then a falsy `data`; stores with a time to live. */
    method Setex(key: JsValue, timeout: JsValue, data: JsValue, useRaw: bool) returns (r: Outcome<JsValue>)
      requires Valid()
      modifies this
      ensures Valid()
      ensures !key.Str? ==> r == Rejected(MissingKey) && db == old(db)
      ensures key.Str? && !timeout.Num? ==> r == Rejected(TimeoutNotNumber) && db == old(db)
      ensures key.Str? && timeout.Num? && !Truthy(data) ==> r == Rejected(EmptyData) && db == old(db)
      ensures key.Str? && timeout.Num? && Truthy(data) ==>
        var c := Call(key, old(hasClient), old(db), CmdSetex(old(db), key.s, timeout.n, ToStr(data)));
        db == c.0 && r == Parsed(c.1, useRaw)
      ensures isConnected == old(isConnected) && hasClient == old(hasClient)
      ensures connectPromise == old(connectPromise) && clientsCreated == old(clientsCreated)
      ensures authSent == old(authSent)
    {
      if !key.Str? {
        return Rejected(MissingKey);
      }
      if !timeout.Num? {
        return Rejected(TimeoutNotNumber);
      }
      if !Truthy(data) {
        return Rejected(EmptyData);
      }
      var c := Call(key, hasClient, db, CmdSetex(db, key.s, timeout.n, ToStr(data)));
      db := c.0;
      r := Parsed(c.1, useRaw);
    }

    /** `expire` (the caller passes `TTL_ONE_MINUTE` for the default). */
    method Expire(key: JsValue, ttl: int) returns (r: Outcome<JsValue>)
      requires Valid()
      modifies this
      ensures Valid()
      ensures (db, r) == Call(key, old(hasClient), old(db), CmdExpire(old(db), KeyText(key), ttl))
      ensures isConnected == old(isConnected) && hasClient == old(hasClient)
      ensures connectPromise == old(connectPromise) && clientsCreated == old(clientsCreated)
      ensures authSent == old(authSent)
    {
      var a := CmdExpire(db, KeyText(key), ttl);
      var c := Call(key, hasClient, db, a);
      assert WellFormed(c.0);
      db := c.0;
      r := c.1;
    }

    /** `del`. */
    method Del(key: JsValue) returns (r: Outcome<JsValue>)
      requires Valid()
      modifies this
      ensures Valid()
      ensures (db, r) == Call(key, old(hasClient), old(db), CmdDel(old(db), KeyText(key)))
      ensures isConnected == old(isConnected) && hasClient == old(hasClient)
      ensures connectPromise == old(connectPromise) && clientsCreated == old(clientsCreated)
      ensures authSent == old(authSent)
    {
      var a := CmdDel(db, KeyText(key));
      var c := Call(key, hasClient, db, a);
      assert WellFormed(c.0);
      db := c.0;
      r := c.1;
    }

    /** `llen`. */
    method Llen(key: JsValue) returns (r: Outcome<JsValue>)
      requires Valid()
      ensures r == Call(key, hasClient, db, Answer(db, CmdLlen(db, KeyText(key)))).1
    {
      r := Call(key, hasClient, db, Answer(db, CmdLlen(db, KeyText(key)))).1;
    }

    /** `lpush` of one value. */
    method Lpush(key: JsValue, value: string) returns (r: Outcome<JsValue>)
      requires Valid()
      modifies this
      ensures Valid()
      ensures (db, r) == Call(key, old(hasClient), old(db), CmdLpush(old(db), KeyText(key), value))
      ensures isConnected == old(isConnected) && hasClient == old(hasClient)
      ensures connectPromise == old(connectPromise) && clientsCreated == old(clientsCreated)
      ensures authSent == old(authSent)
    {
      var a := CmdLpush(db, KeyText(key), value);
      var c := Call(key, hasClient, db, a);
      assert WellFormed(c.0);
      db := c.0;
      r := c.1;
    }

    /** `rpop`. */
    method Rpop(key: JsValue) returns (r: Outcome<JsValue>)
      requires Valid()
      modifies this
      ensures Valid()
      ensures (db, r) == Call(key, old(hasClient), old(db), CmdRpop(old(db), KeyText(key)))
      ensures isConnected == old(isConnected) && hasClient == old(hasClient)
      ensures connectPromise == old(connectPromise) && clientsCreated == old(clientsCreated)
      ensures authSent == old(authSent)
    {
      var a := CmdRpop(db, KeyText(key));
      var c := Call(key, hasClient, db, a);
      assert WellFormed(c.0);
      db := c.0;
      r := c.1;
    }

    /** `lrange` (the caller passes 0 and -1 for the defaults). */
    method Lrange(key: JsValue, start: int, end: int) returns (r: Outcome<JsValue>)
      requires Valid()
      ensures r == Call(key, hasClient, db, Answer(db, CmdLrange(db, KeyText(key), start, end))).1
    {
      r := Call(key, hasClient, db, Answer(db, CmdLrange(db, KeyText(key), start, end))).1;
    }

    /** `ltrim`. */
    method Ltrim(key: JsValue, start: int, end: int) returns (r: Outcome<JsValue>)
      requires Valid()
      modifies this
      ensures Valid()
      ensures (db, r) == Call(key, old(hasClient), old(db), CmdLtrim(old(db), KeyText(key), start, end))
      ensures isConnected == old(isConnected) && hasClient == old(hasClient)
      ensures connectPromise == old(connectPromise) && clientsCreated == old(clientsCreated)
      ensures authSent == old(authSent)
    {
      var a := CmdLtrim(db, KeyText(key), start, end);
      var c := Call(key, hasClient, db, a);
      assert WellFormed(c.0);
      db := c.0;
      r := c.1;
    }

    /** `zremrangebyrank`. */
    method Zremrangebyrank(key: JsValue, start: int, stop: int) returns (r: Outcome<JsValue>)
      requires Valid()
      modifies this
      ensures Valid()
      ensures (db, r) == Call(key, old(hasClient), old(db), CmdZremrangebyrank(old(db), KeyText(key), start, stop))
      ensures isConnected == old(isConnected) && hasClient == old(hasClient)
      ensures connectPromise == old(connectPromise) && clientsCreated == old(clientsCreated)
      ensures authSent == old(authSent)
    {
      var a := CmdZremrangebyrank(db, KeyText(key), start, stop);
      var c := Call(key, hasClient, db, a);
      assert WellFormed(c.0);
      db := c.0;
      r := c.1;
    }

    /** `sadd` of one member. */
    method Sadd(key: JsValue, member: string) returns (r: Outcome<JsValue>)
      requires Valid()
      modifies this
      ensures Valid()
      ensures (db, r) == Call(key, old(hasClient), old(db), CmdSadd(old(db), KeyText(key), member))
      ensures isConnected == old(isConnected) && hasClient == old(hasClient)
      ensures connectPromise == old(connectPromise) && clientsCreated == old(clientsCreated)
      ensures authSent == old(authSent)
    {
      var a := CmdSadd(db, KeyText(key), member);
      var c := Call(key, hasClient, db, a);
      assert WellFormed(c.0);
      db := c.0;
      r := c.1;
    }

    /** `srem` of one member. */
    method Srem(key: JsValue, member: string) returns (r: Outcome<JsValue>)
      requires Valid()
      modifies this
      ensures Valid()
      ensures (db, r) == Call(key, old(hasClient), old(db), CmdSrem(old(db), KeyText(key), member))
      ensures isConnected == old(isConnected) && hasClient == old(hasClient)
      ensures connectPromise == old(connectPromise) && clientsCreated == old(clientsCreated)
      ensures authSent == old(authSent)
    {
      var a := CmdSrem(db, KeyText(key), member);
      var c := Call(key, hasClient, db, a);
      assert WellFormed(c.0);
      db := c.0;
      r := c.1;
    }

    /** `zadd` of one member. */
    method Zadd(key: JsValue, score: int, member: string) returns (r: Outcome<JsValue>)
      requires Valid()
      modifies this
      ensures Valid()
      ensures (db, r) == Call(key, old(hasClient), old(db), CmdZadd(old(db), KeyText(key), score, member))
      ensures isConnected == old(isConnected) && hasClient == old(hasClient)
      ensures connectPromise == old(connectPromise) && clientsCreated == old(clientsCreated)
      ensures authSent == old(authSent)
    {
      var a := CmdZadd(db, KeyText(key), score, member);
      var c := Call(key, hasClient, db, a);
      assert WellFormed(c.0);
      db := c.0;
      r := c.1;
    }

    /** `zrange`. */
    method Zrange(key: JsValue, start: int, stop: int) returns (r: Outcome<JsValue>)
      requires Valid()
      ensures r == Call(key, hasClient, db, Answer(db, CmdZrange(db, KeyText(key), start, stop))).1
    {
      r := Call(key, hasClient, db, Answer(db, CmdZrange(db, KeyText(key), start, stop))).1;
    }

    /**
     * `scan`: asks with cursor "0", then with each cursor the server returns,
     * until it returns "0"; the keys of all pages, each once, in the order
     * first seen. `replies` is what the server answers to the successive
     * SCAN commands; `sent` are the cursors the client sends. When the
     * replies run out before the cursor comes back "0" the outcome is `None`:
     * the promise is still pending.
     */
    method Scan(pattern: string, replies: seq<ScanReply>) returns (r: Option<Outcome<seq<string>>>, sent: seq<string>)
      requires Valid()
      ensures r == (if hasClient then ScanOutcome(replies) else Some(Rejected(TypeError)))
      ensures hasClient ==> |sent| == ScanLength(replies) && (|sent| > 0 ==> sent[0] == "0")
      ensures hasClient ==> forall j :: 0 < j < |sent| ==> sent[j] == replies[j - 1].cursor
      ensures !hasClient ==> sent == []
    {
      sent := [];
      if !hasClient {
        return Some(Rejected(TypeError)), sent;
      }
      var currentCursor := "0";
      var foundKeys: seq<string> := [];
      var i := 0;
      while i < |replies|
        invariant 0 <= i <= |replies|
        invariant Running(replies, i)
        invariant foundKeys == KeysUpTo(replies, i)
        invariant currentCursor == (if i == 0 then "0" else replies[i - 1].cursor)
        invariant |sent| == i && forall j :: 0 < j < i ==> sent[j] == replies[j - 1].cursor
        invariant i > 0 ==> sent[0] == "0"
      {
        sent := sent + [currentCursor];
        var reply := replies[i];
        if reply.ScanError? {
          ScanStops(replies, i);
          return Some(Rejected(reply.error)), sent;
        }
        currentCursor := reply.cursor;
        foundKeys := foundKeys + reply.keys;
        if currentCursor == "0" {
          ScanStops(replies, i);
          return Some(Resolved(Unique(foundKeys))), sent;
        }
        i := i + 1;
      }
      ScanRunsOut(replies);
      r := None;
    }
  }

  // ---------------------------------------------------------------------
  // The scan loop

  /** The server's answer to one SCAN: the next cursor and a page of keys, or an error. */
  datatype ScanReply = ScanPage(cursor: string, keys: seq<string>) | ScanError(error: Failure)

  /** True when the reply ends the scan. */
  predicate Stops(reply: ScanReply) {
    reply.ScanError? || reply.cursor == "0"
  }

  /** None of the first `i` replies ended the scan. */
  predicate Running(replies: seq<ScanReply>, i: nat)
    requires i <= |replies|
  {
    forall j :: 0 <= j < i ==> !Stops(replies[j])
  }

  /** The keys of the first `i` pages, concatenated. */
  function KeysUpTo(replies: seq<ScanReply>, i: nat): seq<string>
    requires i <= |replies| && Running(replies, i)
  {
    if i == 0 then [] else KeysUpTo(replies, i - 1) + replies[i - 1].keys
  }

  /** The index of the reply that ends the scan, or `|replies|` when none does. */
  function FirstStop(replies: seq<ScanReply>): (k: nat)
    ensures k <= |replies| && Running(replies, k)
    ensures k < |replies| ==> Stops(replies[k])
  {
    if |replies| == 0 then 0
    else
      var k := FirstStop(replies[..|replies| - 1]);
      assert forall j :: 0 <= j < k ==> replies[..|replies| - 1][j] == replies[j];
      if k < |replies| - 1 then k
      else if Stops(replies[|replies| - 1]) then |replies| - 1 else |replies|
  }

  /** The number of SCAN commands sent. */
  function ScanLength(replies: seq<ScanReply>): nat {
    var k := FirstStop(replies);
    if k < |replies| then k + 1 else k
  }

  /** What the scan settles with, or `None` while it is still running. */
  function ScanOutcome(replies: seq<ScanReply>): Option<Outcome<seq<string>>> {
    var k := FirstStop(replies);
    if k == |replies| then None
    else if replies[k].ScanError? then Some(Rejected(replies[k].error))
    else Some(Resolved(Unique(KeysUpTo(replies, k) + replies[k].keys)))
  }

  /** A reply that ends the scan after `i` running ones is the first to do so. */
  lemma ScanStops(replies: seq<ScanReply>, i: nat)
    requires i < |replies| && Running(replies, i) && Stops(replies[i])
    ensures FirstStop(replies) == i
  {
  }

  lemma ScanRunsOut(replies: seq<ScanReply>)
    requires Running(replies, |replies|)
    ensures FirstStop(replies) == |replies|
  {
  }

  /** `keys.filter((v, i, self) => self.indexOf(v) === i)`: each key at its first occurrence. */
  function Unique(xs: seq<string>): (u: seq<string>)
    ensures forall x :: x in u <==> x in xs
  {
    if |xs| == 0 then []
    else
      var init := xs[..|xs| - 1];
      var last := xs[|xs| - 1];
      assert xs == init + [last];
      if last in init then Unique(init) else Unique(init) + [last]
  }

  /** The position of the first occurrence of `x`, as `indexOf`. */
  function IndexOf(xs: seq<string>, x: string): (i: nat)
    requires x in xs
    ensures i < |xs| && xs[i] == x && x !in xs[..i]
  {
    if xs[0] == x then 0
    else
      assert x in xs[1..];
      var j := IndexOf(xs[1..], x);
      assert xs[..j + 1] == [xs[0]] + xs[1..][..j];
      j + 1
  }

  /** The keys a scan resolves with occur once each. */
  lemma {:induction false} UniqueDistinct(xs: seq<string>)
    ensures forall i, j :: 0 <= i < j < |Unique(xs)| ==> Unique(xs)[i] != Unique(xs)[j]
  {
    if |xs| > 0 {
      UniqueDistinct(xs[..|xs| - 1]);
    }
  }

  /** The keys a scan resolves with are ordered by their first appearance. */
  lemma {:induction false} UniqueFirstSeenOrder(xs: seq<string>)
    ensures forall i, j :: 0 <= i < j < |Unique(xs)| ==>
      IndexOf(xs, Unique(xs)[i]) < IndexOf(xs, Unique(xs)[j])
  {
    if |xs| > 0 {
      var init := xs[..|xs| - 1];
      var last := xs[|xs| - 1];
      var ui := Unique(init);
      UniqueFirstSeenOrder(init);
      var u := Unique(xs);
      forall i, j | 0 <= i < j < |u| ensures IndexOf(xs, u[i]) < IndexOf(xs, u[j]) {
        assert u[i] == ui[i] && u[i] in ui;
        IndexOfPrefix(xs, init, u[i]);
        if j < |ui| {
          assert u[j] == ui[j] && u[j] in ui;
          IndexOfPrefix(xs, init, u[j]);
        } else {
          assert u[j] == last && last !in init;
          assert forall m :: 0 <= m < |xs| - 1 ==> xs[m] in init;
        }
      }
    }
  }

  lemma IndexOfPrefix(xs: seq<string>, p: seq<string>, x: string)
    requires p <= xs && x in p
    ensures IndexOf(xs, x) == IndexOf(p, x)
  {
    var i := IndexOf(xs, x);
    var j := IndexOf(p, x);
    assert forall m :: 0 <= m < |p| ==> p[m] == xs[m];
    assert forall m :: 0 <= m < i ==> xs[..i][m] == xs[m];
    assert forall m :: 0 <= m < j ==> p[..j][m] == p[m];
  }
}
