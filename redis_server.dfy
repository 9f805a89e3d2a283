/**
 * The Redis server behind the cache client, as the command reference at
 * redis.io describes the commands the client issues. The keyspace is a map
 * from keys to typed values; expiry times are recorded but the clock is
 * not modelled, so no key ever expires by itself.
 */
module RedisServer {
  import opened JsValues
  import opened Promises
  import opened Sequences

  /** What a key holds. */
  datatype Value =
    | Text(s: string)
    /** A list, head first. */
    | List(items: seq<string>)
    | Members(elems: set<string>)
    /** A sorted set: (score, member) pairs ascending by score, then by member. */
    | Sorted(entries: seq<(int, string)>)

  /** The keyspace and the time to live of the keys that have one. */
  datatype Db = Db(values: map<string, Value>, expiry: map<string, int>)

  /** The server's reply to one command, as the client's callback receives it. */
  datatype Response = Ok(value: JsValue) | Err(error: Failure)

  /** The keyspace after a command, and the reply. */
  datatype Answer = Answer(db: Db, response: Response)

  const EmptyDb := Db(map[], map[])

  /** The error Redis answers for a command against a key of another type. */
  const WrongType: Failure :=
    Failed("ReplyError", Str("WRONGTYPE Operation against a key holding the wrong kind of value"), [])

  /** The error SETEX answers for a time to live that is not positive. */
  const InvalidExpire: Failure :=
    Failed("ReplyError", Str("ERR invalid expire time in 'setex' command"), [])

  // ---------------------------------------------------------------------
  // Invariants of the keyspace

  /** Byte-wise (here: code-point-wise) string order, which Redis uses between members of equal score. */
  predicate LessStr(a: string, b: string) {
    if |a| == 0 then |b| > 0
    else if |b| == 0 then false
    else if a[0] == b[0] then LessStr(a[1..], b[1..])
    else a[0] < b[0]
  }

  /** The order of a sorted set. */
  predicate LessEntry(a: (int, string), b: (int, string)) {
    a.0 < b.0 || (a.0 == b.0 && LessStr(a.1, b.1))
  }

  predicate Ascending(es: seq<(int, string)>) {
    forall i :: 0 <= i < |es| - 1 ==> LessEntry(es[i], es[i + 1])
  }

  predicate UniqueMembers(es: seq<(int, string)>) {
    forall i, j :: 0 <= i < j < |es| ==> es[i].1 != es[j].1
  }

  /** Redis deletes a list, set or sorted set when it becomes empty. */
  predicate ValueOk(v: Value) {
    match v
    case Text(_) => true
    case List(items) => |items| > 0
    case Members(elems) => |elems| > 0
    case Sorted(es) => |es| > 0 && Ascending(es) && UniqueMembers(es)
  }

  /** Only existing keys have a time to live, and no aggregate is empty. */
  predicate WellFormed(db: Db) {
    db.expiry.Keys <= db.values.Keys &&
    forall k :: k in db.values ==> ValueOk(db.values[k])
  }

  /** Nothing but `key` differs between the two keyspaces. */
  ghost predicate SameElsewhere(d1: Db, d2: Db, key: string) {
    (forall k :: k != key && (k in d1.values || k in d2.values) ==> k in d1.values && k in d2.values) &&
    (forall k :: k != key && k in d1.values ==> d1.values[k] == d2.values[k]) &&
    (forall k :: k != key && (k in d1.expiry || k in d2.expiry) ==> k in d1.expiry && k in d2.expiry) &&
    (forall k :: k != key && k in d1.expiry ==> d1.expiry[k] == d2.expiry[k])
  }

  /** Removing a key also removes its time to live. */
  function Drop(db: Db, key: string): (r: Db)
    ensures key !in r.values && key !in r.expiry
    ensures SameElsewhere(db, r, key)
    ensures WellFormed(db) ==> WellFormed(r)
  {
    Db(db.values - {key}, db.expiry - {key})
  }

  /** An aggregate with no elements. */
  predicate Empty(v: Value) {
    match v
    case Text(_) => false
    case List(items) => |items| == 0
    case Members(elems) => |elems| == 0
    case Sorted(es) => |es| == 0
  }

  /** Storing an aggregate, or deleting the key when it is empty; the time to live is kept. */
  function Store(db: Db, key: string, v: Value): (r: Db)
    ensures !Empty(v) ==> r.values == db.values[key := v] && r.expiry == db.expiry
    ensures Empty(v) ==> r == Drop(db, key)
    ensures SameElsewhere(db, r, key)
    ensures WellFormed(db) && (Empty(v) || ValueOk(v)) ==> WellFormed(r)
  {
    if Empty(v) then Drop(db, key) else Db(db.values[key := v], db.expiry)
  }

  // ---------------------------------------------------------------------
  // Strings and keys

  /** GET: the string at `key`, `null` when there is none. */
  function CmdGet(db: Db, key: string): (r: Response)
    ensures key !in db.values ==> r == Ok(Null)
    ensures key in db.values && db.values[key].Text? ==> r == Ok(Str(db.values[key].s))
    ensures key in db.values && !db.values[key].Text? ==> r == Err(WrongType)
  {
    if key !in db.values then Ok(Null)
    else match db.values[key]
      case Text(s) => Ok(Str(s))
      case _ => Err(WrongType)
  }

  /** SET: the key holds `s`, whatever it held before, and loses its time to live. */
  function CmdSet(db: Db, key: string, s: string): (a: Answer)
    ensures a.response == Ok(Str("OK"))
    ensures a.db.values == db.values[key := Text(s)] && key !in a.db.expiry
    ensures SameElsewhere(db, a.db, key)
    ensures WellFormed(db) ==> WellFormed(a.db)
  {
    Answer(Db(db.values[key := Text(s)], db.expiry - {key}), Ok(Str("OK")))
  }

  /** SETEX: SET with a time to live, refused when the time is not positive. */
  function CmdSetex(db: Db, key: string, seconds: int, s: string): (a: Answer)
    ensures seconds <= 0 ==> a == Answer(db, Err(InvalidExpire))
    ensures seconds > 0 ==>
      a.response == Ok(Str("OK")) &&
      a.db.values == db.values[key := Text(s)] && a.db.expiry == db.expiry[key := seconds]
    ensures SameElsewhere(db, a.db, key)
    ensures WellFormed(db) ==> WellFormed(a.db)
  {
    if seconds <= 0 then Answer(db, Err(InvalidExpire))
    else Answer(Db(db.values[key := Text(s)], db.expiry[key := seconds]), Ok(Str("OK")))
  }

  /** EXPIRE: 0 for a missing key; otherwise 1, and a time that is not positive deletes the key. */
  function CmdExpire(db: Db, key: string, seconds: int): (a: Answer)
    ensures key !in db.values ==> a == Answer(db, Ok(Num(0)))
    ensures key in db.values ==> a.response == Ok(Num(1))
    ensures key in db.values && seconds > 0 ==>
      a.db.values == db.values && a.db.expiry == db.expiry[key := seconds]
    ensures key in db.values && seconds <= 0 ==> key !in a.db.values
    ensures SameElsewhere(db, a.db, key)
    ensures WellFormed(db) ==> WellFormed(a.db)
  {
    if key !in db.values then Answer(db, Ok(Num(0)))
    else if seconds <= 0 then Answer(Drop(db, key), Ok(Num(1)))
    else Answer(Db(db.values, db.expiry[key := seconds]), Ok(Num(1)))
  }

  /** DEL of one key: the number of keys removed. */
  function CmdDel(db: Db, key: string): (a: Answer)
    ensures key !in a.db.values && key !in a.db.expiry
    ensures a.response == Ok(Num(if key in db.values then 1 else 0))
    ensures SameElsewhere(db, a.db, key)
    ensures WellFormed(db) ==> WellFormed(a.db)
  {
    Answer(Drop(db, key), Ok(Num(if key in db.values then 1 else 0)))
  }

  // ---------------------------------------------------------------------
  // Lists

  /** The list at `key`; a missing key is an empty list. */
  function ListAt(db: Db, key: string): seq<string> {
    if key in db.values && db.values[key].List? then db.values[key].items else []
  }

  /** The key is missing or holds a list: list commands apply to it. */
  predicate ListLike(db: Db, key: string) {
    key !in db.values || db.values[key].List?
  }

  /** LLEN: the length of the list, 0 for a missing key. */
  function CmdLlen(db: Db, key: string): (r: Response)
    ensures ListLike(db, key) ==> r == Ok(Num(|ListAt(db, key)|))
    ensures !ListLike(db, key) ==> r == Err(WrongType)
    ensures key !in db.values ==> r == Ok(Num(0))
  {
    if ListLike(db, key) then Ok(Num(|ListAt(db, key)|)) else Err(WrongType)
  }

  /** LPUSH of one value: it becomes the head; the reply is the new length. */
  function CmdLpush(db: Db, key: string, v: string): (a: Answer)
    ensures ListLike(db, key) ==> ListLike(a.db, key) && ListAt(a.db, key) == [v] + ListAt(db, key)
    ensures ListLike(db, key) ==> a.response == Ok(Num(|ListAt(db, key)| + 1))
    ensures !ListLike(db, key) ==> a == Answer(db, Err(WrongType))
    ensures SameElsewhere(db, a.db, key)
    ensures WellFormed(db) ==> WellFormed(a.db)
  {
    if !ListLike(db, key) then Answer(db, Err(WrongType))
    else
      var items := [v] + ListAt(db, key);
      Answer(Store(db, key, List(items)), Ok(Num(|items|)))
  }

  /** RPOP: removes and answers the tail, `null` for an empty list. */
  function CmdRpop(db: Db, key: string): (a: Answer)
    ensures ListLike(db, key) && |ListAt(db, key)| == 0 ==> a == Answer(db, Ok(Null))
    ensures ListLike(db, key) && |ListAt(db, key)| > 0 ==>
      var items := ListAt(db, key);
      a.response == Ok(Str(items[|items| - 1])) &&
      ListLike(a.db, key) && ListAt(a.db, key) == items[..|items| - 1]
    ensures !ListLike(db, key) ==> a == Answer(db, Err(WrongType))
    ensures SameElsewhere(db, a.db, key)
    ensures WellFormed(db) ==> WellFormed(a.db)
  {
    if !ListLike(db, key) then Answer(db, Err(WrongType))
    else
      var items := ListAt(db, key);
      if |items| == 0 then Answer(db, Ok(Null))
      else Answer(Store(db, key, List(items[..|items| - 1])), Ok(Str(items[|items| - 1])))
  }

  /**
   * The positions `[lo, hi)` that the inclusive offsets `start` and `stop`
   * select in a sequence of length `n`: negative offsets count from the
   * end, out-of-range offsets are clamped, and an empty selection is `(0, 0)`.
   */
  function Span(n: nat, start: int, stop: int): (r: (nat, nat))
    ensures r.0 <= r.1 <= n
    ensures 0 <= start <= stop < n ==> r == (start, stop + 1)
  {
    var lo := if start < 0 then (if start + n < 0 then 0 else start + n) else start;
    var hi := if stop < 0 then stop + n else if stop >= n then n - 1 else stop;
    if lo > hi || lo >= n then (0, 0) else (lo, hi + 1)
  }

  /** The elements the offsets select, as LRANGE and ZRANGE answer them. */
  function Window<T>(s: seq<T>, start: int, stop: int): (w: seq<T>)
    ensures |w| <= |s|
  {
    var r := Span(|s|, start, stop);
    s[r.0..r.1]
  }

  /** The default offsets 0 and -1 select everything. */
  lemma WindowAll<T>(s: seq<T>)
    ensures Window(s, 0, -1) == s
  {
  }

  /** Offset -1 is the last element. */
  lemma WindowLast<T>(s: seq<T>)
    requires |s| > 0
    ensures Window(s, -1, -1) == [s[|s| - 1]]
  {
  }

  /** A selection that starts past the end is empty. */
  lemma WindowPastEnd<T>(s: seq<T>, start: int, stop: int)
    requires start >= |s|
    ensures Window(s, start, stop) == []
  {
  }

  function Strs(xs: seq<string>): (r: seq<JsValue>)
    ensures |r| == |xs|
    ensures forall i :: 0 <= i < |xs| ==> r[i] == Str(xs[i])
  {
    if |xs| == 0 then [] else Strs(xs[..|xs| - 1]) + [Str(xs[|xs| - 1])]
  }

  /** LRANGE: the selected elements, head first. */
  function CmdLrange(db: Db, key: string, start: int, stop: int): (r: Response)
    ensures ListLike(db, key) ==> r == Ok(Arr(Strs(Window(ListAt(db, key), start, stop))))
    ensures !ListLike(db, key) ==> r == Err(WrongType)
  {
    if ListLike(db, key) then Ok(Arr(Strs(Window(ListAt(db, key), start, stop)))) else Err(WrongType)
  }

  /** LTRIM: keeps only the selected elements; nothing selected deletes the key. */
  function CmdLtrim(db: Db, key: string, start: int, stop: int): (a: Answer)
    ensures ListLike(db, key) ==>
      a.response == Ok(Str("OK")) &&
      ListLike(a.db, key) && ListAt(a.db, key) == Window(ListAt(db, key), start, stop)
    ensures !ListLike(db, key) ==> a == Answer(db, Err(WrongType))
    ensures SameElsewhere(db, a.db, key)
    ensures WellFormed(db) ==> WellFormed(a.db)
  {
    if !ListLike(db, key) then Answer(db, Err(WrongType))
    else if key !in db.values then Answer(db, Ok(Str("OK")))
    else Answer(Store(db, key, List(Window(ListAt(db, key), start, stop))), Ok(Str("OK")))
  }

  /** After LTRIM the whole list is what LRANGE with the same offsets answered before. */
  lemma LtrimThenLrange(db: Db, key: string, start: int, stop: int)
    requires ListLike(db, key)
    ensures CmdLrange(CmdLtrim(db, key, start, stop).db, key, 0, -1) == CmdLrange(db, key, start, stop)
  {
    WindowAll(Window(ListAt(db, key), start, stop));
  }

  // ---------------------------------------------------------------------
  // Sets

  predicate SetLike(db: Db, key: string) {
    key !in db.values || db.values[key].Members?
  }

  /** The set at `key`; a missing key is an empty set. */
  function SetAt(db: Db, key: string): set<string> {
    if key in db.values && db.values[key].Members? then db.values[key].elems else {}
  }

  /** SADD of one member: 1 when it was added, 0 when it was already there. */
  function CmdSadd(db: Db, key: string, m: string): (a: Answer)
    ensures SetLike(db, key) ==> SetLike(a.db, key) && SetAt(a.db, key) == SetAt(db, key) + {m}
    ensures SetLike(db, key) ==> a.response == Ok(Num(if m in SetAt(db, key) then 0 else 1))
    ensures !SetLike(db, key) ==> a == Answer(db, Err(WrongType))
    ensures SameElsewhere(db, a.db, key)
    ensures WellFormed(db) ==> WellFormed(a.db)
  {
    if !SetLike(db, key) then Answer(db, Err(WrongType))
    else
      var old_ := SetAt(db, key);
      assert m in old_ + {m};
      Answer(Store(db, key, Members(old_ + {m})), Ok(Num(if m in old_ then 0 else 1)))
  }

  /** SREM of one member: 1 when it was removed, 0 when it was absent; an emptied set is deleted. */
  function CmdSrem(db: Db, key: string, m: string): (a: Answer)
    ensures SetLike(db, key) ==> SetLike(a.db, key) && SetAt(a.db, key) == SetAt(db, key) - {m}
    ensures SetLike(db, key) ==> a.response == Ok(Num(if m in SetAt(db, key) then 1 else 0))
    ensures SetLike(db, key) && m !in SetAt(db, key) ==> a.db == db
    ensures !SetLike(db, key) ==> a == Answer(db, Err(WrongType))
    ensures SameElsewhere(db, a.db, key)
    ensures WellFormed(db) ==> WellFormed(a.db)
  {
    if !SetLike(db, key) then Answer(db, Err(WrongType))
    else
      var old_ := SetAt(db, key);
      if m !in old_ then Answer(db, Ok(Num(0)))
      else Answer(Store(db, key, Members(old_ - {m})), Ok(Num(1)))
  }

  // ---------------------------------------------------------------------
  // Sorted sets

  predicate ZsetLike(db: Db, key: string) {
    key !in db.values || db.values[key].Sorted?
  }

  function ZsetAt(db: Db, key: string): seq<(int, string)> {
    if key in db.values && db.values[key].Sorted? then db.values[key].entries else []
  }

  /** The member names, in rank order. */
  function MembersOf(es: seq<(int, string)>): (r: seq<string>)
    ensures |r| == |es|
    ensures forall i :: 0 <= i < |es| ==> r[i] == es[i].1
  {
    if |es| == 0 then [] else MembersOf(es[..|es| - 1]) + [es[|es| - 1].1]
  }

  /** The entries without `m`. */
  function Without(es: seq<(int, string)>, m: string): (r: seq<(int, string)>)
    ensures forall e :: e in r <==> e in es && e.1 != m
    ensures |r| <= |es|
    ensures Ascending(es) ==> Ascending(r)
    ensures UniqueMembers(es) ==> UniqueMembers(r)
  {
    if |es| == 0 then []
    else
      var rest := Without(es[1..], m);
      if es[0].1 == m then rest
      else
        assert UniqueMembers(es) ==> forall k :: 0 <= k < |rest| ==> rest[k].1 != es[0].1 by {
          if UniqueMembers(es) {
            forall k | 0 <= k < |rest| ensures rest[k].1 != es[0].1 {
              assert rest[k] in rest;
              var j :| 0 <= j < |es[1..]| && es[1..][j] == rest[k];
              assert es[j + 1] == rest[k];
            }
          }
        }
        assert Ascending(es) && |rest| > 0 ==> LessEntry(es[0], rest[0]) by {
          if Ascending(es) && |rest| > 0 {
            assert rest[0] in es[1..];
            AscendingFirst(es, rest[0]);
          }
        }
        [es[0]] + rest
  }

  /** `e` at its place by score and member. */
  function Insert(es: seq<(int, string)>, e: (int, string)): (r: seq<(int, string)>)
    requires forall x :: x in es ==> x.1 != e.1
    ensures forall x :: x in r <==> x in es || x == e
    ensures |r| == |es| + 1
    ensures Ascending(es) ==> Ascending(r)
    ensures UniqueMembers(es) ==> UniqueMembers(r)
  {
    if |es| == 0 then [e]
    else if LessEntry(e, es[0]) then [e] + es
    else
      var rest := Insert(es[1..], e);
      assert LessEntry(es[0], e) by { LessEntryTotal(es[0], e); }
      assert Ascending(es) ==> LessEntry(es[0], rest[0]) by {
        assert rest[0] in rest;
        assert rest[0] in es[1..] || rest[0] == e;
        if Ascending(es) && rest[0] != e { AscendingFirst(es, rest[0]); }
      }
      assert UniqueMembers(es) ==> forall k :: 0 <= k < |rest| ==> rest[k].1 != es[0].1 by {
        if UniqueMembers(es) {
          forall k | 0 <= k < |rest| ensures rest[k].1 != es[0].1 {
            assert rest[k] in rest;
            if rest[k] != e {
              var j :| 0 <= j < |es[1..]| && es[1..][j] == rest[k];
              assert es[j + 1] == rest[k];
            }
          }
        }
      }
      [es[0]] + rest
  }

  /** In an ascending sequence the head precedes every later element. */
  lemma {:induction false} AscendingFirst(es: seq<(int, string)>, x: (int, string))
    requires |es| > 0 && Ascending(es) && x in es[1..]
    ensures LessEntry(es[0], x)
  {
    if es[1] != x {
      assert x in es[1..][1..];
      AscendingFirst(es[1..], x);
      LessEntryTrans(es[0], es[1], x);
    }
  }

  lemma {:induction false} LessStrTrans(a: string, b: string, c: string)
    requires LessStr(a, b) && LessStr(b, c)
    ensures LessStr(a, c)
  {
    if |a| > 0 && |b| > 0 && |c| > 0 && a[0] == b[0] && b[0] == c[0] {
      LessStrTrans(a[1..], b[1..], c[1..]);
    }
  }

  lemma {:induction false} LessStrTotal(a: string, b: string)
    requires a != b
    ensures LessStr(a, b) || LessStr(b, a)
  {
    if |a| > 0 && |b| > 0 && a[0] == b[0] {
      assert a == [a[0]] + a[1..] && b == [b[0]] + b[1..];
      LessStrTotal(a[1..], b[1..]);
    }
  }

  lemma LessEntryTrans(a: (int, string), b: (int, string), c: (int, string))
    requires LessEntry(a, b) && LessEntry(b, c)
    ensures LessEntry(a, c)
  {
    if a.0 == b.0 == c.0 { LessStrTrans(a.1, b.1, c.1); }
  }

  lemma LessEntryTotal(a: (int, string), b: (int, string))
    requires a.1 != b.1
    ensures LessEntry(a, b) || LessEntry(b, a)
  {
    LessStrTotal(a.1, b.1);
  }

  /** The entries of a sorted set after ZADD: `m` once, with its new score, at its place. */
  function ZaddEntries(es: seq<(int, string)>, score: int, m: string): (r: seq<(int, string)>)
    ensures forall e :: e in r <==> e == (score, m) || (e in es && e.1 != m)
    ensures |r| > 0
    ensures Ascending(es) && UniqueMembers(es) ==> Ascending(r) && UniqueMembers(r)
  {
    Insert(Without(es, m), (score, m))
  }

  /** ZADD of one member: placed by its new score; 1 when it is new, 0 when its score was updated. */
  function CmdZadd(db: Db, key: string, score: int, m: string): (a: Answer)
    ensures ZsetLike(db, key) ==>
      ZsetLike(a.db, key) &&
      (forall e :: e in ZsetAt(a.db, key) <==> e == (score, m) || (e in ZsetAt(db, key) && e.1 != m))
    ensures ZsetLike(db, key) ==>
      a.response == Ok(Num(if m in MembersOf(ZsetAt(db, key)) then 0 else 1))
    ensures !ZsetLike(db, key) ==> a == Answer(db, Err(WrongType))
    ensures SameElsewhere(db, a.db, key)
    ensures WellFormed(db) ==> WellFormed(a.db)
  {
    if !ZsetLike(db, key) then Answer(db, Err(WrongType))
    else
      var es := ZsetAt(db, key);
      var es' := ZaddEntries(es, score, m);
      assert WellFormed(db) ==> ValueOk(Sorted(es')) by {
        if WellFormed(db) { assert key in db.values ==> ValueOk(db.values[key]); }
      }
      var db' := Store(db, key, Sorted(es'));
      assert ZsetAt(db', key) == es';
      Answer(db', Ok(Num(if m in MembersOf(es) then 0 else 1)))
  }

  /** ZRANGE: the selected members, lowest score first. */
  function CmdZrange(db: Db, key: string, start: int, stop: int): (r: Response)
    ensures ZsetLike(db, key) ==> r == Ok(Arr(Strs(MembersOf(Window(ZsetAt(db, key), start, stop)))))
    ensures !ZsetLike(db, key) ==> r == Err(WrongType)
  {
    if ZsetLike(db, key) then Ok(Arr(Strs(MembersOf(Window(ZsetAt(db, key), start, stop)))))
    else Err(WrongType)
  }

  /** The entries left when the ranks the offsets select are removed. */
  function Cut(es: seq<(int, string)>, start: int, stop: int): (r: seq<(int, string)>)
    ensures |r| + |Window(es, start, stop)| == |es|
    ensures 0 <= start <= stop < |es| ==> r == es[..start] + es[stop + 1..]
    ensures forall e :: e in r ==> e in es
    ensures Ascending(es) && UniqueMembers(es) ==> Ascending(r) && UniqueMembers(r)
  {
    var sp := Span(|es|, start, stop);
    var r := es[..sp.0] + es[sp.1..];
    assert Ascending(es) && UniqueMembers(es) ==> Ascending(r) && UniqueMembers(r) by {
      if Ascending(es) && UniqueMembers(es) { CutKeepsOrder(es, sp.0, sp.1); }
    }
    r
  }

  /** ZREMRANGEBYRANK: removes the selected ranks and answers how many were removed. */
  function CmdZremrangebyrank(db: Db, key: string, start: int, stop: int): (a: Answer)
    ensures ZsetLike(db, key) ==>
      ZsetLike(a.db, key) && ZsetAt(a.db, key) == Cut(ZsetAt(db, key), start, stop) &&
      a.response == Ok(Num(|ZsetAt(db, key)| - |ZsetAt(a.db, key)|))
    ensures !ZsetLike(db, key) ==> a == Answer(db, Err(WrongType))
    ensures SameElsewhere(db, a.db, key)
    ensures WellFormed(db) ==> WellFormed(a.db)
  {
    if !ZsetLike(db, key) then Answer(db, Err(WrongType))
    else if key !in db.values then Answer(db, Ok(Num(0)))
    else
      var es := ZsetAt(db, key);
      var es' := Cut(es, start, stop);
      assert WellFormed(db) ==> ValueOk(db.values[key]);
      Answer(Store(db, key, Sorted(es')), Ok(Num(|es| - |es'|)))
  }

  /** Cutting a block of ranks out of a sorted set keeps it ordered and its members unique. */
  lemma CutKeepsOrder(es: seq<(int, string)>, lo: nat, hi: nat)
    requires lo <= hi <= |es| && Ascending(es) && UniqueMembers(es)
    ensures Ascending(es[..lo] + es[hi..]) && UniqueMembers(es[..lo] + es[hi..])
  {
    CutAscending(es, lo, hi);
    CutUnique(es, lo, hi);
  }

  lemma CutAscending(es: seq<(int, string)>, lo: nat, hi: nat)
    requires lo <= hi <= |es| && Ascending(es)
    ensures Ascending(es[..lo] + es[hi..])
  {
    var r := es[..lo] + es[hi..];
    if 0 < lo < hi < |es| {
      var tail := es[lo - 1..];
      assert tail[1..][hi - lo] == es[hi];
      AscendingFirst(tail, es[hi]);
    }
    forall i | 0 <= i < |r| - 1 ensures LessEntry(r[i], r[i + 1]) {
      if i + 1 < lo {
        assert r[i] == es[i] && r[i + 1] == es[i + 1];
      } else if i >= lo {
        assert r[i] == es[i + hi - lo] && r[i + 1] == es[i + 1 + hi - lo];
      } else {
        assert r[i] == es[lo - 1] && r[i + 1] == es[hi];
      }
    }
  }

  lemma CutUnique(es: seq<(int, string)>, lo: nat, hi: nat)
    requires lo <= hi <= |es| && UniqueMembers(es)
    ensures UniqueMembers(es[..lo] + es[hi..])
  {
    var r := es[..lo] + es[hi..];
    forall i, j | 0 <= i < j < |r| ensures r[i].1 != r[j].1 {
      var i' := if i < lo then i else i + hi - lo;
      var j' := if j < lo then j else j + hi - lo;
      assert r[i] == es[i'] && r[j] == es[j'];
    }
  }

  // ---------------------------------------------------------------------
  // Queue behaviour of LPUSH and RPOP

  /** LPUSH of each value in turn, replies ignored. */
  function PushAll(db: Db, key: string, xs: seq<string>): Db {
    if |xs| == 0 then db else CmdLpush(PushAll(db, key, xs[..|xs| - 1]), key, xs[|xs| - 1]).db
  }

  /** The replies of `n` consecutive RPOPs. */
  function PopAll(db: Db, key: string, n: nat): seq<Response>
    decreases n
  {
    if n == 0 then []
    else
      var a := CmdRpop(db, key);
      [a.response] + PopAll(a.db, key, n - 1)
  }

  /** The elements of `xs`, last first. */
  function Reverse(xs: seq<string>): (r: seq<string>)
    ensures |r| == |xs|
  {
    if |xs| == 0 then [] else [xs[|xs| - 1]] + Reverse(xs[..|xs| - 1])
  }

  lemma {:induction false} ReverseFront(xs: seq<string>)
    requires |xs| > 0
    ensures Reverse(xs) == Reverse(xs[1..]) + [xs[0]]
  {
    if |xs| > 1 {
      ReverseFront(xs[..|xs| - 1]);
      assert xs[..|xs| - 1][1..] == xs[1..][..|xs[1..]| - 1];
    }
  }

  /** Pushing values onto a list puts them in front, last pushed first. */
  lemma {:induction false} PushAllList(db: Db, key: string, xs: seq<string>)
    requires ListLike(db, key)
    ensures ListLike(PushAll(db, key, xs), key)
    ensures ListAt(PushAll(db, key, xs), key) == Reverse(xs) + ListAt(db, key)
  {
    if |xs| > 0 {
      var init := xs[..|xs| - 1];
      var last := xs[|xs| - 1];
      PushAllList(db, key, init);
      var d := PushAll(db, key, init);
      var a := CmdLpush(d, key, last);
      assert a.db == PushAll(db, key, xs);
      assert ListLike(a.db, key) && ListAt(a.db, key) == [last] + ListAt(d, key);
      assert Reverse(xs) == [last] + Reverse(init);
      AppendAssoc([last], Reverse(init), ListAt(db, key));
    }
  }

  /** Popping a whole list answers its elements tail first and leaves the key missing. */
  lemma {:induction false} PopAllList(db: Db, key: string, xs: seq<string>)
    requires ListLike(db, key) && ListAt(db, key) == Reverse(xs)
    ensures PopAll(db, key, |xs|) == OkStrs(xs)
    decreases |xs|
  {
    if |xs| > 0 {
      ReverseFront(xs);
      var a := CmdRpop(db, key);
      assert a.response == Ok(Str(xs[0]));
      assert ListAt(a.db, key) == Reverse(xs[1..]);
      PopAllList(a.db, key, xs[1..]);
      assert xs == [xs[0]] + xs[1..];
    }
  }

  /** The replies `Ok(xs[0]), Ok(xs[1]), ...`. */
  function OkStrs(xs: seq<string>): (r: seq<Response>)
    ensures |r| == |xs|
    ensures forall i :: 0 <= i < |xs| ==> r[i] == Ok(Str(xs[i]))
  {
    if |xs| == 0 then [] else [Ok(Str(xs[0]))] + OkStrs(xs[1..])
  }

  /** LPUSH and RPOP make a first-in first-out queue: values come back in the order they were pushed. */
  lemma LpushRpopFifo(db: Db, key: string, xs: seq<string>)
    requires key !in db.values
    ensures PopAll(PushAll(db, key, xs), key, |xs|) == OkStrs(xs)
  {
    PushAllList(db, key, xs);
    assert Reverse(xs) + [] == Reverse(xs);
    PopAllList(PushAll(db, key, xs), key, xs);
  }

  // ---------------------------------------------------------------------
  // Round trips

  /** A SET is read back unchanged by GET. */
  lemma SetThenGet(db: Db, key: string, s: string)
    ensures CmdGet(CmdSet(db, key, s).db, key) == Ok(Str(s))
  {
  }

  /** A SETEX that is accepted is read back unchanged by GET. */
  lemma SetexThenGet(db: Db, key: string, seconds: int, s: string)
    requires seconds > 0
    ensures CmdGet(CmdSetex(db, key, seconds, s).db, key) == Ok(Str(s))
  {
  }

  /** After DEL, GET finds nothing. */
  lemma DelThenGet(db: Db, key: string)
    ensures CmdGet(CmdDel(db, key).db, key) == Ok(Null)
  {
  }

  /** SADD then SREM of a member that was absent restores the set. */
  lemma SaddSrem(db: Db, key: string, m: string)
    requires SetLike(db, key) && m !in SetAt(db, key)
    ensures SetAt(CmdSrem(CmdSadd(db, key, m).db, key, m).db, key) == SetAt(db, key)
  {
    assert SetAt(db, key) + {m} - {m} == SetAt(db, key);
  }
}
