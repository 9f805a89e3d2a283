/**
 * The Elasticsearch service: `get`, `mget`, `search` and the paged `scroll`
 * with the shaping of their replies, `createErrorObject`, and the health
 * probe. The client is not modelled: the replies it passes to a callback are
 * parameters (get, mget, search, health) or the script of a `ScrollBackend`.
 * The caller's arguments are an object the service changes in place.
 */
module Elasticsearch {
  import opened Options
  import opened Dicts
  import opened JsValues
  import opened Promises
  import opened SearchUtils
  import Sequences

  /** What the client passes to a callback: an error, or none and a response. */
  datatype Reply = Reply(err: Option<Failure>, response: JsValue)

  /** The error a type assertion of `check-types` throws; its message text is not part of this model. */
  const AssertionFailed: Failure := NewError("Assertion failed")

  // ---------------------------------------------------------------------
  // createErrorObject

  /** The enumerable own properties `_.extend` copies from a failure. */
  function Fields(f: Failure): Dict<JsValue> {
    if f.Failed? then f.fields else []
  }

  /**
   * `createErrorObject(err, msg)`: a new Error whose message is `String(err)`,
   * extended with the properties of `err`, and whose message is then replaced
   * by `msg` when that is non-empty (`""` stands for an omitted `msg`).
   */
  function CreateErrorObject(err: Failure, msg: string): (e: Failure)
    ensures e.Failed? && e.name == "Error"
    ensures msg != "" ==> e.message == Str(msg)
    ensures msg == "" && "message" !in Keys(Fields(err)) ==> e.message == Str(FailureString(err))
    ensures msg == "" ==> e.fields == Fields(err)
    ensures forall k :: k != "message" ==> Lookup(e.fields, k) == Lookup(Fields(err), k)
    ensures Keys(e.fields) == Keys(Fields(err))
  {
    var fields := Fields(err);
    var copied := Lookup(fields, "message").GetOr(Str(FailureString(err)));
    if msg == "" then Failed("Error", copied, fields)
    else if "message" in Keys(fields) then
      var replaced := Put(fields, "message", Str(msg));
      assert forall k :: k != "message" ==> Lookup(replaced, k) == Lookup(fields, k) by {
        forall k | k != "message" { LookupPut(fields, "message", Str(msg), k); }
      }
      Failed("Error", Str(msg), replaced)
    else Failed("Error", Str(msg), fields)
  }

  /** Wrapping an error object a second time with the same message changes nothing. */
  lemma CreateErrorObjectStable(err: Failure, msg: string)
    requires msg != ""
    ensures CreateErrorObject(CreateErrorObject(err, msg), msg) == CreateErrorObject(err, msg)
  {
    var once := CreateErrorObject(err, msg);
    if "message" in Keys(Fields(err)) {
      PutTwice(Fields(err), "message", Str(msg));
    }
  }

  /** Putting the same binding twice is putting it once. */
  lemma {:induction false} PutTwice<V>(d: Dict<V>, k: string, v: V)
    ensures Put(Put(d, k, v), k, v) == Put(d, k, v)
  {
    if |d| > 0 && d[0].0 != k {
      PutTwice(d[1..], k, v);
    }
  }

  // ---------------------------------------------------------------------
  // The caller's arguments and the fullResponse flag

  /** The caller's arguments object, which get, mget, search and scroll change in place. */
  class EsArgs {
    var props: Dict<JsValue>

    constructor(props: Dict<JsValue>)
      ensures this.props == props
    {
      this.props := props;
    }
  }

  /** `!!args.fullResponse`. */
  predicate FullResponse(p: Dict<JsValue>) {
    Truthy(Member(p, "fullResponse"))
  }

  /** The arguments the client receives: `fullResponse` deleted. */
  function WithoutFlag(p: Dict<JsValue>): (q: Dict<JsValue>)
    ensures "fullResponse" !in Keys(q)
    ensures forall k :: k != "fullResponse" ==> Member(q, k) == Member(p, k)
  {
    var q := Remove(p, "fullResponse");
    assert forall k :: k != "fullResponse" ==> Member(q, k) == Member(p, k) by {
      forall k | k != "fullResponse" { MemberRemove(p, "fullResponse", k); }
    }
    q
  }

  /**
   * The arguments after the client has answered: `fullResponse` set again,
   * now as a boolean and as the last key.
   */
  function Restored(p: Dict<JsValue>): (q: Dict<JsValue>)
    ensures q == WithoutFlag(p) + [("fullResponse", Bool(FullResponse(p)))]
  {
    Put(WithoutFlag(p), "fullResponse", Bool(FullResponse(p)))
  }

  /**
   * The flag the caller passed is still there after the call, as a boolean
   * of the same truthiness, and every other argument is as before.
   */
  lemma RestoredFlag(p: Dict<JsValue>, k: string)
    ensures Member(Restored(p), "fullResponse") == Bool(FullResponse(p))
    ensures k != "fullResponse" ==> Member(Restored(p), k) == Member(p, k)
    ensures FullResponse(Restored(p)) == FullResponse(p)
  {
    var q := WithoutFlag(p);
    MemberPut(q, "fullResponse", Bool(FullResponse(p)), "fullResponse");
    MemberPut(q, "fullResponse", Bool(FullResponse(p)), k);
  }

  /** A second call with the restored arguments restores them to the same object. */
  lemma RestoredStable(p: Dict<JsValue>)
    ensures Restored(Restored(p)) == Restored(p)
  {
    var q := WithoutFlag(p);
    RestoredFlag(p, "fullResponse");
    RemoveAppended(q, "fullResponse", Bool(FullResponse(p)));
  }

  /** Deleting a key that was appended to a dictionary without it gives that dictionary back. */
  lemma {:induction false} RemoveAppended<V>(d: Dict<V>, k: string, v: V)
    requires k !in Keys(d)
    ensures Remove(d + [(k, v)], k) == d
  {
    if |d| > 0 {
      assert (d + [(k, v)])[1..] == d[1..] + [(k, v)];
      assert Keys(d)[1..] == Keys(d[1..]);
      RemoveAppended(d[1..], k, v);
    }
  }

  // ---------------------------------------------------------------------
  // get

  /** The assertions of `get`: `type`, `index` and `id` are strings. */
  predicate GetArgsValid(p: Dict<JsValue>)
    ensures GetArgsValid(p) ==> "type" in Keys(p) && "index" in Keys(p) && "id" in Keys(p)
  {
    MemberIsLookup(p, "type");
    MemberIsLookup(p, "index");
    MemberIsLookup(p, "id");
    Member(p, "type").Str? && Member(p, "index").Str? && Member(p, "id").Str?
  }

  /**
   * `err.status == 404` for the two forms a client status takes: the number
   * 404 or the string "404". Other strings JavaScript's loose equality also
   * equates with 404 (such as "0404" or " 404") are not modelled.
   */
  predicate Is404(v: JsValue)
    ensures Is404(v) ==> ToStr(v) == "404"
  {
    v == Num(404) || v == Str("404")
  }

  /** The message of a `get` that answered with an error. */
  function GetErrorMessage(err: Failure, id: string): (m: string)
    ensures Is404(Field(err, "status")) ==> m == "Requested id \"" + id + "\" not found"
    ensures !Is404(Field(err, "status")) ==> |m| > 12 && m[..12] == "GET failed ("
  {
    if Is404(Field(err, "status")) then "Requested id \"" + id + "\" not found"
    else "GET failed (" + ToStr(Field(err, "code")) + "): " + ToStr(Field(err, "message"))
  }

  /** The message of a `get` whose document is missing without an error. */
  function NotFoundMessage(id: string): string {
    "Could not find \"" + id + "\", although no error was returned"
  }

  /**
   * What the callback of `get` receives for a reply. An undefined response
   * without an error throws a TypeError inside the client's callback
   * (`response.found` is read before the guarded block), so the caller's
   * callback is never called.
   */
  function GetAnswer(full: bool, id: string, reply: Reply): (r: Outcome<JsValue>)
    ensures r.Rejected? <==>
      reply.err.Some? || reply.response.Null? ||
      (reply.response.Obj? && StrictEquals(At(reply.response, "found"), Bool(false)))
    ensures r.NeverSettles? <==> reply.err.None? && reply.response.Undefined?
    ensures r.Resolved? ==> r.value == if full then reply.response else At(reply.response, "_source")
    ensures r.Rejected? ==> r.reason.Failed? && r.reason.name == "Error"
  {
    match reply.err
    case Some(err) => Rejected(CreateErrorObject(err, GetErrorMessage(err, id)))
    case None =>
      var response := reply.response;
      if response.Null? then Rejected(CreateErrorObject(NewError(NotFoundMessage(id)), NotFoundMessage(id)))
      else if response.Undefined? then NeverSettles(TypeError)
      else if StrictEquals(At(response, "found"), Bool(false)) then
        Rejected(CreateErrorObject(NewError(NotFoundMessage(id)), NotFoundMessage(id)))
      else Resolved(if full then response else At(response, "_source"))
  }

  /** A 404 from the client is reported with the requested id; the error's other properties stay. */
  lemma Get404(full: bool, id: string, err: Failure, response: JsValue, k: string)
    requires Is404(Field(err, "status"))
    ensures GetAnswer(full, id, Reply(Some(err), response)).Rejected?
    ensures GetAnswer(full, id, Reply(Some(err), response)).reason.message == Str("Requested id \"" + id + "\" not found")
    ensures k != "message" ==> Lookup(GetAnswer(full, id, Reply(Some(err), response)).reason.fields, k) == Lookup(Fields(err), k)
  {
  }

  /** `found: false` without an error is a rejection that names the id. */
  lemma GetFoundFalse(full: bool, id: string, response: JsValue)
    requires response.Obj? && At(response, "found") == Bool(false)
    ensures GetAnswer(full, id, Reply(None, response)) ==
      Rejected(Failed("Error", Str(NotFoundMessage(id)), []))
  {
  }

  /**
   * `get`: a wrong argument type throws before anything changes; otherwise
   * the client receives the arguments without `fullResponse`, which is
   * restored afterwards, and the callback receives `GetAnswer`.
   */
  method GetDocument(args: EsArgs, reply: Reply) returns (sent: Dict<JsValue>, r: Outcome<JsValue>)
    modifies args
    ensures !GetArgsValid(old(args.props)) ==> r == Throws(AssertionFailed) && args.props == old(args.props)
    ensures GetArgsValid(old(args.props)) ==>
      sent == WithoutFlag(old(args.props)) && args.props == Restored(old(args.props)) &&
      r == GetAnswer(FullResponse(old(args.props)), Member(old(args.props), "id").s, reply)
  {
    sent := args.props;
    if !GetArgsValid(args.props) {
      return sent, Throws(AssertionFailed);
    }
    var full := FullResponse(args.props);
    var id := Member(args.props, "id").s;
    args.props := WithoutFlag(args.props);
    sent := args.props;
    args.props := Put(args.props, "fullResponse", Bool(full));
    r := GetAnswer(full, id, reply);
  }

  // ---------------------------------------------------------------------
  // mget

  /** The assertions of `mget`: `type` and `index` are strings, `body` an object, `body.ids` an array. */
  predicate MgetArgsValid(p: Dict<JsValue>) {
    Member(p, "type").Str? && Member(p, "index").Str? && Member(p, "body").Obj? &&
    At(Member(p, "body"), "ids").Arr?
  }

  /** What the callback of `mget` receives for a reply. */
  function MgetAnswer(full: bool, reply: Reply): (r: Outcome<JsValue>)
    ensures reply.err.Some? ==> r == Rejected(reply.err.value)
    ensures reply.err.None? && reply.response.Null? ==> r == Rejected(NewError("Unknown error"))
    ensures reply.err.None? && !reply.response.Null? && full ==> r == Resolved(reply.response)
    ensures reply.err.None? && !reply.response.Null? && !full ==>
      match CreateSimpleSearchResult(reply.response)
      case None => r == Rejected(TypeError)
      case Some(docs) => r == Resolved(Arr(docs))
    ensures !r.Throws? && !r.NeverSettles?
  {
    match reply.err
    case Some(err) => Rejected(err)
    case None =>
      if reply.response.Null? then Rejected(NewError("Unknown error"))
      else if full then Resolved(reply.response)
      else
        match CreateSimpleSearchResult(reply.response)
        case None => Rejected(TypeError)
        case Some(docs) => Resolved(Arr(docs))
  }

  /** Without fullResponse, every document `mget` answers is a truthy `_source`. */
  lemma MgetSources(reply: Reply, x: JsValue)
    requires MgetAnswer(false, reply).Resolved?
    ensures MgetAnswer(false, reply).value.Arr?
    ensures x in MgetAnswer(false, reply).value.elems ==> Truthy(x)
  {
  }

  /** `mget`: as `get`, with its own assertions and answer. */
  method Mget(args: EsArgs, reply: Reply) returns (sent: Dict<JsValue>, r: Outcome<JsValue>)
    modifies args
    ensures !MgetArgsValid(old(args.props)) ==> r == Throws(AssertionFailed) && args.props == old(args.props)
    ensures MgetArgsValid(old(args.props)) ==>
      sent == WithoutFlag(old(args.props)) && args.props == Restored(old(args.props)) &&
      r == MgetAnswer(FullResponse(old(args.props)), reply)
  {
    sent := args.props;
    if !MgetArgsValid(args.props) {
      return sent, Throws(AssertionFailed);
    }
    var full := FullResponse(args.props);
    args.props := WithoutFlag(args.props);
    sent := args.props;
    args.props := Put(args.props, "fullResponse", Bool(full));
    r := MgetAnswer(full, reply);
  }

  // ---------------------------------------------------------------------
  // search

  /** The assertion of `search`: `body` is an object. */
  predicate SearchArgsValid(p: Dict<JsValue>) {
    Member(p, "body").Obj?
  }

  /**
   * `response.hits` with its `hits` replaced by the simple search result;
   * `None` where the source throws: `response.hits` is null or undefined, its
   * `hits` is not a list of hits, or it is not an object (assignment to a
   * primitive in strict mode).
   */
  function SimpleHits(response: JsValue): (r: Option<JsValue>)
    ensures r.Some? ==> At(response, "hits").Obj? && r.value.Obj?
    ensures r.Some? ==> CreateSimpleSearchResult(At(At(response, "hits"), "hits")).Some?
  {
    var hits := At(response, "hits");
    if !hits.Obj? then None
    else
      match CreateSimpleSearchResult(At(hits, "hits"))
      case None => None
      case Some(docs) => Some(Obj(Put(hits.props, "hits", Arr(docs))))
  }

  /** The simple search result keeps every other property of `response.hits` (such as `total`). */
  lemma SimpleHitsKeeps(response: JsValue, k: string)
    requires SimpleHits(response).Some?
    ensures At(SimpleHits(response).value, "hits") ==
      Arr(CreateSimpleSearchResult(At(At(response, "hits"), "hits")).value)
    ensures k != "hits" ==> At(SimpleHits(response).value, k) == At(At(response, "hits"), k)
  {
    var hits := At(response, "hits");
    var docs := CreateSimpleSearchResult(At(hits, "hits")).value;
    MemberPut(hits.props, "hits", Arr(docs), "hits");
    MemberPut(hits.props, "hits", Arr(docs), k);
  }

  /** The message of the error `search` makes for a null response. */
  function NullResponseText(): string {
    "Unknown error: Got null response"
  }

  /** What the callback of `search` receives for a reply. */
  function SearchAnswer(full: bool, reply: Reply): (r: Outcome<JsValue>)
    ensures reply.err.Some? ==> r == Rejected(CreateErrorObject(reply.err.value, ""))
    ensures reply.err.None? && reply.response.Null? ==>
      r == Rejected(CreateErrorObject(NewError(NullResponseText()), ""))
    ensures reply.err.None? && !reply.response.Null? && full ==> r == Resolved(reply.response)
    ensures reply.err.None? && !reply.response.Null? && !full ==>
      (r.Resolved? <==> SimpleHits(reply.response).Some?) &&
      (r.Resolved? ==> r.value == SimpleHits(reply.response).value) &&
      (r.Rejected? ==> r.reason == CreateErrorObject(TypeError, ""))
    ensures !r.Throws? && !r.NeverSettles?
  {
    match reply.err
    case Some(err) => Rejected(CreateErrorObject(err, ""))
    case None =>
      if reply.response.Null? then Rejected(CreateErrorObject(NewError(NullResponseText()), ""))
      else if full then Resolved(reply.response)
      else
        match SimpleHits(reply.response)
        case None => Rejected(CreateErrorObject(TypeError, ""))
        case Some(hits) => Resolved(hits)
  }

  /** A null response is reported as `Error: Unknown error: Got null response`, the name in the message. */
  lemma SearchNullMessage(full: bool)
    ensures SearchAnswer(full, Reply(None, Null)) ==
      Rejected(Failed("Error", Str("Error: Unknown error: Got null response"), []))
  {
    NewErrorObject(NullResponseText());
    NullMessageText();
  }

  /** The text of that error with its name. */
  lemma NullMessageText()
    ensures "Error: " + NullResponseText() == "Error: Unknown error: Got null response"
  {
  }

  /** A fresh Error passed on without a message: its text is prefixed with the name. */
  lemma NewErrorObject(msg: string)
    requires msg != ""
    ensures CreateErrorObject(NewError(msg), "") == Failed("Error", Str("Error: " + msg), [])
  {
    assert Fields(NewError(msg)) == [];
  }

  /** `search`: as `get`, with its own assertion and answer. */
  method Search(args: EsArgs, reply: Reply) returns (sent: Dict<JsValue>, r: Outcome<JsValue>)
    modifies args
    ensures !SearchArgsValid(old(args.props)) ==> r == Throws(AssertionFailed) && args.props == old(args.props)
    ensures SearchArgsValid(old(args.props)) ==>
      sent == WithoutFlag(old(args.props)) && args.props == Restored(old(args.props)) &&
      r == SearchAnswer(FullResponse(old(args.props)), reply)
  {
    sent := args.props;
    if !SearchArgsValid(args.props) {
      return sent, Throws(AssertionFailed);
    }
    var full := FullResponse(args.props);
    args.props := WithoutFlag(args.props);
    sent := args.props;
    args.props := Put(args.props, "fullResponse", Bool(full));
    r := SearchAnswer(full, reply);
  }

  // ---------------------------------------------------------------------
  // scroll

  /** The assertions of `scroll`: `index` is a string, `body` an object. */
  predicate ScrollArgsValid(p: Dict<JsValue>)
    ensures ScrollArgsValid(p) ==> "index" in Keys(p) && "body" in Keys(p)
  {
    MemberIsLookup(p, "index");
    MemberIsLookup(p, "body");
    Member(p, "index").Str? && Member(p, "body").Obj?
  }

  const DefaultScroll: JsValue := Str("30s")

  /** The scroll duration every page request carries: the caller's when truthy, else "30s". */
  function Duration(p: Dict<JsValue>): (d: JsValue)
    ensures Truthy(d)
    ensures Truthy(Member(p, "scroll")) ==> d == Member(p, "scroll")
  {
    if Truthy(Member(p, "scroll")) then Member(p, "scroll") else DefaultScroll
  }

  /** The arguments of the first search: `fullResponse` deleted and the duration filled in. */
  function ScrollSent(p: Dict<JsValue>): (q: Dict<JsValue>)
    ensures "fullResponse" !in Keys(q)
  {
    var w := WithoutFlag(p);
    if Truthy(Member(w, "scroll")) then w
    else
      assert Keys(Put(w, "scroll", DefaultScroll)) == Keys(w) || Keys(Put(w, "scroll", DefaultScroll)) == Keys(w) + ["scroll"];
      Put(w, "scroll", DefaultScroll)
  }

  /** The first search asks for the same duration as every later page. */
  lemma ScrollSentDuration(p: Dict<JsValue>)
    ensures Member(ScrollSent(p), "scroll") == Duration(p)
  {
    var w := WithoutFlag(p);
    MemberPut(w, "scroll", DefaultScroll, "scroll");
  }

  /** The reply an exhausted script gives: an empty page without a scroll id. */
  const EmptyPage: Reply := Reply(None, Obj([("hits", Obj([("total", Num(0)), ("hits", Arr([]))]))]))

  /** The next reply of a script. */
  function Head(script: seq<Reply>): Reply {
    if |script| == 0 then EmptyPage else script[0]
  }

  /** The script after its next reply. */
  function Tail(script: seq<Reply>): seq<Reply> {
    if |script| == 0 then [] else script[1..]
  }

  /**
   * What one page adds to the hits: each hit, or each hit's `_source` without
   * fullResponse. `None` where the source throws: `response.hits` is null or
   * undefined, its `hits` is not an array, or (without fullResponse) a hit is
   * null or undefined.
   */
  function PageHits(response: JsValue, full: bool): (r: Option<seq<JsValue>>)
    ensures r.Some? ==> At(At(response, "hits"), "hits").Arr?
    ensures r.Some? ==> |r.value| == |At(At(response, "hits"), "hits").elems|
    ensures r.Some? && full ==> r.value == At(At(response, "hits"), "hits").elems
  {
    var page := At(At(response, "hits"), "hits");
    if !page.Arr? then None
    else if full then Some(page.elems)
    else Sources(page.elems)
  }

  /** How the callback `getMoreUntilDone` handles one reply. */
  datatype Step =
    /** The scroll ends with `outcome`, after a `clearScroll` of each id in `clear`. */
    | Done(outcome: Outcome<JsValue>, clear: seq<JsValue>)
    /** The hits so far are `hits`; the next page is requested with `scrollId`. */
    | More(hits: seq<JsValue>, scrollId: JsValue)

  /** The failure a reply carries: the client's error, or a missing response. */
  function ReplyFailure(a: Reply): Option<Failure> {
    if a.err.Some? then a.err
    else if !Truthy(a.response) then Some(NewError("No response returned"))
    else None
  }

  /** One call of `getMoreUntilDone` on reply `a`, with the hits `acc` gathered before. */
  function StepOf(a: Reply, full: bool, acc: seq<JsValue>): (s: Step)
    ensures s.Done? ==> |s.clear| <= 1
    ensures s.More? ==> |s.hits| > |acc| && s.hits[..|acc|] == acc
  {
    match ReplyFailure(a)
    case Some(f) =>
      var id := At(a.response, "_scroll_id");
      Done(Rejected(f), if Truthy(a.response) && Truthy(id) then [id] else [])
    case None =>
      match PageHits(a.response, full)
      case None => Done(NeverSettles(TypeError), [])
      case Some(hs) =>
        var all := acc + hs;
        if !StrictEquals(At(At(a.response, "hits"), "total"), Num(|all|)) && |hs| != 0 then
          More(all, At(a.response, "_scroll_id"))
        else Done(Resolved(Arr(all)), [At(a.response, "_scroll_id")])
  }

  /** An empty page ends the scroll with the hits gathered so far. */
  lemma EmptyPageEnds(full: bool, acc: seq<JsValue>)
    ensures StepOf(EmptyPage, full, acc) == Done(Resolved(Arr(acc)), [Undefined])
  {
    assert PageHits(EmptyPage.response, full) == Some([]);
    assert acc + [] == acc;
  }

  /** The page request `{scroll_id, scroll}`. */
  function ScrollRequest(id: JsValue, duration: JsValue): JsValue {
    Obj([("scroll_id", id), ("scroll", duration)])
  }

  /** How a whole scroll ends: the outcome, the page requests made and the ids cleared. */
  datatype ScrollRun = ScrollRun(outcome: Outcome<JsValue>, requests: seq<JsValue>, cleared: seq<JsValue>)

  /**
   * The scroll over the replies `script` (the first answers the search, each
   * later one a page request), with the hits `acc` gathered before.
   */
  function Scrolling(script: seq<Reply>, full: bool, duration: JsValue, acc: seq<JsValue>): (run: ScrollRun)
    ensures |run.requests| <= |script|
    decreases |script|
  {
    match StepOf(Head(script), full, acc)
    case Done(o, c) => ScrollRun(o, [], c)
    case More(all, id) =>
      if |script| == 0 then
        EmptyPageEnds(full, acc);
        assert false; ScrollRun(Resolved(Arr(all)), [], [])
      else
        var rest := Scrolling(script[1..], full, duration, all);
        ScrollRun(rest.outcome, [ScrollRequest(id, duration)] + rest.requests, rest.cleared)
  }

  /** A successful scroll clears its scroll context exactly once; a failed one at most once. */
  lemma {:induction false} ScrollClears(script: seq<Reply>, full: bool, duration: JsValue, acc: seq<JsValue>)
    ensures Scrolling(script, full, duration, acc).outcome.Resolved? ==> |Scrolling(script, full, duration, acc).cleared| == 1
    ensures |Scrolling(script, full, duration, acc).cleared| <= 1
  {
    if StepOf(Head(script), full, acc).More? && |script| > 0 {
      ScrollClears(script[1..], full, duration, StepOf(Head(script), full, acc).hits);
    }
  }

  /** A scroll never throws, and a successful one answers an array of hits. */
  lemma {:induction false} ScrollAnswersArray(script: seq<Reply>, full: bool, duration: JsValue, acc: seq<JsValue>)
    ensures !Scrolling(script, full, duration, acc).outcome.Throws?
    ensures Scrolling(script, full, duration, acc).outcome.Resolved? ==> Scrolling(script, full, duration, acc).outcome.value.Arr?
  {
    if StepOf(Head(script), full, acc).More? && |script| > 0 {
      ScrollAnswersArray(script[1..], full, duration, StepOf(Head(script), full, acc).hits);
    }
  }

  /** A failed reply clears the scroll context exactly when it carries a scroll id. */
  lemma ErrorClearsIfScrollId(a: Reply, full: bool, acc: seq<JsValue>)
    requires ReplyFailure(a).Some?
    ensures StepOf(a, full, acc).Done? && StepOf(a, full, acc).outcome.Rejected?
    ensures |StepOf(a, full, acc).clear| == 1 <==> Truthy(a.response) && Truthy(At(a.response, "_scroll_id"))
  {
  }

  /** Every page request carries the same duration. */
  lemma {:induction false} ScrollReusesDuration(script: seq<Reply>, full: bool, duration: JsValue, acc: seq<JsValue>, i: int)
    requires 0 <= i < |Scrolling(script, full, duration, acc).requests|
    ensures At(Scrolling(script, full, duration, acc).requests[i], "scroll") == duration
  {
    var s := StepOf(Head(script), full, acc);
    if s.More? && |script| > 0 {
      var rest := Scrolling(script[1..], full, duration, s.hits);
      assert Scrolling(script, full, duration, acc).requests == [ScrollRequest(s.scrollId, duration)] + rest.requests;
      if i > 0 {
        ScrollReusesDuration(script[1..], full, duration, s.hits, i - 1);
      } else {
        MemberPair("scroll_id", s.scrollId, "scroll", duration, "scroll");
      }
    }
  }

  /** The hits the scroll returns start with the hits gathered before. */
  lemma {:induction false} ScrollKeepsEarlierHits(script: seq<Reply>, full: bool, duration: JsValue, acc: seq<JsValue>)
    requires Scrolling(script, full, duration, acc).outcome.Resolved?
    ensures Scrolling(script, full, duration, acc).outcome.value.Arr?
    ensures |acc| <= |Scrolling(script, full, duration, acc).outcome.value.elems|
    ensures Scrolling(script, full, duration, acc).outcome.value.elems[..|acc|] == acc
  {
    var s := StepOf(Head(script), full, acc);
    if s.More? && |script| > 0 {
      ScrollKeepsEarlierHits(script[1..], full, duration, s.hits);
      var xs := Scrolling(script, full, duration, acc).outcome.value.elems;
      assert xs[..|s.hits|][..|acc|] == xs[..|acc|];
    }
  }

  /** A hit whose document is `doc`. */
  function Hit(doc: JsValue): JsValue {
    Obj([("_source", doc)])
  }

  /** One hit per document. */
  function HitsOf(docs: seq<JsValue>): (hs: seq<JsValue>)
    ensures |hs| == |docs|
  {
    seq(|docs|, i requires 0 <= i < |docs| => Hit(docs[i]))
  }

  /** A page holding the hits of `docs`, with a total and a scroll id. */
  function Page(total: int, docs: seq<JsValue>, id: string): Reply {
    Reply(None, Obj([("_scroll_id", Str(id)), ("hits", Obj([("total", Num(total)), ("hits", Arr(HitsOf(docs)))]))]))
  }

  /** Without fullResponse, a page contributes the documents of its hits. */
  lemma PageDocs(total: int, docs: seq<JsValue>, id: string)
    ensures PageHits(Page(total, docs, id).response, false) == Some(docs)
    ensures At(At(Page(total, docs, id).response, "hits"), "total") == Num(total)
    ensures At(Page(total, docs, id).response, "_scroll_id") == Str(id)
  {
    var hs := HitsOf(docs);
    var response := Page(total, docs, id).response;
    var hitsObj := Obj([("total", Num(total)), ("hits", Arr(hs))]);
    assert response == Obj([("_scroll_id", Str(id)), ("hits", hitsObj)]);
    MemberPair("_scroll_id", Str(id), "hits", hitsObj, "hits");
    MemberPair("_scroll_id", Str(id), "hits", hitsObj, "_scroll_id");
    MemberPair("total", Num(total), "hits", Arr(hs), "hits");
    MemberPair("total", Num(total), "hits", Arr(hs), "total");
    forall i | 0 <= i < |hs|
      ensures Get(hs[i], "_source") == docs[i]
    {
      AtIsGet(hs[i], "_source");
    }
    var srcs := Sources(hs).value;
    assert forall i :: 0 <= i < |hs| ==> srcs[i] == docs[i];
    assert srcs == docs;
  }

  /** Five hits in pages of two: the search and two page requests, five documents, one clear. */
  lemma FiveHitsInPagesOfTwo(d: seq<JsValue>, duration: JsValue)
    requires |d| == 5
    ensures
      var script := [Page(5, d[0..2], "s"), Page(5, d[2..4], "s"), Page(5, d[4..5], "s")];
      Scrolling(script, false, duration, []) ==
        ScrollRun(Resolved(Arr(d)), [ScrollRequest(Str("s"), duration), ScrollRequest(Str("s"), duration)], [Str("s")])
  {
    var p0 := Page(5, d[0..2], "s");
    var p1 := Page(5, d[2..4], "s");
    var p2 := Page(5, d[4..5], "s");
    PageDocs(5, d[0..2], "s");
    PageDocs(5, d[2..4], "s");
    PageDocs(5, d[4..5], "s");
    assert [] + d[0..2] == d[0..2];
    assert d[0..2] + d[2..4] == d[0..4];
    assert d[0..4] + d[4..5] == d;
    assert StepOf(p0, false, []) == More(d[0..2], Str("s"));
    assert StepOf(p1, false, d[0..2]) == More(d[0..4], Str("s"));
    assert StepOf(p2, false, d[0..4]) == Done(Resolved(Arr(d)), [Str("s")]);
    var req := ScrollRequest(Str("s"), duration);
    assert Scrolling([p2], false, duration, d[0..4]) == ScrollRun(Resolved(Arr(d)), [], [Str("s")]);
    assert [p1, p2][1..] == [p2];
    assert Scrolling([p1, p2], false, duration, d[0..2]) == ScrollRun(Resolved(Arr(d)), [req], [Str("s")]);
    assert [p0, p1, p2][1..] == [p1, p2];
  }

  /**
   * With a `total` that is an object (a newer cluster's `{value, relation}`),
   * the strict comparison never holds: every non-empty page asks for another.
   */
  lemma ObjectTotalScrollsOn(response: JsValue, full: bool, acc: seq<JsValue>)
    requires Truthy(response) && At(At(response, "hits"), "total").Obj?
    requires PageHits(response, full).Some? && |PageHits(response, full).value| > 0
    ensures StepOf(Reply(None, response), full, acc).More?
  {
  }

  /** The client as the scroll sees it: the replies still to come and what it was asked. */
  class ScrollBackend {
    var script: seq<Reply>
    var searches: seq<Dict<JsValue>>
    var requests: seq<JsValue>
    var cleared: seq<JsValue>

    constructor(script: seq<Reply>)
      ensures this.script == script && searches == [] && requests == [] && cleared == []
    {
      this.script := script;
      searches := [];
      requests := [];
      cleared := [];
    }

    /** `client.search(args, cb)`: the next reply. */
    method Search(args: Dict<JsValue>) returns (a: Reply)
      modifies this
      ensures a == Head(old(script)) && script == Tail(old(script))
      ensures searches == old(searches) + [args] && requests == old(requests) && cleared == old(cleared)
    {
      a := Head(script);
      script := Tail(script);
      searches := searches + [args];
    }

    /** `client.scroll(request, cb)`: the next reply. */
    method Scroll(request: JsValue) returns (a: Reply)
      modifies this
      ensures a == Head(old(script)) && script == Tail(old(script))
      ensures requests == old(requests) + [request] && searches == old(searches) && cleared == old(cleared)
    {
      a := Head(script);
      script := Tail(script);
      requests := requests + [request];
    }

    /** `client.clearScroll(id)`. */
    method ClearScroll(id: JsValue)
      modifies this
      ensures cleared == old(cleared) + [id]
      ensures script == old(script) && searches == old(searches) && requests == old(requests)
    {
      cleared := cleared + [id];
    }
  }

  /**
   * The callback `getMoreUntilDone` applied to the first reply and then to
   * the reply of each page request it makes, until a step ends the scroll.
   */
  method GetMoreUntilDone(client: ScrollBackend, full: bool, duration: JsValue, first: Reply, ghost script: seq<Reply>)
    returns (last: Step)
    requires first == Head(script) && client.script == Tail(script)
    modifies client
    ensures last == Done(Scrolling(script, full, duration, []).outcome, Scrolling(script, full, duration, []).cleared)
    ensures client.requests == old(client.requests) + Scrolling(script, full, duration, []).requests
    ensures client.searches == old(client.searches) && client.cleared == old(client.cleared)
  {
    ghost var cur := script;
    ghost var made: seq<JsValue> := [];
    var a := first;
    var allHits: seq<JsValue> := [];
    last := StepOf(a, full, allHits);
    if |cur| == 0 { EmptyPageEnds(full, allHits); }
    while last.More?
      invariant a == Head(cur) && client.script == Tail(cur) && last == StepOf(a, full, allHits)
      invariant |cur| == 0 ==> last.Done?
      invariant Scrolling(script, full, duration, []) ==
        var rest := Scrolling(cur, full, duration, allHits); ScrollRun(rest.outcome, made + rest.requests, rest.cleared)
      invariant client.requests == old(client.requests) + made
      invariant client.searches == old(client.searches) && client.cleared == old(client.cleared)
      decreases |cur|
    {
      var request := ScrollRequest(last.scrollId, duration);
      Sequences.AppendAssoc(made, [request], Scrolling(cur[1..], full, duration, last.hits).requests);
      made := made + [request];
      allHits := last.hits;
      cur := cur[1..];
      a := client.Scroll(request);
      last := StepOf(a, full, allHits);
      if |cur| == 0 { EmptyPageEnds(full, allHits); }
    }
  }

  /**
   * `scroll`: the search, the pages of `GetMoreUntilDone`, then the clears of
   * its last step; the flag is restored only on success.
   */
  method ScrollEs(client: ScrollBackend, args: EsArgs) returns (r: Outcome<JsValue>)
    modifies client, args
    ensures !ScrollArgsValid(old(args.props)) ==>
      r == Throws(AssertionFailed) && args.props == old(args.props) && unchanged(client)
    ensures ScrollArgsValid(old(args.props)) ==>
      var run := Scrolling(old(client.script), FullResponse(old(args.props)), Duration(old(args.props)), []);
      r == run.outcome &&
      client.searches == old(client.searches) + [ScrollSent(old(args.props))] &&
      client.requests == old(client.requests) + run.requests &&
      client.cleared == old(client.cleared) + run.cleared &&
      args.props == if r.Resolved? then ScrollSent(old(args.props)) + [("fullResponse", Bool(FullResponse(old(args.props))))]
                    else ScrollSent(old(args.props))
  {
    if !ScrollArgsValid(args.props) {
      return Throws(AssertionFailed);
    }
    var full := FullResponse(args.props);
    var duration := Duration(args.props);
    var sent := ScrollSent(args.props);
    args.props := sent;
    ghost var script := client.script;
    var first := client.Search(sent);
    var last := GetMoreUntilDone(client, full, duration, first, script);
    ScrollClears(script, full, duration, []);
    if |last.clear| == 1 {
      client.ClearScroll(last.clear[0]);
      assert [last.clear[0]] == last.clear;
    }
    r := last.outcome;
    if r.Resolved? {
      args.props := sent + [("fullResponse", Bool(full))];
    }
  }

  // ---------------------------------------------------------------------
  // healthy / isHealthy

  /** How the cluster health request ends. */
  datatype HealthReply = HealthOk(result: JsValue) | HealthFailed(error: Failure)

  /** What `healthy` passes to its callback: `{message}` as the error, or the health as the result. */
  datatype Health = NotReady(message: string) | Ready(result: JsValue)

  /**
   * `healthy`: a red cluster or a failed request is not ready. `None` where
   * reading `result.status` throws, which rejects the returned promise.
   */
  function Healthy(reply: HealthReply): (r: Option<Health>)
    ensures reply.HealthFailed? ==> r == Some(NotReady("Host not ready: " + FailureString(reply.error)))
    ensures reply.HealthOk? ==> (r.None? <==> IsNil(reply.result))
    ensures reply.HealthOk? && r.Some? ==>
      (r.value.NotReady? <==> At(reply.result, "status") == Str("red")) &&
      (r.value.NotReady? ==> r.value.message == "Host not ready") &&
      (r.value.Ready? ==> r.value.result == reply.result)
  {
    match reply
    case HealthFailed(e) => Some(NotReady("Host not ready: " + FailureString(e)))
    case HealthOk(result) =>
      if IsNil(result) then None
      else if StrictEquals(At(result, "status"), Str("red")) then Some(NotReady("Host not ready"))
      else Some(Ready(result))
  }

  /** The error argument the callback receives. */
  function HealthError(h: Health): (e: JsValue)
    ensures Truthy(e) <==> h.NotReady?
  {
    match h
    case NotReady(m) => Obj([("message", Str(m))])
    case Ready(_) => Null
  }

  /** `isHealthy`: true exactly when the cluster answered with a status other than red. */
  function IsHealthy(reply: HealthReply): (r: Outcome<bool>)
    ensures r.Resolved? ==> (r.value <==> reply.HealthOk? && At(reply.result, "status") != Str("red"))
    ensures r.Rejected? <==> reply.HealthOk? && IsNil(reply.result)
    ensures r.Resolved? || r.Rejected?
  {
    match Healthy(reply)
    case None => Rejected(TypeError)
    case Some(h) => Resolved(!Truthy(HealthError(h)))
  }
}
