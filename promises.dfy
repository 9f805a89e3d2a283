/**
 * How an asynchronous operation of the core ends, and the settle-once rule
 * of a JavaScript promise.
 */
module Promises {
  import opened Options
  import opened Dicts
  import opened JsValues

  /** What a promise is rejected with, or what is thrown. */
  datatype Failure =
    /** A plain string, as in `Promise.reject("Missing key")`. */
    | Reason(text: string)
    /** An `Error` object: its name, its message and its enumerable own properties. */
    | Failed(name: string, message: JsValue, fields: Dict<JsValue>)

  /** `err[k]` on a failure. */
  function Field(f: Failure, k: string): (r: JsValue)
    ensures f.Reason? ==> r == Undefined
  {
    match f
    case Reason(_) => Undefined
    case Failed(name, message, fields) =>
      if k == "message" then message
      else if k == "name" then Str(name)
      else Lookup(fields, k).GetOr(Undefined)
  }

  /** `new Exception(obj)` of the source's error helper: an Error carrying `obj`'s fields. */
  function Exception(obj: Dict<JsValue>): (f: Failure)
    ensures f.Failed? && f.fields == obj
  {
    Failed("Error", Lookup(obj, "message").GetOr(Str("")), obj)
  }

  /** `new Error(msg)`. */
  function NewError(msg: string): Failure {
    Failed("Error", Str(msg), [])
  }

  /** The TypeError a property read on null or undefined (or a call of a missing method) throws. */
  const TypeError: Failure := Failed("TypeError", Str("Cannot read properties of null or undefined"), [])

  /** A caught failure stored as a property value: the string itself, or the error object's own fields. */
  function FailureValue(f: Failure): (v: JsValue)
    ensures f.Reason? ==> v == Str(f.text)
    ensures f.Failed? ==> v == Obj(f.fields)
  {
    match f
    case Reason(t) => Str(t)
    case Failed(_, _, fields) => Obj(fields)
  }

  /** `String(err)`: `Error.prototype.toString` for errors, the text itself for strings. */
  function FailureString(f: Failure): string {
    match f
    case Reason(t) => t
    case Failed(name, message, _) =>
      var m := if message.Undefined? then "" else ToStr(message);
      if name == "" then m else if m == "" then name else name + ": " + m
  }

  /**
   * How a call of the core ends for its caller.
   * `NeverSettles`: the error escaped into a callback (an uncaught exception
   * or an unhandled rejection) and the promise the caller holds stays pending.
   */
  datatype Outcome<T> =
    | Resolved(value: T)
    | Rejected(reason: Failure)
    | Throws(reason: Failure)
    | NeverSettles(reason: Failure)

  /** The state of one promise. */
  datatype PromiseState<T> = Pending | Fulfilled(value: T) | Broken(reason: Failure)

  /** `resolve(v)`: only the first settlement of a promise takes effect. */
  function Resolve<T>(p: PromiseState<T>, v: T): (q: PromiseState<T>)
    ensures p.Pending? ==> q == Fulfilled(v)
    ensures !p.Pending? ==> q == p
  {
    if p.Pending? then Fulfilled(v) else p
  }

  /** `reject(e)`: only the first settlement of a promise takes effect. */
  function Reject<T>(p: PromiseState<T>, e: Failure): (q: PromiseState<T>)
    ensures p.Pending? ==> q == Broken(e)
    ensures !p.Pending? ==> q == p
  {
    if p.Pending? then Broken(e) else p
  }
}
