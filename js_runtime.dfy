/**
 * The parts of the browser runtime that the two logging scripts observe:
 * JavaScript values (only as far as the scripts inspect them), the
 * `includes` test on strings, and the calls made to the `console` object.
 */
module JsRuntime {

  datatype Option<T> = None | Some(value: T)

  /**
   * A JavaScript value, seen through the only questions the logging code asks of it.
   * - Str: `typeof v === 'string'`.
   * - Obj: `typeof v === 'object'` and `v !== null`; `json` is what
   *   `JSON.stringify(v)` gives, or None when it throws or gives no string.
   * - Scalar: every other value (numbers, booleans, null, undefined,
   *   functions, symbols); only its truthiness is ever observed.
   */
  datatype Value =
    | Str(s: string)
    | Obj(json: Option<string>)
    | Scalar(truthy: bool)

  /** The boolean coercion `!!v`: the empty string is falsy, every object is truthy. */
  function ToBoolean(v: Value): bool
  {
    match v
    case Str(s) => s != ""
    case Obj(_) => true
    case Scalar(t) => t
  }

  /** `text.includes(pattern)`: pattern occurs in text at some position. */
  predicate Includes(text: string, pattern: string)
  {
    exists i :: 0 <= i <= |text| && pattern <= text[i..]
  }

  /** The five `console` methods both scripts use. */
  datatype Channel = Log | Info | Warn | Error | Debug

  /** One call `console.<channel>(...args)`. */
  datatype Entry = Entry(channel: Channel, args: seq<Value>)
}
