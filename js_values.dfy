/**
 * The JavaScript values the scraper reads out of the parsed API responses.
 * A field of a response object is either missing (`undefined`), JSON `null`,
 * or a value that the program only ever turns into text.  Numbers such as the
 * rating are kept as text here: their number formatting is not modelled.
 */
module JsValues {

  datatype Option<T> = None | Some(value: T)

  /** A possibly missing textual field of a response object. */
  datatype JsValue = Undefined | Null | Text(s: string)

  /** `v == undefined` with JavaScript's loose equality: true for both undefined and null. */
  predicate LooselyUndefined(v: JsValue)
  {
    v.Undefined? || v.Null?
  }

  /** What `"" + v` yields in JavaScript string concatenation. */
  function ToJsString(v: JsValue): string
  {
    match v
    case Undefined => "undefined"
    case Null => "null"
    case Text(s) => s
  }
}
