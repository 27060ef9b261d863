/**
 * JavaScript values as the route handlers see them in `req.body`,
 * `req.query` and `req.params`.
 */
module Js {
  import opened Wrappers

  /**
   * A request field: absent (`undefined` or `null`) or a string. Multipart
   * form fields are always strings; a JSON number is represented by its
   * decimal text.
   */
  type Field = Option<string>

  /** JavaScript truthiness of a request field: a string is truthy exactly when it is not empty. */
  predicate Truthy(f: Field) {
    f.Some? && f.value != ""
  }

  /** A JSON or form value whose JavaScript type matters to a handler. */
  datatype JsValue = Undefined | Null | Bool(b: bool) | Num(n: int) | Str(s: string)
}
