/** Request parameters as the handlers see them: a query, path or body
    parameter is either absent (`undefined`) or a string. */
module JsValues {

  /** `None` stands for an absent value (`undefined`) or, for numbers, NaN. */
  datatype Option<+T> = None | Some(value: T) {

    /** The value, or `default` when absent. */
    function GetOr(default: T): T {
      match this
      case Some(v) => v
      case None => default
    }
  }

  /** JavaScript truthiness of an optional string: present and non-empty. */
  predicate Truthy(p: Option<string>) {
    p.Some? && |p.value| > 0
  }

  /** ToString of a parameter as a built-in parser sees it: an absent
      parameter becomes the text "undefined". */
  function ToJsString(p: Option<string>): string {
    match p
    case Some(s) => s
    case None => "undefined"
  }
}
