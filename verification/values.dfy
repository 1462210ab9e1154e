/** JavaScript-flavoured value helpers shared by the whole model.

    A field that the scheduled job reads from JSON or from the environment
    may be absent (`undefined`/`null`); that is `None` here. JavaScript's
    truthiness of such a string field is `Truthy`.
 */
module Values {

  /** A possibly absent value: `None` stands for `undefined` or `null`. */
  datatype Option<+T> = None | Some(value: T) {

    /** The value, or `default` when absent (the source's `x || default`). */
    function GetOr(default: T): T {
      match this
      case Some(v) => v
      case None => default
    }
  }

  /** JavaScript truthiness of an optional string: present and not "". */
  predicate Truthy(s: Option<string>) {
    s.Some? && s.value != ""
  }
}
