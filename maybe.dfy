/** Two small wrappers used throughout the model.

    `Option` is a Python value that may be `None`; `Entry` is a key of a
    `TypedDict(total=False)` that may be missing from the dictionary. The
    agent's code treats the two alike in places (`state.get(k) or ""`), but
    they are different things: the state may hold a key whose value is `None`.
 */
module Maybe {

  /** A value of type `Optional[T]`: `None` or a real value. */
  datatype Option<+T> = None | Some(value: T) {
    /** Python's `x or default` for a value whose only falsy case is `None`
        (or a falsy value equal to `default`). */
    function GetOr(default: T): T {
      match this
      case Some(v) => v
      case None => default
    }
  }

  /** A key of the state dictionary: missing, or present with a value. */
  datatype Entry<+T> = Absent | Present(value: T) {
    /** `d.get(k, default)`. */
    function GetOr(default: T): T {
      match this
      case Present(v) => v
      case Absent => default
    }
  }
}
