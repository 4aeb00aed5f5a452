/** TypeScript's optional values (`T | undefined`, `T | null`), as a datatype. */
module Wrappers {

  /** `None` stands for `undefined` or `null`; `Some(v)` for a present value. */
  datatype Option<+T> = None | Some(value: T) {

    /** `x ?? fallback`: the held value, or `fallback` when there is none. */
    function GetOr(fallback: T): T {
      if Some? then value else fallback
    }
  }
}
