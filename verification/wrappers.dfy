/**
 * Optional values. The C# sources use `null` for "no value" (a missing JSON
 * field, an absent error text, an unset alternatives array, a rejected audio
 * chunk); the model spells that out as `Option`.
 */
module Wrappers {

  datatype Option<+T> = None | Some(value: T) {

    /** The wrapped value, or `default` when there is none. */
    function GetOr(default: T): (r: T)
      ensures Some? ==> r == value
      ensures None? ==> r == default
    {
      match this
      case Some(v) => v
      case None => default
    }
  }
}
