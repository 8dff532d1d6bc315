/** Optional values: `None` stands for a C# `null` reference. */
module Wrappers {

  datatype Option<+T> = None | Some(value: T) {

    /** The value, or `default` when there is none (C#'s `x ?? default`). */
    function GetOr(default: T): T
    {
      match this
      case Some(v) => v
      case None => default
    }
  }

  /** How C# renders a possibly-null string inside a concatenation or an
      interpolation: `null` contributes nothing. */
  function OrEmpty(s: Option<string>): string
  {
    s.GetOr("")
  }
}
