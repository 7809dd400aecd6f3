/** The optional-value datatype that Rust's `Option` stands for throughout the model. */
module Options {

  datatype Option<+T> = None | Some(value: T) {

    /** `unwrap_or`: the wrapped value, or `default` when there is none. */
    function UnwrapOr(default: T): T {
      match this
      case Some(v) => v
      case None => default
    }

    /** `into_iter().collect()`: the zero- or one-element sequence of the wrapped value. */
    function ToSeq(): (s: seq<T>)
      ensures |s| <= 1
      ensures |s| == 1 <==> Some?
      ensures Some? ==> s[0] == value
    {
      match this
      case Some(v) => [v]
      case None => []
    }
  }
}
