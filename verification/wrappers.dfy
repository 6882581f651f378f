/** Failure-compatible optional value, used for the image references the
    controller holds as implicitly unwrapped optionals (`NSImage!`). */
module Wrappers {

  /** An image reference that may be nil. */
  datatype Option<+T> = None | Some(value: T) {

    /** The contents as a sequence of zero or one elements, in drawing order. */
    function ToSeq(): (r: seq<T>)
      ensures |r| <= 1
      ensures Some? <==> |r| == 1
      ensures Some? ==> r[0] == value
    {
      match this
      case None => []
      case Some(v) => [v]
    }
  }
}
