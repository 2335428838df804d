/** The optional value returned by the side classifier (Python's implicit `None`). */
module Wrappers {
  datatype Option<+T> = None | Some(value: T)
}
