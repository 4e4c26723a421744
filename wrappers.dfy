/** The optional value used for a square that may hold no piece and for the
    optional en-passant target: the Java code uses `null` for both. */
module Wrappers {
  datatype Option<+T> = None | Some(value: T)
}
