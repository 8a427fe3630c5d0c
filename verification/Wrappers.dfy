/** The optional value that stands for the pointers and (value, found) pairs of the source. */
module Wrappers {
  datatype Option<+T> = None | Some(value: T)

  /** A write to the API server: applied; applied with its reply lost; or rejected (conflict, not found, outage). */
  datatype Write = Applied | Lost | Rejected

  /** The storage of a variable of type string whose address is taken. */
  class StringCell {
    var text: string

    constructor (s: string)
      ensures text == s
    {
      text := s;
    }
  }
}
