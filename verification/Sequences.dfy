/** Sequences as the sets of their elements. */
module Sequences {

  function Elements<T>(xs: seq<T>): set<T> {
    set x | x in xs
  }
}
