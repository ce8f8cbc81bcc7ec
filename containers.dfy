/** Growable vectors the core appends to through a reference (std::vector, SmallVector). */
module Containers {

  class Vector<T> {
    /** The elements, in order. */
    var elems: seq<T>

    constructor ()
      ensures elems == []
    {
      elems := [];
    }

    /** push_back: appends one element and changes nothing else. */
    method PushBack(x: T)
      modifies this
      ensures elems == old(elems) + [x]
    {
      elems := elems + [x];
    }
  }
}
