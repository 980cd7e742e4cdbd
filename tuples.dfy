/** The immutable pair used for ball positions (src/simulation/Tuple.java). */
module Tuples {

  /** A pair of two values of one type. Both are fixed when the value is built:
      a datatype value cannot be changed afterwards. */
  datatype Tuple<T> = Tuple(x: T, y: T) {

    /** The first value. */
    function GetX(): T { x }

    /** The second value. */
    function GetY(): T { y }
  }

  /** The accessors give back exactly what the constructor was given, and a
      pair is rebuilt from its accessors. */
  lemma TupleAccessors<T>(a: T, b: T, t: Tuple<T>)
    ensures Tuple(a, b).GetX() == a && Tuple(a, b).GetY() == b
    ensures Tuple(t.GetX(), t.GetY()) == t
  {
  }
}
