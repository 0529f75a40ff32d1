/** Small types shared by the models. */
module Basics {

  /** A value that may be absent: Go's zero time, a nil error, a missing row. */
  datatype Option<+T> = None | Some(value: T)

  /** A store call either takes effect or fails without effect. */
  datatype Reply = Done | Failed

  /** Some element of a non-empty set: the next key of a map iteration, whose order is not fixed. */
  method Pick<T>(s: set<T>) returns (x: T)
    requires s != {}
    ensures x in s
  {
    x :| x in s;
  }
}
