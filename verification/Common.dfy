/** What several modules need: an optional value, and the choice of some element of a set, in
    place of the order in which the original happens to iterate. */
module Common {
  datatype Option<+T> = None | Some(value: T)

  method PickOne<T(==)>(s: set<T>) returns (x: T)
    requires s != {}
    ensures x in s
  {
    x :| x in s;
  }
}
