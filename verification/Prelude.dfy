/** Small shared datatypes. */
module Prelude {
  datatype Option<+T> = None | Some(value: T)

  datatype Result<+T, +E> = Ok(value: T) | Err(error: E)

  // A number above all of a set: a new id.
  ghost function Above(ids: set<nat>): (n: nat)
    ensures forall i | i in ids :: i < n
    decreases ids
  {
    if ids == {} then 0
    else
      var i :| i in ids;
      var n := Above(ids - {i});
      assert forall j | j in ids :: j == i || j in ids - {i};
      if i < n then n else i + 1
  }
}
