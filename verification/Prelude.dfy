/** Shared vocabulary: identifiers, and the two sum types that stand for an absent value
    and for an error return. */
module Prelude {

  datatype Option<+T> = None | Some(value: T)

  datatype Result<+T, +E> = Ok(value: T) | Err(error: E)

  type UserId = nat

  // UUIDs compare bytewise in SQL; any total order will do, so tribes are numbered.
  type TribeId = nat
  type DerbyId = nat

  // Random UUIDs, of which only equality and order matter.
  type LogId = nat
  type SupportId = nat

  // Province codes ("01".."81"), kept as text because the code normalises them.
  type IlCode = string

  // SELECT ... LIMIT 1: where the first row with a property is.
  function First<T>(rows: seq<T>, f: T -> bool): (r: Option<nat>)
    ensures r.Some? ==> r.value < |rows| && f(rows[r.value]) && forall i :: 0 <= i < r.value ==> !f(rows[i])
    ensures r.None? ==> forall i :: 0 <= i < |rows| ==> !f(rows[i])
  {
    if rows == [] then None
    else if f(rows[0]) then Some(0)
    else match First(rows[1..], f)
      case Some(k) =>
        assert forall i :: 1 <= i < |rows| ==> rows[i] == rows[1..][i - 1];
        Some(k + 1)
      case None =>
        assert forall i :: 1 <= i < |rows| ==> rows[i] == rows[1..][i - 1];
        None
  }
}
