module Outcomes {
  datatype Option<+T> = None | Some(value: T)

  /** A call that returns, or raises an exception to its caller. */
  datatype Result<+T> = Ok(value: T) | Raised

  /** An id nobody uses yet. */
  method NewId(ids: set<nat>) returns (id: nat)
    ensures id !in ids
  {
    id := 0;
    var rest := ids;
    while rest != {}
      invariant rest <= ids
      invariant forall y :: y in ids && y !in rest ==> y < id
      decreases rest
    {
      var x :| x in rest;
      if x >= id {
        id := x + 1;
      }
      rest := rest - {x};
    }
  }

  lemma Unused(ids: set<nat>) returns (id: nat)
    ensures id !in ids && forall x :: x in ids ==> x < id
  {
    if ids == {} {
      id := 0;
    } else {
      var x :| x in ids;
      var above := Unused(ids - {x});
      id := if x >= above then x + 1 else above;
      assert forall y :: y in ids ==> y == x || y in ids - {x};
    }
  }
}
