/** The optional value and the error return of the modelled program, and a fact about sets. */
module Wrappers {

  datatype Option<+T> = None | Some(value: T)
  {
    function GetOr(default: T): T {
      match this
      case Some(v) => v
      case None => default
    }

    function Or<U>(other: Option<T>): Option<T> {
      if Some? then this else other
    }
  }

  datatype Result<+T> = Ok(value: T) | Err(error: string)

  lemma {:induction false} SubsetIsNoLarger<T>(a: set<T>, b: set<T>)
    requires a <= b
    ensures |a| <= |b|
  {
    if a != {} {
      var x :| x in a;
      SubsetIsNoLarger(a - {x}, b - {x});
    }
  }
}
