/** An optional value: what the script gets back when it reads a property
    that may be absent (`undefined` in JavaScript).  The three members below
    let `:-` stop a chain of such reads at the first absent one. */
module Wrappers {

  datatype Option<+T> = None | Some(value: T) {

    predicate IsFailure() {
      None?
    }

    function PropagateFailure<U>(): Option<U>
      requires None?
    {
      None
    }

    function Extract(): T
      requires Some?
    {
      value
    }
  }
}
