/** Failure-compatible result types shared by the whole model.
    Every Java exception the modelled code can raise becomes an `Err` carrying
    the kind of exception; `Outcome` is used where the Java method returns
    `this` (chaining) or nothing. */
module Wrappers {

  datatype Option<T> = None | Some(value: T)

  /** The Java exception classes that the modelled code raises. */
  datatype Error =
    | IllegalArgument        // IllegalArgumentException, Assert.isTrue / hasText, NumberFormatException
    | IllegalState           // IllegalStateException (builder session protocol)
    | NullPointer            // NullPointerException (unboxing a missing map entry, null node result)
    | IndexOutOfBounds       // ArrayIndexOutOfBounds / IndexOutOfBounds
    | UnsupportedOperation   // UnsupportedOperationException (assignment on a foreign node)
    | DataAccess             // failure of the row source (JDBC)
    | Runtime                // RuntimeException (a node of the cluster failed)

  datatype Result<T> = Ok(value: T) | Err(error: Error) {

    predicate IsFailure() {
      Err?
    }

    function PropagateFailure<U>(): Result<U>
      requires Err?
    {
      Err(error)
    }

    function Extract(): T
      requires Ok?
    {
      value
    }
  }

  datatype Outcome = Pass | Fail(error: Error) {

    predicate IsFailure() {
      Fail?
    }

    function PropagateFailure(): Outcome
      requires Fail?
    {
      this
    }
  }

  /** A non-empty set has an element to pick: the step that lets a loop
      over a key set choose its next key with `:|`. */
  lemma NonEmpty<T>(s: set<T>)
    requires s != {}
    ensures exists k :: k in s
  {
    assert (forall k :: k !in s) ==> s == {};
  }

  /** Some element of a non-empty set: the next key of a loop over a key
      set whose iteration order is left open. */
  method Choose<T>(s: set<T>) returns (x: T)
    requires s != {}
    ensures x in s
  {
    NonEmpty(s);
    x :| x in s;
  }
}
