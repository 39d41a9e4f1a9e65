/** Result types shared by the modules. */
module Basics {

  datatype Option<+T> = None | Some(v: T)

  /** What a piece of kernel code does: it goes on, or an `ASSERT` or `PANIC` stops the machine. */
  datatype Outcome<+S> = Go(s: S) | Panic {

    predicate IsFailure() {
      Panic?
    }

    function PropagateFailure<U>(): Outcome<U>
      requires Panic?
    {
      Panic
    }

    function Extract(): S
      requires Go?
    {
      s
    }
  }
}
