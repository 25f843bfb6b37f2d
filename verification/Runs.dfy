/** Runs of a state machine. */
module Runs {
  /** A run, latest step last. */
  datatype Trace<S, A> = Start(init: S) | Then(past: Trace<S, A>, a: A)

  function Origin<S, A>(tr: Trace<S, A>): S {
    if tr.Start? then tr.init else Origin(tr.past)
  }
}
