/** Names shared by the fiber, scheduler and event models. */
module Fibers {

  datatype Option<+T> = None | Some(value: T)

  /** Fiber::State::Type. */
  datatype State = Unknow | Uninit | Init | Hold | Exec | Term | Ready | Except

  /** A fiber in one of these states has run its body to the end. */
  predicate Terminal(s: State) {
    s.Term? || s.Except?
  }

  /** The name of one unit of work. A fiber the scheduler makes for a submitted
      callback keeps the name of that callback. */
  type Task = nat

  /** A thread id; 0 means "not pinned". */
  type Thread = nat

  /** The ways in which the code running on a fiber gives up control. */
  datatype Stop =
    | YieldReady   // Fiber::YieldToReady
    | YieldHold    // Fiber::YieldToHold
    | SwapOutOnly  // a bare swapOut, the state stays EXEC
    | Return       // the body returned
    | Throw        // the body threw

  /** The fiber state after giving up control in the given way. */
  function StateAfter(how: Stop): State {
    match how
    case YieldReady => Ready
    case YieldHold => Hold
    case SwapOutOnly => Exec
    case Return => Term
    case Throw => Except
  }
}
