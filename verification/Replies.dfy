/** How a call to something outside the daemon can turn out. */
module Replies {
  /** A call that reports an error may have had its effect all the same. */
  datatype Reply = Done | Failed(happened: bool) {
    predicate Happened()
    {
      Done? || happened
    }
  }
}
