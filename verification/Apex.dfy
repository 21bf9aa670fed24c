/** Types and constants that the services share. */
module Apex {

  datatype Option<+T> = None | Some(value: T)

  datatype ReturnCode = NoError | NoAction | NotAvailable | InvalidParam | InvalidConfig | InvalidMode | TimedOut

  /** Durations are nanoseconds; the infinite one is a special value. */
  const NANO: int := 1_000_000_000
  const MAX_TIME_OUT: int := 315_569_260 * NANO
  const INFINITE_TIME_VALUE: int := -1

  /** The time that a duration stands for: an infinite one is the longest that can be waited. */
  function Duration(nanoseconds: int): int {
    if nanoseconds == INFINITE_TIME_VALUE then MAX_TIME_OUT else nanoseconds
  }

  /** The counter of a semaphore after `post()`, which is refused when the counter is at its maximum. */
  function Post(counter: nat, maximum: nat): nat {
    if counter >= maximum then counter else counter + 1
  }
}
