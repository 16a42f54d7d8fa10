/** The error numbers that the models tell apart. */
module Errno {

  /** Try again. */
  const EAGAIN: nat := 11
}
