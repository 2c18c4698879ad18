// The two special timeouts of the calls that may block.

module Waits {
  const LOS_NO_WAIT: nat := 0
  const LOS_WAIT_FOREVER: nat := 0xFFFF_FFFF
}
