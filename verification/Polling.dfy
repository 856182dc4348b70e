/** How often the approval gate's probes and driver ask before they give up. */
module Polling {
  const SETTLE_ATTEMPTS := 15
}
