/** The bounds of the session socket's frames. */
module Frames {

  /** What one frame to the browser may take. */
  const MAX_OUTBOUND_BYTES: nat := 1024 * 1024
  /** The bytes that may wait to be written before the socket is closed. */
  const MAX_QUEUED_BYTES: nat := 1024 * 1024
  const MAX_IN_FLIGHT: nat := 16
  const MAX_SUBSCRIPTIONS: nat := 64
}
