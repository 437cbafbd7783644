/** Layout of a buffer of the pool: space for headers, then the payload. */
module Buffers {
  const HEADROOM: nat := 256
  /** Payload space; for a TCP flow, its ring. */
  const FRAME: nat := 262144
  const BUF_SIZE: nat := 262400 // HEADROOM + FRAME
}
