/**
  The parts of the WebRTC data channel that a data consumer observes: the
  channel's ready state and the buffers it delivers. The channel itself is a
  foreign object; only these values cross into the model.
 */
module DataChannel {

  /** An octet of a received payload. */
  newtype byte = x: int | 0 <= x < 0x100

  /** The unsigned 64-bit size reported by a buffered-amount change. */
  newtype uint64 = x: int | 0 <= x < 0x1_0000_0000_0000_0000

  /** The channel's ready state. `Other` stands for any value of the channel's
      state enumeration outside the four named ones. */
  datatype DataState = Connecting | Open | Closing | Closed | Other

  /** A buffer received on the channel: its payload and whether it is binary
      (as opposed to UTF-8 text). */
  datatype DataBuffer = DataBuffer(data: seq<byte>, binary: bool)
}
