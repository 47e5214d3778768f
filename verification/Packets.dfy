/** The media packet: the header fields the receive path looks at, and its valid payload. */
module Packets {
  import opened Words

  // Bit 0 of the flags byte is the frame marker.
  const MARKER_FLAG: Byte := 1
  const MAX_VIDEO_CHUNK := 1200

  datatype Packet = Packet(ssrc: U32, timestamp: U32, sequence: U16, payloadType: Byte, flags: Byte, payload: seq<Byte>)
  {
    predicate HasMarker() { flags % 2 == 1 }
  }

  /** A stamped stream: packet x carries the low sixteen bits of x. */
  ghost predicate Stamped(stream: seq<Packet>)
  {
    forall x :: 0 <= x < |stream| ==> stream[x].sequence == Low16(x)
  }
}
