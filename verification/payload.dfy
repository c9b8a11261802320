/**
 The message envelope handled by the hold-back queue, and the configuration
 constants it uses. Only the fields the hold-back queue reads are modelled:
 the type tag, the 32-bit order, and the user name and text handed to the
 user pipe.
 */
module Payloads {

  /** The signed 32-bit range of a payload's order. */
  newtype Int32 = x: int | -0x8000_0000 <= x < 0x8000_0000

  const Int32Max: int := 0x7FFF_FFFF

  /** Order given to the first chat message of a group (DEFAULT_FIRST_ORDER). */
  const DefaultFirstOrder: int := 0

  /** The payload type tag. Only the chat tag is inspected by the hold-back queue. */
  datatype PayloadType = ChatMsg | StatusMsg | ElectionMsg | RecoverMsg

  datatype Payload = Payload(kind: PayloadType, order: Int32, username: string, message: string)

  predicate IsChat(p: Payload) {
    p.kind == ChatMsg
  }
}
