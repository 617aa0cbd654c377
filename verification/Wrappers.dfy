/** Optional values and the integer widths the networking code is written in. */
module Wrappers {

  datatype Option<+T> = None | Some(value: T)
}

/** Widths and constants of `network_types.h` and `kb_network_types.h`. */
module NetworkTypes {

  type Byte = b: nat | b < 0x100

  /** `packet_type_t`, a u32. */
  type PacketType = n: nat | n < 0x1_0000_0000

  /** `kb_connection_t`, a u32 handle; zero is `KB_CONNECTION_INVALID`. */
  type Connection = n: nat | n < 0x1_0000_0000

  const INVALID_CONNECTION: Connection := 0

  /** `internal_packet_id_t::unknown`. */
  const UNKNOWN_PACKET: PacketType := 0

  // `serialization_type_t`; a received byte may hold any other value as well.
  const SERDE_BIN: Byte := 0
  const SERDE_MSGPACK: Byte := 1
}
