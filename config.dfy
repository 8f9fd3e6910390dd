/** Machine types and the constants of the controller's header.
    The header itself is not part of this model: its constants are left
    abstract, and their types carry the only facts the controller relies on. */
module Config {

  type uint8 = x: int | 0 <= x < 0x100
  type uint16 = x: int | 0 <= x < 0x1_0000

  /** Number of control channels. `reset` counts up to it with a uint8 loop
      variable, and `begin` stores it in the uint8 `channel_num`, so it is at most 255. */
  type ChannelCount = n: int | 1 <= n <= 255 witness 1
  const CH_MAX_CONTROL: ChannelCount

  /** A slot of the channel bank. */
  type ChannelIndex = ch: nat | ch < CH_MAX_CONTROL witness 0
  const CH_THROTTLE: ChannelIndex

  /** Pulse-width values: lowest, neutral, and the threshold above which a
      slot holds a command rather than an analogue value. */
  const PPM_MIN: uint16
  const PPM_MID: uint16
  const PPM_MAX_COMMAND: uint16

  /** Number of protocols; the selector is persisted in one byte. */
  type ProtocolCount = n: int | 1 <= n <= 0x100 witness 1
  const PROTO_END: ProtocolCount

  /** A member of the protocol enumeration `{0 .. PROTO_END - 1}`. */
  type Protocol = p: nat | p < PROTO_END witness 0

  /** Persistent-store addresses: the four identity bytes start at EE_TXID0,
      and the protocol byte lies outside them. */
  const EE_TXID0: nat
  type ProtocolAddress = a: nat | a < EE_TXID0 || EE_TXID0 + 4 <= a witness EE_TXID0 + 4
  const EE_PROTOCOL_ID: ProtocolAddress

  /** Arduino's `constrain(x, lo, hi)`. */
  function Constrain(x: int, lo: int, hi: int): (r: int)
    requires lo <= hi
    ensures lo <= r <= hi
    ensures lo <= x <= hi ==> r == x
    ensures x < lo ==> r == lo
    ensures hi < x ==> r == hi
  {
    if x < lo then lo else if x > hi then hi else x
  }

  function Min(a: int, b: int): int { if a <= b then a else b }
}
