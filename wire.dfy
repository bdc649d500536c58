/** Fixed-width integers of the firmware, the message identifiers of the
    Nordic UART Service (NUS) protocol, and the two byte orders it uses:
    inbound fields are big-endian, outbound packets are raw C structs laid
    out little-endian by the nRF52840. */
module Wire {

  type u8 = x: int | 0 <= x < 0x100
  type u16 = x: int | 0 <= x < 0x1_0000
  type u32 = x: int | 0 <= x < 0x1_0000_0000
  type i16 = x: int | -0x8000 <= x < 0x8000
  type i32 = x: int | -0x8000_0000 <= x < 0x8000_0000

  datatype Option<T> = None | Some(value: T)

  // Message identifiers. Their numeric values are not part of the modelled
  // files, so these are placeholder values. The lemmas refer to them by
  // name and rely only on the identifiers being distinct.
  const MsgLedCtrl: u16 := 1
  const MsgGetBattAdc: u16 := 2
  const MsgSetPwmLedWidth: u16 := 3
  const MsgSetPrdTick: u16 := 4
  const MsgSetRtc: u16 := 5
  const MsgGetRtc: u16 := 6
  const MsgNotifyImu: u16 := 16
  const MsgNotifyRtc: u16 := 17

  /** `hi << 8 | lo`: a big-endian 16-bit field. The high byte is its
      quotient by 256 and the low byte the remainder. */
  function Be16(hi: u8, lo: u8): (r: u16)
    ensures r / 0x100 == hi && r % 0x100 == lo
  {
    hi * 0x100 + lo
  }

  /** `b0 << 24 | b1 << 16 | b2 << 8 | b3`: a big-endian 32-bit field,
      whose upper half is the field of its first two bytes and whose lower
      half that of its last two. */
  function Be32(b0: u8, b1: u8, b2: u8, b3: u8): (r: u32)
    ensures r / 0x1_0000 == Be16(b0, b1) && r % 0x1_0000 == Be16(b2, b3)
  {
    var hi := Be16(b0, b1);
    var lo := Be16(b2, b3);
    hi * 0x1_0000 + lo
  }

  /** The two bytes of a 16-bit struct member in memory (little-endian):
      the low byte first, and together they weigh `x`. */
  function Le16(x: u16): (b: seq<u8>)
    ensures |b| == 2 && b[0] as int + 0x100 * (b[1] as int) == x
  {
    [x % 0x100, x / 0x100]
  }

  /** Reads back a little-endian 16-bit member. */
  function FromLe16(lo: u8, hi: u8): u16
  {
    hi * 0x100 + lo
  }

  /** Two's-complement bit pattern of a signed 16-bit value. */
  function BitsOfI16(x: i16): u16
  {
    if x < 0 then x + 0x1_0000 else x
  }

  /** The signed value of a 16-bit pattern. */
  function I16OfBits(u: u16): i16
  {
    if u < 0x8000 then u else u - 0x1_0000
  }

  /** The in-memory bytes of a signed 16-bit struct member: the
      little-endian bytes of its two's-complement pattern, so a negative
      value weighs `x + 2^16`. */
  function LeI16(x: i16): (b: seq<u8>)
    ensures |b| == 2
    ensures b[0] as int + 0x100 * (b[1] as int) == if x < 0 then x + 0x1_0000 else x
  {
    Le16(BitsOfI16(x))
  }

  lemma Le16RoundTrip(x: u16)
    ensures FromLe16(Le16(x)[0], Le16(x)[1]) == x
  {
  }

  lemma LeI16RoundTrip(x: i16)
    ensures I16OfBits(FromLe16(LeI16(x)[0], LeI16(x)[1])) == x
  {
    Le16RoundTrip(BitsOfI16(x));
  }

  lemma Be32Digits(b0: u8, b1: u8, b2: u8, b3: u8)
    ensures Be32(b0, b1, b2, b3) == b0 * 0x100_0000 + b1 * 0x1_0000 + b2 * 0x100 + b3
    ensures Be32(b0, b1, b2, b3) / 0x100_0000 == b0
    ensures Be32(b0, b1, b2, b3) % 0x100 == b3
  {
  }
}
