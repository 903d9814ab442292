/** Constants of the Wii SD driver and the few word computations it makes. The
    driver's `u32` and `s32` values are integers in their ranges here; each bit
    operation of the driver is written out as the arithmetic it amounts to.
    Register offsets follow section 2.2 of the SD Host Controller Simplified
    Specification; command numbers follow the SD Physical Layer Simplified
    Specification. */
module SdioBits {
  import opened Ipc

  const PageSize512: U32 := 512

  // Host-controller registers
  const HcrHostControl: U32 := 0x28
  const HcrSoftwareReset: U32 := 0x2f
  /** Data Transfer Width bit of the Host Control register: 4-bit mode. */
  const HostControl4Bit: U32 := 0x02

  // Command classes and response classes
  const CmdTypeAc: U32 := 3
  const ResponseR1: U32 := 1
  const ResponseR1b: U32 := 2

  // Card commands
  const CmdSelect: U32 := 0x07
  const CmdDeselect: U32 := 0x07
  const CmdSetBlockLen: U32 := 0x10
  const CmdReadMultiBlock: U32 := 0x12
  const CmdWriteMultiBlock: U32 := 0x19
  const CmdAppCmd: U32 := 0x37
  const AcmdSetBusWidth: U32 := 0x06

  // Single-bit masks of the status word
  const StatusCardInserted: U32 := 0x000001
  const StatusCardInitialized: U32 := 0x010000
  const StatusCardSdhc: U32 := 0x100000

  const Sd0Path: string := "/dev/sdio/slot0"

  const TwoTo31: int := 0x8000_0000
  const TwoTo32: int := 0x1_0000_0000

  /** A `u32` result of arithmetic that may overflow: the value modulo 2^32. */
  function Wrap(x: int): U32 {
    x % TwoTo32
  }

  /** An `s32` stored into a `u32`: its two's complement bits. The top bit of the
      word is set exactly when the number is negative. */
  function ToU32(x: Int32): (w: U32)
    ensures w == x % TwoTo32
    ensures w < TwoTo31 <==> x >= 0
  {
    if x >= 0 then x else x + TwoTo32
  }

  /** A `u32` returned as an `s32`: the same bits read as two's complement. */
  function ToS32(w: U32): (x: Int32)
    ensures x % TwoTo32 == w
    ensures x < 0 <==> w >= TwoTo31
  {
    if w < TwoTo31 then w else w - TwoTo32
  }

  /** Reading the bits of a signed number back as signed gives the number. */
  lemma SignedRoundTrip(x: Int32)
    ensures ToS32(ToU32(x)) == x
  {
  }

  /** Reading the bits of a word as signed and storing them back gives the word. */
  lemma UnsignedRoundTrip(w: U32)
    ensures ToU32(ToS32(w)) == w
  {
  }

  /** `(w & mask) == mask` for a single-bit mask: the bit is set in `w`. */
  predicate HasBit(w: U32, mask: U32)
    requires mask > 0
  {
    (w / mask) % 2 == 1
  }

  /** `a & b`, bit by bit from the least significant end. */
  function And(a: nat, b: nat): (r: nat)
    ensures r <= a && r <= b
    decreases a
  {
    if a == 0 || b == 0 then 0
    else 2 * And(a / 2, b / 2) + (if a % 2 == 1 && b % 2 == 1 then 1 else 0)
  }

  /** `(u16)(w >> 16)`: the relative card address in the upper half of the word
      the reset call leaves behind. */
  function CardAddress(w: U32): U16 {
    w / 0x1_0000
  }

  /** `w & 0xffff`: the status the reset call reports, in the lower half. */
  function ResetCode(w: U32): U16 {
    w % 0x1_0000
  }

  /** The card address and the reported status are the two halves of the reset
      word: together they are the whole word. */
  lemma ResetWordSplit(w: U32)
    ensures CardAddress(w) * 0x1_0000 + ResetCode(w) == w
  {
  }

  /** `rca << 16` as a command argument: the card address in the upper half of
      the word and zero in the lower half (the stuff bits of CMD7 and CMD55). */
  function AddressArgument(rca: U16): (arg: U32)
    ensures CardAddress(arg) == rca && ResetCode(arg) == 0
  {
    rca * 0x1_0000
  }

  /** The Host Control byte with the Data Transfer Width bit set for a 4-bit bus
      and cleared otherwise (`&= 0xff`, `&= ~0x02`, `|= 0x02`): the other seven
      bits of the low byte are kept and nothing above the low byte is written. */
  function HostControl(current: U32, busWidth: U32): (hc: U32)
    ensures hc < 0x100
    ensures hc % 2 == current % 2 && hc / 4 == (current % 0x100) / 4
    ensures HasBit(hc, HostControl4Bit) <==> busWidth == 4
  {
    var low := current % 0x100;
    var width := if busWidth == 4 then HostControl4Bit else 0;
    assert current % 2 == low % 2 by {
      assert current == 0x100 * (current / 0x100) + low;
    }
    4 * (low / 4) + width + low % 2
  }

  /** The argument of ACMD6: the two-bit bus width code, 10b for a 4-bit bus and
      00b for a 1-bit bus (section 4.7.4 of the SD Physical Layer Simplified
      Specification). */
  function BusWidthCode(busWidth: U32): (code: U16)
    ensures code == 0 || code == 2
    ensures code == 2 <==> busWidth == 4
  {
    if busWidth == 4 then 0x0002 else 0x0000
  }

  /** The argument a transfer command carries: the sector number shifted left by
      9 in 32 bits (a byte address) for a standard-capacity card, the sector
      number itself for a high-capacity card. The shift drops the top 9 bits of
      the sector number; the byte address is block aligned, and it is exact for
      every sector below 4 GiB. */
  function SectorArgument(sector: U32, sdhc: int): (arg: U32)
    ensures sdhc == 0 ==> arg == (sector % 0x80_0000) * 512
    ensures sdhc == 0 ==> arg % 512 == 0
    ensures sdhc == 0 && sector < 0x80_0000 ==> arg == sector * 512
    ensures sdhc != 0 ==> arg == sector
  {
    if sdhc == 0 then Wrap(sector * 512) else sector
  }

  /** `(u32)buffer & 0x1F`: the buffer does not start on a 32-byte boundary. */
  predicate Misaligned(buffer: Addr) {
    buffer % 32 != 0
  }

  /** The condition `__sdio_waithcr` waits for: the masked bits all clear when
      `unset` is non-zero, not all clear otherwise. */
  predicate Reached(val: U32, unset: U32, mask: U32) {
    (unset != 0 && And(val, mask) == 0) || (unset == 0 && And(val, mask) != 0)
  }
}
