/** The layout of the EEPROM image of an FTDI chip, as ftdi.c reads and writes it. */
module EepromLayout {
  import opened Bits
  import opened Checksum
  import opened Division
  import opened Octets

  datatype ChipType = TypeAM | TypeBM | Type2232C | TypeR | Type2232H | Type4232H | Type232H | Type230X

  /** The drive strength, Schmitt trigger and slew rate of a group of pins. */
  datatype Group = Group(drive: int, schmitt: int, slew: int)

  datatype Settings = Settings(
    vendorId: int, productId: int, releaseNumber: int, selfPowered: int, remoteWakeup: int, maxPower: int,
    inIsIsochronous: int, outIsIsochronous: int, suspendPullDowns: int, useSerial: int,
    usbVersion: int, useUsbVersion: int, isNotPnp: int, suspendDbus7: int,
    manufacturer: Option<seq<byte>>, product: Option<seq<byte>>, serial: Option<seq<byte>>,
    channelAType: int, channelBType: int,
    channelADriver: int, channelBDriver: int, channelCDriver: int, channelDDriver: int,
    rs485A: int, rs485B: int, rs485C: int, rs485D: int,
    cbusFunction: seq<int>, highCurrent: int, highCurrentA: int, highCurrentB: int, invert: int,
    group0: Group, group1: Group, group2: Group, group3: Group,
    powersave: int, clockPolarity: int, dataOrder: int, flowControl: int, chip: int)

  const DRIVER_VCP: byte := 0x08
  const DRIVER_VCPH: byte := 0x10
  const USE_SERIAL_NUM: byte := 0x08
  const USE_USB_VERSION_BIT: byte := 0x10
  const SUSPEND_DBUS7_BIT: byte := 0x80
  const HIGH_CURRENT_DRIVE: byte := 0x10
  const HIGH_CURRENT_DRIVE_R: byte := 0x04
  const POWER_SAVE_DISABLE_H: byte := 0x80
  const FT1284_CLK_IDLE_STATE: byte := 0x01
  const FT1284_DATA_LSB: byte := 0x02
  const FT1284_FLOW_CONTROL: byte := 0x04
  const DRIVE_16MA: byte := 3
  const SLOW_SLEW: byte := 4
  const IS_SCHMITT: byte := 8
  const CBUS_BB := 13
  const CBUS_CLK6 := 9
  const CBUSH_CLK7_5 := 12

  // Bytes

  /** Set or clear the bits of a mask. */
  function With(b: byte, mask: byte, on: bool): (r: byte)
    ensures r & mask == Only(mask, on) && r & !mask == b & !mask
  {
    if on then b | mask else b & !mask
  }

  function Int16(b: seq<byte>, at: nat): int
    requires at + 1 < |b|
  {
    Nat(b[at]) + 256 * Nat(b[at + 1])
  }

  /** What a flag reads as. */
  function Value(b: byte, mask: byte): int { Nat(b & mask) }

  lemma Id(n: int, b: seq<byte>, at: nat)
    requires at + 1 < |b| && b[at] == Byte(n) && b[at + 1] == Byte(n / 256)
    ensures Int16(b, at) == n % 65536
  {
    ByteValue(n);
    ByteValue(n / 256);
    hide Byte;
    TwoBytes(n);
  }

  lemma TwoBytes(n: int)
    ensures n % 256 + 256 * (n / 256 % 256) == n % 65536
  {
    var q, r := n / 256, n % 256;
    assert n == 65536 * (q / 256) + (256 * (q % 256) + r);
    DivUnique(n, 65536, q / 256, 256 * (q % 256) + r);
  }

  // Strings

  /** The part of a string that the builder sees: its length is kept in an unsigned char. */
  function Text(t: Option<seq<byte>>): (r: seq<byte>)
    ensures |r| < 256
  {
    if t.None? then [] else t.value[..|t.value| % 256]
  }

  /** How many characters the strings of a chip may have together. */
  function Room(chip: ChipType): nat {
    match chip
    case TypeAM | TypeBM => 48
    case Type2232C => 45
    case TypeR | Type230X => 44
    case Type2232H | Type4232H => 43
    case Type232H => 40
  }

  /** Where the strings start, as the offset that the image records. */
  function Start(chip: ChipType): (i: nat) {
    match chip
    case TypeAM | TypeBM => 0x94
    case Type2232C => 0x96
    case TypeR => 0x98
    case Type2232H | Type4232H => 0x9A
    case Type232H | Type230X => 0xA0
  }

  function UserAreaLeft(chip: ChipType, s: Settings): int {
    2 * (Room(chip) - |Text(s.manufacturer)| - |Text(s.product)| - |Text(s.serial)|)
  }

  /** The address behind an offset: offsets of a 128-byte memory have their top bit set. */
  function Address(i: int, size: nat): int
    requires size > 0
  {
    i % size
  }

  lemma HighAddress(i: int, size: nat)
    requires (size == 0x80 || size == 0x100) && 0x80 <= i < 0x100
    ensures Address(i, size) == i - (0x100 - size)
  {
  }

  /** An offset with its top bit set. */
  function HighBit(i: nat): nat { if i < 0x80 then i + 0x80 else i }

  /** Increment of an unsigned char. */
  function Next(i: nat): nat { if i == 0xFF then 0 else i + 1 }

  /** The characters of a string at address `at`, two bytes each. */
  ghost predicate Characters(b: seq<byte>, at: int, t: seq<byte>) {
    && 0 <= at && at + 2 * |t| <= |b|
    && forall j :: 0 <= j < |t| ==> b[at + 2 * j] == t[j] && b[at + 2 * j + 1] == 0
  }

  /** A USB string descriptor (section 9.6.7 of the USB 2.0 specification). */
  ghost predicate Descriptor(b: seq<byte>, at: int, t: seq<byte>) {
    && 0 <= at && Characters(b, at + 2, t)
    && b[at] == Byte(2 * |t| + 2) && b[at + 1] == 0x03
  }

  function Offset1(chip: ChipType, s: Settings): nat { Start(chip) + 2 + 2 * |Text(s.manufacturer)| }

  function Offset2(chip: ChipType, s: Settings): nat { Offset1(chip, s) + 2 + 2 * |Text(s.product)| }

  function Offset3(chip: ChipType, s: Settings): nat { Offset2(chip, s) + 2 + 2 * |Text(s.serial)| }

  /** The table at 0x0E with offset and length of the three strings. */
  ghost predicate StringTable(b: seq<byte>, chip: ChipType, s: Settings)
    requires |b| == 256
  {
    && b[0x0E] == Byte(Start(chip)) && b[0x0F] == Byte(2 * |Text(s.manufacturer)| + 2)
    && b[0x10] == Byte(Offset1(chip, s)) && b[0x11] == Byte(2 * |Text(s.product)| + 2)
    && b[0x12] == Byte(Offset2(chip, s)) && b[0x13] == Byte(2 * |Text(s.serial)| + 2)
  }

  ghost predicate StringsAt(b: seq<byte>, a0: int, a1: int, a2: int, t0: seq<byte>, t1: seq<byte>, t2: seq<byte>,
                            damaged: bool) {
    && 0 <= a0 && Characters(b, a0 + 2, t0) && b[a0 + 1] == 0x03
    && (!damaged ==> b[a0] == Byte(2 * |t0| + 2))
    && Descriptor(b, a1, t1) && Descriptor(b, a2, t2)
  }

  /** The strings themselves. `damaged` leaves open the length byte of the first descriptor. */
  ghost predicate StringArea(b: seq<byte>, chip: ChipType, s: Settings, size: nat, damaged: bool)
    requires Image(b, size)
  {
    && StringsAt(b, Address(Start(chip), size), Address(Offset1(chip, s), size), Address(Offset2(chip, s), size),
                 Text(s.manufacturer), Text(s.product), Text(s.serial), damaged)
    && Offset3(chip, s) <= 0xFE
  }

  // Settings

  ghost predicate Header(b: seq<byte>, s: Settings)
    requires |b| == 256
  {
    && b[0x02] == Byte(s.vendorId) && b[0x03] == Byte(s.vendorId / 256)
    && b[0x04] == Byte(s.productId) && b[0x05] == Byte(s.productId / 256)
    && b[0x06] == Byte(s.releaseNumber) && b[0x07] == Byte(s.releaseNumber / 256)
    && b[0x08] == 0x80 | Only(0x40, s.selfPowered != 0) | Only(0x20, s.remoteWakeup != 0)
    && b[0x09] == Byte(Half(s.maxPower))
  }

  /** Division by two as C does it. */
  function Half(n: int): int { if n >= 0 then n / 2 else -(-n / 2) }

  /** The flags that are used of byte 0x0A; the others read as zero. */
  predicate Flags(f: byte, s: Settings, iso: bool, serial: bool, pull: bool, usb: bool) {
    f == Only(0x01, iso && s.inIsIsochronous != 0) | Only(0x02, iso && s.outIsIsochronous != 0)
      | Only(0x04, pull && s.suspendPullDowns != 0) | Only(0x08, serial && s.useSerial != 0)
      | Only(0x10, usb && s.useUsbVersion == 0x10)
  }

  ghost predicate UsbVersion(b: seq<byte>, s: Settings)
    requires |b| == 256
  {
    b[0x0C] == Byte(s.usbVersion) && b[0x0D] == Byte(s.usbVersion / 256)
  }

  /** The code of the mode of a channel; only the FT232H has mode 8. */
  function Mode(mode: int, ft1284: bool): (r: byte)
    ensures r == 0 || r == 1 || r == 2 || r == 4 || (r == 8 && ft1284)
  {
    var m := mode % 256;
    if m == 1 then 0x01 else if m == 2 then 0x02 else if m == 4 then 0x04 else if ft1284 && m == 8 then 0x08 else 0x00
  }

  /** A pin function, or a default when it is beyond the last one. */
  function Capped(f: int, last: int, otherwise: int): int { if f > last then otherwise else f }

  /** Two pin functions in one byte. */
  predicate Nibbles(b: byte, lo: int, hi: int) { b == Byte(lo) | (Byte(hi) << 4) }

  /** The settings of a group as they read from the low half of a byte. */
  function GroupOf(n: byte): Group { Group(Value(n, DRIVE_16MA), Value(n, IS_SCHMITT), Value(n, SLOW_SLEW)) }

  /** What the image can hold of the settings of a group. */
  function Stored(g: Group): Group {
    Group(if g.drive > 3 then 3 else g.drive, if g.schmitt == 8 then 8 else 0, if g.slew == 4 then 4 else 0)
  }

  /** The four bits of a group: a drive strength beyond the strongest becomes the strongest. */
  function GroupByte(g: Group): byte {
    (if g.drive > 3 then 0x03 else Byte(g.drive)) | Only(0x08, g.schmitt == 8) | Only(0x04, g.slew == 4)
  }

  /** Two groups in one byte. */
  predicate Groups(b: byte, lo: Group, hi: Group) { b == GroupByte(lo) | (GroupByte(hi) << 4) }

  ghost predicate LayoutBM(b: seq<byte>, s: Settings)
    requires |b| == 256
  {
    Flags(b[0x0A], s, true, true, false, true) && UsbVersion(b, s)
  }

  /** The byte of a channel of the FT2232C. */
  predicate Channel2232C(x: byte, mode: int, vcp: bool, high: bool) {
    x == Mode(mode, false) | Only(0x08, vcp) | Only(0x10, high)
  }

  ghost predicate Layout2232C(b: seq<byte>, s: Settings)
    requires |b| == 256
  {
    && Flags(b[0x0A], s, true, true, true, true) && UsbVersion(b, s)
    && Channel2232C(b[0x00], s.channelAType, s.channelADriver == 8, s.highCurrentA == 0x10)
    && Channel2232C(b[0x01], s.channelBType, s.channelBDriver == 8, s.highCurrentB == 0x10)
    && b[0x14] == Byte(s.chip)
  }

  ghost predicate LayoutR(b: seq<byte>, s: Settings)
    requires |b| == 256 && |s.cbusFunction| == 10
  {
    && Flags(b[0x0A], s, true, true, true, false) && UsbVersion(b, s)
    && b[0x00] == Only(0x04, s.highCurrent == 4) && b[0x01] == 0x40 && b[0x0B] == Byte(s.invert)
    && var f := s.cbusFunction;
       && Nibbles(b[0x14], Capped(f[0], 13, 3), Capped(f[1], 13, 2))
       && Nibbles(b[0x15], Capped(f[2], 13, 0), Capped(f[3], 13, 1))
       && b[0x16] == Byte(Capped(f[4], 9, 5))
  }

  predicate Channels2232H(a: byte, b: byte, s: Settings) {
    && a == Mode(s.channelAType, false) | Only(0x08, s.channelADriver == 8)
    && b == Mode(s.channelBType, false) | Only(0x08, s.channelBDriver == 8) | Only(0x80, s.suspendDbus7 == 0x80)
  }

  predicate Channels4232H(a: byte, b: byte, r: byte, s: Settings) {
    && a == Only(0x08, s.channelADriver == 8) | Only(0x80, s.channelCDriver == 8)
    && b == Only(0x08, s.channelBDriver == 8) | Only(0x80, s.channelDDriver == 8)
    && r == Only(0x10, s.rs485A != 0) | Only(0x20, s.rs485B != 0) | Only(0x40, s.rs485C != 0)
      | Only(0x80, s.rs485D != 0)
  }

  predicate Channel232H(a: byte, b: byte, s: Settings) {
    && a == Mode(s.channelAType, true) | Only(0x10, s.channelADriver == 8)
    && b == Only(0x80, s.powersave != 0) | Only(0x01, s.clockPolarity != 0) | Only(0x02, s.dataOrder != 0)
      | Only(0x04, s.flowControl != 0)
  }

  ghost predicate Layout2232H(b: seq<byte>, s: Settings)
    requires |b| == 256
  {
    && Flags(b[0x0A], s, true, true, true, false) && Channels2232H(b[0x00], b[0x01], s)
    && Groups(b[0x0C], s.group0, s.group1) && Groups(b[0x0D], s.group2, s.group3)
    && b[0x18] == Byte(s.chip)
  }

  ghost predicate Layout4232H(b: seq<byte>, s: Settings)
    requires |b| == 256
  {
    && Flags(b[0x0A], s, true, true, true, false) && Channels4232H(b[0x00], b[0x01], b[0x0B], s)
    && Groups(b[0x0C], s.group0, s.group1) && Groups(b[0x0D], s.group2, s.group3)
    && b[0x18] == Byte(s.chip)
  }

  /** Two of the pins of the FT232H. */
  predicate PinPair(b: byte, f: seq<int>, i: nat)
    requires i + 1 < |f|
  {
    Nibbles(b, Capped(f[i], 12, 0), Capped(f[i + 1], 12, 0))
  }

  ghost predicate Layout232H(b: seq<byte>, s: Settings)
    requires |b| == 256 && |s.cbusFunction| == 10
  {
    && Flags(b[0x0A], s, true, true, true, false) && Channel232H(b[0x00], b[0x01], s)
    && b[0x0C] == GroupByte(s.group0) && b[0x0D] == GroupByte(s.group1)
    && (forall k :: 0x18 <= k < 0x1D ==> PinPair(b[k], s.cbusFunction, 2 * (k - 0x18)))
    && b[0x1E] == Byte(s.chip)
  }

  ghost predicate Layout230X(b: seq<byte>, s: Settings)
    requires |b| == 256 && |s.cbusFunction| == 10
  {
    && b[0x00] == 0x80 && b[0x0A] == 0x08 && b[0x0C] == 0x31
    && forall k :: 0x1A <= k <= 0x20 ==> b[k] == Byte(s.cbusFunction[k - 0x1A])
  }

  /** The addresses whose bytes depend on the type of chip. */
  function Places(chip: ChipType): set<int> {
    match chip
    case TypeAM => {0x0A}
    case TypeBM => {0x0A, 0x0C, 0x0D}
    case Type2232C => {0x00, 0x01, 0x0A, 0x0C, 0x0D, 0x14}
    case TypeR => {0x00, 0x01, 0x0A, 0x0B, 0x0C, 0x0D, 0x14, 0x15, 0x16}
    case Type2232H => {0x00, 0x01, 0x0A, 0x0C, 0x0D, 0x18}
    case Type4232H => {0x00, 0x01, 0x0A, 0x0B, 0x0C, 0x0D, 0x18}
    case Type232H => {0x00, 0x01, 0x0A, 0x0C, 0x0D, 0x18, 0x19, 0x1A, 0x1B, 0x1C, 0x1E}
    case Type230X => {0x00, 0x0A, 0x0C, 0x1A, 0x1B, 0x1C, 0x1D, 0x1E, 0x1F, 0x20}
  }

  ghost predicate Layout(b: seq<byte>, s: Settings, chip: ChipType)
    requires |b| == 256 && |s.cbusFunction| == 10
  {
    match chip
    case TypeAM => Flags(b[0x0A], s, false, false, false, false)
    case TypeBM => LayoutBM(b, s)
    case Type2232C => Layout2232C(b, s)
    case TypeR => LayoutR(b, s)
    case Type2232H => Layout2232H(b, s)
    case Type4232H => Layout4232H(b, s)
    case Type232H => Layout232H(b, s)
    case Type230X => Layout230X(b, s)
  }

  /** What newer chips have behind the strings: port name and PnP bytes, as far as they do not run into the checksum. */
  ghost predicate PnPBytes(b: seq<byte>, chip: ChipType, s: Settings, size: nat)
    requires Image(b, size)
  {
    var i := Offset3(chip, s);
    && 0x80 <= i <= 0xFE
    && (chip != TypeAM && chip != TypeBM ==>
      && (i < 0xFE ==> b[Address(i, size)] == 0x02) && (i < 0xFD ==> b[Address(i + 1, size)] == 0x03)
      && (i < 0xFC ==> b[Address(i + 2, size)] == Byte(s.isNotPnp)))
  }

  /** The middle of the memory of an FT230X, which cannot be written. */
  predicate Reserved(k: int, chip: ChipType) { chip == Type230X && 0x80 <= k < 0xA0 }

  /** Addresses that the builder leaves empty. */
  predicate Unused(k: int, chip: ChipType, s: Settings, size: nat)
    requires size > 0
  {
    && !(2 <= k <= 9) && !(0x0E <= k < 0x14) && k !in Places(chip) && k != size - 2 && k != size - 1
    && !Reserved(k, chip)
    && !(Address(Start(chip), size) <= k < Address(Offset3(chip, s), size) + if chip in {TypeAM, TypeBM} then 0 else 3)
  }

  ghost predicate EmptyElsewhere(b: seq<byte>, chip: ChipType, s: Settings, size: nat)
    requires |b| == 256 && size > 0
  {
    forall k :: 0 <= k < 256 && Unused(k, chip, s, size) ==> b[k] == 0
  }

  /** A finished image, byte by byte. Only on an FT230X with 128 bytes does a setting fall into the string area, on a
      byte that the decoder does not read. */
  ghost predicate Built(b: seq<byte>, s: Settings, chip: ChipType, size: nat)
    requires Image(b, size) && |s.cbusFunction| == 10
  {
    && Header(b, s) && Layout(b, s, chip)
    && StringTable(b, chip, s) && StringArea(b, chip, s, size, chip == Type230X && size == 0x80)
    && PnPBytes(b, chip, s, size) && EmptyElsewhere(b, chip, s, size)
    && Passes(b, size, chip == Type230X)
  }
}
