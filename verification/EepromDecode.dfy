/** What the decoder reads from an image, and that it recovers what the builder wrote. */
module EepromDecode {
  import opened Bits
  import opened Checksum
  import opened EepromLayout
  import opened Octets

  /** A table entry whose characters lie inside the image; the decoder relies on it without looking. */
  predicate EntryInside(b: seq<byte>, pos: nat, size: nat)
    requires Image(b, size) && pos + 1 < 256
  {
    Nat(b[pos + 1]) / 2 >= 2 ==> Address(Nat(b[pos]), size) + 2 * (Nat(b[pos + 1]) / 2) - 2 < 256
  }

  predicate StringsInside(b: seq<byte>, size: nat)
    requires Image(b, size)
  {
    EntryInside(b, 0x0E, size) && EntryInside(b, 0x10, size) && EntryInside(b, 0x12, size)
  }

  function DecodeText(b: seq<byte>, pos: nat, size: nat): Option<seq<byte>>
    requires Image(b, size) && pos + 1 < 256 && EntryInside(b, pos, size)
  {
    var n := Nat(b[pos + 1]) / 2;
    if n == 0 then None
    else Some(seq(n - 1, j requires 0 <= j < n - 1 => b[2 * j + Address(Nat(b[pos]), size) + 2]))
  }

  /** The settings that are the same for every chip. */
  function DecodeCommon(t: Settings, b: seq<byte>, size: nat): Settings
    requires Image(b, size) && StringsInside(b, size)
  {
    t.(vendorId := Int16(b, 0x02), productId := Int16(b, 0x04), releaseNumber := Int16(b, 0x06),
       selfPowered := Value(b[0x08], 0x40), remoteWakeup := Value(b[0x08], 0x20), maxPower := 2 * Nat(b[0x09]),
       inIsIsochronous := Value(b[0x0A], 0x01), outIsIsochronous := Value(b[0x0A], 0x02),
       suspendPullDowns := Value(b[0x0A], 0x04),
       useSerial := if b[0x0A] & USE_SERIAL_NUM != 0 then 1 else 0,
       useUsbVersion := Value(b[0x0A], USE_USB_VERSION_BIT), usbVersion := Int16(b, 0x0C),
       manufacturer := DecodeText(b, 0x0E, size), product := DecodeText(b, 0x10, size),
       serial := DecodeText(b, 0x12, size))
  }

  /** bit2type */
  function BitsToType(v: int): int { if v == 1 || v == 2 || v == 4 || v == 8 then v else 0 }

  function Nibble(b: byte, high: bool): int { if high then Nat((b >> 4) & 0x0F) else Nat(b & 0x0F) }

  /** The settings that depend on the chip. */
  function DecodeType(t: Settings, b: seq<byte>, chip: ChipType): Settings
    requires |b| == 256 && |t.cbusFunction| == 10
  {
    match chip
    case TypeAM | TypeBM => t.(chip := -1)
    case Type2232C => t.(
      channelAType := BitsToType(Value(b[0x00], 7)), channelADriver := Value(b[0x00], DRIVER_VCP),
      highCurrentA := Value(b[0x00], HIGH_CURRENT_DRIVE),
      channelBType := Value(b[0x01], 7), channelBDriver := Value(b[0x01], DRIVER_VCP),
      highCurrentB := Value(b[0x01], HIGH_CURRENT_DRIVE), chip := Nat(b[0x14]))
    case TypeR => t.(
      channelADriver := Value(!b[0x00], DRIVER_VCP), highCurrent := Value(b[0x00], HIGH_CURRENT_DRIVE_R),
      chip := Nat(b[0x16]), invert := Nat(b[0x0B]),
      cbusFunction := DecodePinsR(t.cbusFunction, b))
    case Type2232H => DecodeGroups(t, b).(
      channelADriver := Value(b[0x00], DRIVER_VCP), channelBDriver := Value(b[0x01], DRIVER_VCP),
      channelAType := BitsToType(Value(b[0x00], 7)), channelBType := BitsToType(Value(b[0x01], 7)),
      suspendDbus7 := Value(b[0x01], SUSPEND_DBUS7_BIT))
    case Type4232H => DecodeGroups(t, b).(
      channelADriver := Value(b[0x00], DRIVER_VCP), channelBDriver := Value(b[0x01], DRIVER_VCP),
      channelCDriver := Value(b[0x00] >> 4, DRIVER_VCP), channelDDriver := Value(b[0x01] >> 4, DRIVER_VCP),
      rs485A := Value(b[0x0B], 0x10), rs485B := Value(b[0x0B], 0x20),
      rs485C := Value(b[0x0B], 0x40), rs485D := Value(b[0x0B], 0x80))
    case Type232H => t.(
      channelAType := Value(b[0x00], 0x0F), channelADriver := if b[0x00] & DRIVER_VCPH != 0 then 8 else 0,
      clockPolarity := Value(b[0x01], FT1284_CLK_IDLE_STATE), dataOrder := Value(b[0x01], FT1284_DATA_LSB),
      flowControl := Value(b[0x01], FT1284_FLOW_CONTROL), powersave := Value(b[0x01], POWER_SAVE_DISABLE_H),
      group0 := GroupOf(b[0x0C]), group1 := GroupOf(b[0x0D]),
      cbusFunction := seq(10, i requires 0 <= i < 10 => Nibble(b[0x18 + i / 2], i % 2 == 1)),
      chip := Nat(b[0x1E]))
    case Type230X => t.(
      cbusFunction := t.cbusFunction[0 := Nat(b[0x1A])][1 := Nat(b[0x1B])][2 := Nat(b[0x1C])][3 := Nat(b[0x1D])],
      group0 := GroupOf(b[0x0C]), group1 := GroupOf(b[0x0C] >> 4))
  }

  function DecodePinsR(f: seq<int>, b: seq<byte>): (r: seq<int>)
    requires |b| == 256 && |f| == 10
    ensures |r| == 10
  {
    f[0 := Nibble(b[0x14], false)][1 := Nibble(b[0x14], true)][2 := Nibble(b[0x15], false)][3 := Nibble(b[0x15], true)]
     [4 := Nibble(b[0x16], false)]
  }

  function DecodeGroups(t: Settings, b: seq<byte>): Settings
    requires |b| == 256
  {
    t.(chip := Nat(b[0x18]), group0 := GroupOf(b[0x0C]), group1 := GroupOf(b[0x0C] >> 4),
       group2 := GroupOf(b[0x0D]), group3 := GroupOf(b[0x0D] >> 4))
  }

  /** What the builder keeps of a string that is missing or too long. */
  predicate TextKept(t: Option<seq<byte>>) { t.Some? && |t.value| < 256 }

  predicate IdKept(n: int) { 0 <= n < 65536 }

  lemma IdRead(n: int, b: seq<byte>, at: nat)
    requires at + 1 < |b| && b[at] == Byte(n) && b[at + 1] == Byte(n / 256)
    ensures Int16(b, at) == n <==> IdKept(n)
    ensures Int16(b, at) == n % 65536
  {
    Id(n, b, at);
    hide *;
    Kept16(n);
  }

  lemma Kept16(n: int)
    ensures IdKept(n) <==> n % 65536 == n
  {
  }

  /** A string comes back as it was exactly when there was one and its length fits an unsigned char. */
  lemma TextRead(t: Option<seq<byte>>, b: seq<byte>, pos: nat, offset: nat, size: nat)
    requires Image(b, size) && pos + 1 < 256 && 0x80 <= offset < 0x100 && 2 * |Text(t)| + 2 < 256
    requires b[pos] == Byte(offset) && b[pos + 1] == Byte(2 * |Text(t)| + 2)
    requires Characters(b, Address(offset, size) + 2, Text(t))
    ensures EntryInside(b, pos, size) && DecodeText(b, pos, size) == Some(Text(t))
    ensures DecodeText(b, pos, size) == t <==> TextKept(t)
  {
    ByteValue(offset);
    ByteValue(2 * |Text(t)| + 2);
    hide Byte, Nat;
    HighAddress(offset, size);
    hide Address;
    SameText(t);
    var n := |Text(t)|;
    hide Text, TextKept;
    assert (2 * n + 2) % 256 / 2 == n + 1;
    assert DecodeText(b, pos, size).value == Text(t);
  }

  lemma SameText(t: Option<seq<byte>>)
    ensures Some(Text(t)) == t <==> TextKept(t)
  {
    assert t.Some? ==> (|t.value| % 256 == |t.value| <==> |t.value| < 256);
    assert TextKept(t) ==> t.value[..|t.value|] == t.value;
  }

  /** The table entries of a finished image lead back to the three strings. */
  lemma StringsRecovered(b: seq<byte>, s: Settings, chip: ChipType, size: nat)
    requires Image(b, size) && |s.cbusFunction| == 10 && Built(b, s, chip, size)
    ensures StringsInside(b, size)
    ensures DecodeText(b, 0x0E, size) == Some(Text(s.manufacturer))
    ensures DecodeText(b, 0x10, size) == Some(Text(s.product))
      && DecodeText(b, 0x12, size) == Some(Text(s.serial))
    ensures DecodeText(b, 0x0E, size) == s.manufacturer <==> TextKept(s.manufacturer)
    ensures DecodeText(b, 0x10, size) == s.product <==> TextKept(s.product)
    ensures DecodeText(b, 0x12, size) == s.serial <==> TextKept(s.serial)
  {
    OffsetsInside(chip, s);
    hide Header, Layout, Passes, Start, Offset1, Offset2, Offset3, Text, Address, Byte, Characters, EntryInside,
      DecodeText, TextKept;
    TextRead(s.manufacturer, b, 0x0E, Start(chip), size);
    TextRead(s.product, b, 0x10, Offset1(chip, s), size);
    TextRead(s.serial, b, 0x12, Offset2(chip, s), size);
  }

  lemma OffsetsInside(chip: ChipType, s: Settings)
    ensures 0x80 <= Start(chip) && Offset1(chip, s) == Start(chip) + 2 + 2 * |Text(s.manufacturer)|
    ensures Offset2(chip, s) == Offset1(chip, s) + 2 + 2 * |Text(s.product)|
    ensures Offset3(chip, s) == Offset2(chip, s) + 2 + 2 * |Text(s.serial)|
  {
  }

  /** Ids and release number come back exactly when they fit 16 bits, the power limit when it is even and below 512
      mA. */
  ghost predicate KeepsHeader(s: Settings, d: Settings) {
    && (d.vendorId == s.vendorId <==> IdKept(s.vendorId)) && (d.productId == s.productId <==> IdKept(s.productId))
    && (d.releaseNumber == s.releaseNumber <==> IdKept(s.releaseNumber))
    && (d.selfPowered != 0 <==> s.selfPowered != 0) && (d.remoteWakeup != 0 <==> s.remoteWakeup != 0)
    && (d.maxPower == s.maxPower <==> 0 <= s.maxPower < 512 && s.maxPower % 2 == 0)
  }

  lemma HeaderRecovered(b: seq<byte>, s: Settings, t: Settings, size: nat)
    requires Image(b, size) && Header(b, s) && StringsInside(b, size)
    ensures KeepsHeader(s, DecodeCommon(t, b, size))
  {
    hide Byte, Nat, Value, Int16, IdKept, Half, DecodeText, Only;
    IdRead(s.vendorId, b, 0x02);
    IdRead(s.productId, b, 0x04);
    IdRead(s.releaseNumber, b, 0x06);
    PowerBits(b[0x08], s.selfPowered != 0, s.remoteWakeup != 0);
    FlagRead(b[0x08], 0x40, s.selfPowered != 0);
    FlagRead(b[0x08], 0x20, s.remoteWakeup != 0);
    ByteValue(Half(s.maxPower));
    PowerKept(s.maxPower);
  }

  lemma PowerBits(b: byte, self: bool, wakeup: bool)
    requires b == 0x80 | Only(0x40, self) | Only(0x20, wakeup)
    ensures b & 0x40 == Only(0x40, self) && b & 0x20 == Only(0x20, wakeup)
  {
  }

  lemma PowerKept(n: int)
    ensures 2 * (Half(n) % 256) == n <==> 0 <= n < 512 && n % 2 == 0
  {
  }

  lemma FlagRead(b: byte, mask: byte, on: bool)
    requires b & mask == Only(mask, on) && mask != 0
    ensures Value(b, mask) == (if on then Nat(mask) else 0) && (Value(b, mask) != 0 <==> on)
  {
    NatZero(b & mask);
  }

  lemma NatZero(b: byte)
    ensures Nat(b) == 0 <==> b == 0
  {
    if b & 0x0F == 0 && b & 0xF0 == 0 {
      assert b == 0;
    } else if b & 0x0F != 0 {
      assert b & 0x01 != 0 || b & 0x02 != 0 || b & 0x04 != 0 || b & 0x08 != 0;
    } else {
      assert b & 0x10 != 0 || b & 0x20 != 0 || b & 0x40 != 0 || b & 0x80 != 0;
    }
  }

  ghost predicate KeepsFlags(s: Settings, d: Settings, iso: bool, serial: bool, pull: bool, usb: bool) {
    && (d.inIsIsochronous != 0 <==> iso && s.inIsIsochronous != 0)
    && (d.outIsIsochronous != 0 <==> iso && s.outIsIsochronous != 0)
    && (d.suspendPullDowns != 0 <==> pull && s.suspendPullDowns != 0)
    && (d.useSerial != 0 <==> serial && s.useSerial != 0)
    && (d.useUsbVersion == 0x10 <==> usb && s.useUsbVersion == 0x10)
  }

  /** The flags of byte 0x0A that a chip has. */
  lemma FlagsRecovered(b: seq<byte>, s: Settings, t: Settings, size: nat, iso: bool, serial: bool, pull: bool,
                       usb: bool)
    requires Image(b, size) && StringsInside(b, size) && Flags(b[0x0A], s, iso, serial, pull, usb)
    ensures KeepsFlags(s, DecodeCommon(t, b, size), iso, serial, pull, usb)
  {
    FlagBits(b[0x0A], s, iso, serial, pull, usb);
    FlagRead(b[0x0A], 0x01, iso && s.inIsIsochronous != 0);
    FlagRead(b[0x0A], 0x02, iso && s.outIsIsochronous != 0);
    FlagRead(b[0x0A], 0x04, pull && s.suspendPullDowns != 0);
    FlagRead(b[0x0A], 0x10, usb && s.useUsbVersion == 0x10);
    assert Nat(0x10) == 0x10;
    hide Nat, Value, Int16, DecodeText, Only, Flags;
  }

  lemma FlagBits(f: byte, s: Settings, iso: bool, serial: bool, pull: bool, usb: bool)
    requires Flags(f, s, iso, serial, pull, usb)
    ensures f & 0x01 == Only(0x01, iso && s.inIsIsochronous != 0)
    ensures f & 0x02 == Only(0x02, iso && s.outIsIsochronous != 0)
    ensures f & 0x04 == Only(0x04, pull && s.suspendPullDowns != 0)
    ensures f & 0x08 != 0 <==> serial && s.useSerial != 0
    ensures f & 0x10 == Only(0x10, usb && s.useUsbVersion == 0x10)
  {
  }

  predicate GroupKept(g: Group) {
    0 <= g.drive <= 3 && (g.schmitt == 0 || g.schmitt == 8) && (g.slew == 0 || g.slew == 4)
  }

  lemma GroupRange(b: byte)
    ensures GroupKept(GroupOf(b))
  {
    NatZero(b & 0x03);
    assert Nat(0) == 0 && Nat(1) == 1 && Nat(2) == 2 && Nat(3) == 3 && Nat(4) == 4 && Nat(8) == 8;
    assert b & 0x03 == 0 || b & 0x03 == 1 || b & 0x03 == 2 || b & 0x03 == 3;
    assert (b & 0x08 == 0 || b & 0x08 == 8) && (b & 0x04 == 0 || b & 0x04 == 4);
    hide Nat;
  }

  ghost predicate KeepsGroups(s: Settings, d: Settings) {
    (d.group0 == s.group0 && d.group1 == s.group1 && d.group2 == s.group2 && d.group3 == s.group3) <==>
    (GroupKept(s.group0) && GroupKept(s.group1) && GroupKept(s.group2) && GroupKept(s.group3))
  }

  /** All four groups of an FT2232H or FT4232H come back as they were exactly when each is in range;
      a drive strength beyond the strongest is stored as the strongest. */
  lemma GroupsRecovered(b: seq<byte>, s: Settings, t: Settings)
    requires |b| == 256 && Groups(b[0x0C], s.group0, s.group1) && Groups(b[0x0D], s.group2, s.group3)
    ensures KeepsGroups(s, DecodeGroups(t, b))
    ensures var d := DecodeGroups(t, b);
      s.group0.drive >= 0 && s.group1.drive >= 0 && s.group2.drive >= 0 && s.group3.drive >= 0 ==>
      d.group0 == Stored(s.group0) && d.group1 == Stored(s.group1) && d.group2 == Stored(s.group2)
        && d.group3 == Stored(s.group3)
  {
    hide DecodeGroups, GroupOf, Groups, Stored, GroupKept;
    GroupsRead(b[0x0C], s.group0, s.group1);
    GroupsRead(b[0x0D], s.group2, s.group3);
    DecodedGroups(t, b);
  }

  lemma DecodedGroups(t: Settings, b: seq<byte>)
    requires |b| == 256
    ensures var d := DecodeGroups(t, b);
      && d.group0 == GroupOf(b[0x0C]) && d.group1 == GroupOf(b[0x0C] >> 4)
      && d.group2 == GroupOf(b[0x0D]) && d.group3 == GroupOf(b[0x0D] >> 4)
  {
    hide GroupOf, Nat;
  }

  /** Both groups of a byte can be read back. */
  lemma GroupsRead(b: byte, lo: Group, hi: Group)
    requires Groups(b, lo, hi)
    ensures lo.drive >= 0 && hi.drive >= 0 ==> GroupOf(b) == Stored(lo) && GroupOf(b >> 4) == Stored(hi)
    ensures GroupOf(b) == lo && GroupOf(b >> 4) == hi <==> GroupKept(lo) && GroupKept(hi)
  {
    hide GroupOf;
    GroupRange(b);
    GroupRange(b >> 4);
    if lo.drive >= 0 && hi.drive >= 0 {
      GroupRead(lo);
      GroupRead(hi);
      hide GroupByte;
      Halves(GroupByte(lo), GroupByte(hi));
    }
  }

  lemma GroupAlone(b: byte, g: Group)
    requires b == GroupByte(g)
    ensures GroupOf(b) == g <==> GroupKept(g)
  {
    hide GroupOf, GroupByte;
    GroupRange(b);
    if g.drive >= 0 { GroupRead(g); }
  }

  lemma GroupRead(g: Group)
    requires g.drive >= 0
    ensures GroupOf(GroupByte(g)) == Stored(g) && GroupByte(g) & 0xF0 == 0
  {
    var d := if g.drive > 3 then 3 else g.drive;
    assert d == 0 || d == 1 || d == 2 || d == 3;
    assert Byte(0) == 0 && Byte(1) == 1 && Byte(2) == 2 && Byte(3) == 3;
    assert Nat(0) == 0 && Nat(1) == 1 && Nat(2) == 2 && Nat(3) == 3 && Nat(4) == 4 && Nat(8) == 8;
    hide Byte, Nat;
  }

  lemma Halves(l: byte, h: byte)
    requires l & 0xF0 == 0 && h & 0xF0 == 0
    ensures GroupOf(l | (h << 4)) == GroupOf(l) && GroupOf((l | (h << 4)) >> 4) == GroupOf(h)
  {
    var b := l | (h << 4);
    assert b & 3 == l & 3 && b & 4 == l & 4 && b & 8 == l & 8;
    assert b >> 4 == h;
  }

  predicate ModeKept(m: int, ft1284: bool) { m == 0 || m == 1 || m == 2 || m == 4 || (m == 8 && ft1284) }

  predicate ByteKept(n: int) { 0 <= n < 256 }

  lemma ByteRead(n: int)
    ensures Nat(Byte(n)) == n <==> ByteKept(n)
  {
    ByteValue(n);
    hide Byte, Nat;
  }

  lemma ModeRead(b: byte, mask: byte, m: int, ft1284: bool)
    requires b & mask == Mode(m, ft1284)
    ensures Value(b, mask) == m <==> ModeKept(m, ft1284)
    ensures BitsToType(Value(b, mask)) == Value(b, mask)
  {
    assert Nat(0) == 0 && Nat(1) == 1 && Nat(2) == 2 && Nat(4) == 4 && Nat(8) == 8;
    hide Nat;
  }

  ghost predicate Keeps2232C(s: Settings, d: Settings) {
    && (d.channelAType == s.channelAType <==> ModeKept(s.channelAType, false))
    && (d.channelBType == s.channelBType <==> ModeKept(s.channelBType, false))
    && (d.channelADriver == 8 <==> s.channelADriver == 8) && (d.channelBDriver == 8 <==> s.channelBDriver == 8)
    && (d.highCurrentA == 0x10 <==> s.highCurrentA == 0x10) && (d.highCurrentB == 0x10 <==> s.highCurrentB == 0x10)
    && (d.chip == s.chip <==> ByteKept(s.chip))
  }

  lemma Recovered2232C(b: seq<byte>, s: Settings, t: Settings)
    requires |b| == 256 && Layout2232C(b, s) && |t.cbusFunction| == 10
    ensures Keeps2232C(s, DecodeType(t, b, Type2232C))
  {
    Channel2232CRead(b[0x00], s.channelAType, s.channelADriver == 8, s.highCurrentA == 0x10);
    Channel2232CRead(b[0x01], s.channelBType, s.channelBDriver == 8, s.highCurrentB == 0x10);
    ByteRead(s.chip);
    hide Nat, Byte, Mode, Only, Value, BitsToType, ModeKept, ByteKept, Flags;
  }

  lemma Channel2232CRead(x: byte, m: int, vcp: bool, high: bool)
    requires Channel2232C(x, m, vcp, high)
    ensures (Value(x, 7) == m <==> ModeKept(m, false)) && BitsToType(Value(x, 7)) == Value(x, 7)
    ensures (Value(x, 0x08) == 8 <==> vcp) && (Value(x, 0x10) == 0x10 <==> high)
  {
    assert x & 7 == Mode(m, false) && x & 0x08 == Only(0x08, vcp) && x & 0x10 == Only(0x10, high) by { hide Mode; }
    ModeRead(x, 7, m, false);
    FlagRead(x, 0x08, vcp);
    FlagRead(x, 0x10, high);
    assert Nat(8) == 8 && Nat(0x10) == 0x10;
    hide Nat, Mode, Only, Value, BitsToType, ModeKept;
  }

  ghost predicate Keeps2232H(s: Settings, d: Settings) {
    && (d.channelAType == s.channelAType <==> ModeKept(s.channelAType, false))
    && (d.channelBType == s.channelBType <==> ModeKept(s.channelBType, false))
    && (d.channelADriver == 8 <==> s.channelADriver == 8) && (d.channelBDriver == 8 <==> s.channelBDriver == 8)
    && (d.suspendDbus7 == 0x80 <==> s.suspendDbus7 == 0x80) && (d.chip == s.chip <==> ByteKept(s.chip))
  }

  lemma Recovered2232H(b: seq<byte>, s: Settings, t: Settings)
    requires |b| == 256 && Layout2232H(b, s) && |t.cbusFunction| == 10
    ensures Keeps2232H(s, DecodeType(t, b, Type2232H))
  {
    Channels2232HRead(b[0x00], b[0x01], s);
    ByteRead(s.chip);
    hide Nat, Byte, Only, Value, BitsToType, ModeKept, ByteKept, Flags, Groups, GroupOf, Channels2232H;
  }

  lemma Channels2232HRead(a: byte, b: byte, s: Settings)
    requires Channels2232H(a, b, s)
    ensures BitsToType(Value(a, 7)) == s.channelAType <==> ModeKept(s.channelAType, false)
    ensures BitsToType(Value(b, 7)) == s.channelBType <==> ModeKept(s.channelBType, false)
    ensures (Value(a, 0x08) == 8 <==> s.channelADriver == 8)
    ensures (Value(b, 0x08) == 8 <==> s.channelBDriver == 8)
    ensures Value(b, 0x80) == 0x80 <==> s.suspendDbus7 == 0x80
  {
    assert Nat(8) == 8 && Nat(0x80) == 0x80;
    Bits2232H(a, b, s);
    ModeRead(a, 7, s.channelAType, false);
    ModeRead(b, 7, s.channelBType, false);
    FlagRead(a, 0x08, s.channelADriver == 8);
    FlagRead(b, 0x08, s.channelBDriver == 8);
    FlagRead(b, 0x80, s.suspendDbus7 == 0x80);
    hide Nat, Mode, Only, Value, BitsToType, ModeKept;
  }

  lemma Bits2232H(a: byte, b: byte, s: Settings)
    requires Channels2232H(a, b, s)
    ensures a & 7 == Mode(s.channelAType, false) && b & 7 == Mode(s.channelBType, false)
    ensures a & 0x08 == Only(0x08, s.channelADriver == 8) && b & 0x08 == Only(0x08, s.channelBDriver == 8)
    ensures b & 0x80 == Only(0x80, s.suspendDbus7 == 0x80)
  {
    hide Mode;
  }

  ghost predicate Keeps4232H(s: Settings, d: Settings) {
    && (d.channelADriver == 8 <==> s.channelADriver == 8) && (d.channelBDriver == 8 <==> s.channelBDriver == 8)
    && (d.channelCDriver == 8 <==> s.channelCDriver == 8) && (d.channelDDriver == 8 <==> s.channelDDriver == 8)
    && (d.rs485A != 0 <==> s.rs485A != 0) && (d.rs485B != 0 <==> s.rs485B != 0)
    && (d.rs485C != 0 <==> s.rs485C != 0) && (d.rs485D != 0 <==> s.rs485D != 0)
    && (d.chip == s.chip <==> ByteKept(s.chip))
  }

  lemma Recovered4232H(b: seq<byte>, s: Settings, t: Settings)
    requires |b| == 256 && Layout4232H(b, s) && |t.cbusFunction| == 10
    ensures Keeps4232H(s, DecodeType(t, b, Type4232H))
  {
    Channels4232HRead(b[0x00], b[0x01], b[0x0B], s);
    ByteRead(s.chip);
    hide Nat, Byte, Only, Value, ByteKept, Flags, Groups, GroupOf, Channels4232H;
  }

  lemma Channels4232HRead(a: byte, b: byte, r: byte, s: Settings)
    requires Channels4232H(a, b, r, s)
    ensures (Value(a, 0x08) == 8 <==> s.channelADriver == 8)
    ensures (Value(b, 0x08) == 8 <==> s.channelBDriver == 8)
    ensures (Value(a >> 4, 0x08) == 8 <==> s.channelCDriver == 8)
    ensures (Value(b >> 4, 0x08) == 8 <==> s.channelDDriver == 8)
    ensures (Value(r, 0x10) != 0 <==> s.rs485A != 0) && (Value(r, 0x20) != 0 <==> s.rs485B != 0)
    ensures (Value(r, 0x40) != 0 <==> s.rs485C != 0) && (Value(r, 0x80) != 0 <==> s.rs485D != 0)
  {
    assert Nat(8) == 8;
    Bits4232H(a, b, r, s);
    FlagRead(a, 0x08, s.channelADriver == 8);
    FlagRead(b, 0x08, s.channelBDriver == 8);
    FlagRead(a >> 4, 0x08, s.channelCDriver == 8);
    FlagRead(b >> 4, 0x08, s.channelDDriver == 8);
    FlagRead(r, 0x10, s.rs485A != 0);
    FlagRead(r, 0x20, s.rs485B != 0);
    FlagRead(r, 0x40, s.rs485C != 0);
    FlagRead(r, 0x80, s.rs485D != 0);
    hide Nat, Only, Value;
  }

  lemma Bits4232H(a: byte, b: byte, r: byte, s: Settings)
    requires Channels4232H(a, b, r, s)
    ensures a & 0x08 == Only(0x08, s.channelADriver == 8) && (a >> 4) & 0x08 == Only(0x08, s.channelCDriver == 8)
    ensures b & 0x08 == Only(0x08, s.channelBDriver == 8) && (b >> 4) & 0x08 == Only(0x08, s.channelDDriver == 8)
    ensures r & 0x10 == Only(0x10, s.rs485A != 0) && r & 0x20 == Only(0x20, s.rs485B != 0)
    ensures r & 0x40 == Only(0x40, s.rs485C != 0) && r & 0x80 == Only(0x80, s.rs485D != 0)
  {
  }

  function LowHalf(b: byte): byte { b & 0x0F }

  /** The high half of a byte that was made of two pin functions: the first may leave bits there. */
  function HighHalf(first: byte, second: byte): byte { (first >> 4) | (second & 0x0F) }

  lemma HalvesOf(b: byte, l: byte, h: byte)
    requires b == l | (h << 4)
    ensures LowHalf(b) == LowHalf(l) && LowHalf(b >> 4) == HighHalf(l, h)
    ensures LowHalf(l) == l ==> HighHalf(l, h) == LowHalf(h)
  {
  }

  lemma HalfRead(x: byte, n: int)
    ensures Nat(LowHalf(x)) == n <==> 0 <= n < 16 && LowHalf(x) == Byte(n)
  {
    HalfBound(x);
    hide Nat, LowHalf;
    if 0 <= n < 16 {
      SmallNibble(n);
      hide Byte;
      if Nat(LowHalf(x)) == n { NatInjective(LowHalf(x), Byte(n)); }
    }
  }

  lemma HalfBound(b: byte)
    ensures Nat(LowHalf(b)) < 16
  {
  }

  /** A function alone in its half is kept exactly when it is known. */
  lemma OwnHalf(n: int, last: int, otherwise: int)
    requires 0 <= otherwise <= last < 16
    ensures 0 <= n < 16 && LowHalf(Byte(Capped(n, last, otherwise))) == Byte(n) <==> 0 <= n <= last
  {
    hide Nat, Byte, LowHalf;
    SmallNibble(otherwise);
    if 0 <= n < 16 { SmallNibble(n); }
  }

  /** When the `i`-th pin comes back. Two pins share a byte: the first of them exactly when it is a known function; the
      second likewise, unless the first is negative and so leaves its own high half there. */
  predicate PinKept(f: seq<int>, i: nat, last: int, otherwise: int)
    requires i < |f|
  {
    if i % 2 == 1 && f[i - 1] < 0
    then 0 <= f[i] < 16 && HighHalf(Byte(f[i - 1]), Byte(Capped(f[i], last, otherwise))) == Byte(f[i])
    else 0 <= f[i] <= last
  }

  lemma PairRead(b: byte, f: seq<int>, i: nat, last: int, o0: int, o1: int)
    requires i % 2 == 0 && i + 1 < |f| && 0 <= o0 <= last < 16 && 0 <= o1 <= last
    requires Nibbles(b, Capped(f[i], last, o0), Capped(f[i + 1], last, o1))
    ensures Nibble(b, false) == f[i] <==> PinKept(f, i, last, o0)
    ensures Nibble(b, true) == f[i + 1] <==> PinKept(f, i + 1, last, o1)
  {
    var lo, hi := Capped(f[i], last, o0), Capped(f[i + 1], last, o1);
    NibblesAre(b, lo, hi);
    hide Nat, Byte, LowHalf, HighHalf, Nibble, Nibbles, PinKept;
    FirstRead(b, f, i, last, o0);
    SecondRead(b >> 4, f, i, last, o0, o1);
  }

  lemma FirstRead(x: byte, f: seq<int>, i: nat, last: int, o0: int)
    requires i % 2 == 0 && i + 1 < |f| && 0 <= o0 <= last < 16
    requires LowHalf(x) == LowHalf(Byte(Capped(f[i], last, o0)))
    ensures Nat(LowHalf(x)) == f[i] <==> PinKept(f, i, last, o0)
  {
    hide Nat, Byte, LowHalf, HighHalf, Capped;
    HalfRead(x, f[i]);
    OwnHalf(f[i], last, o0);
  }

  lemma SecondRead(x: byte, f: seq<int>, i: nat, last: int, o0: int, o1: int)
    requires i % 2 == 0 && i + 1 < |f| && 0 <= o0 <= last < 16 && 0 <= o1 <= last
    requires LowHalf(x) == HighHalf(Byte(Capped(f[i], last, o0)), Byte(Capped(f[i + 1], last, o1)))
    requires LowHalf(Byte(Capped(f[i], last, o0))) == Byte(Capped(f[i], last, o0)) ==>
      LowHalf(x) == LowHalf(Byte(Capped(f[i + 1], last, o1)))
    ensures Nat(LowHalf(x)) == f[i + 1] <==> PinKept(f, i + 1, last, o1)
  {
    hide Nat, Byte, LowHalf, HighHalf;
    if f[i] >= 0 {
      SmallNibble(Capped(f[i], last, o0));
    } else {
      Uncapped(f[i], last, o0);
    }
    hide Capped;
    HalfRead(x, f[i + 1]);
    OwnHalf(f[i + 1], last, o1);
  }

  lemma Uncapped(n: int, last: int, otherwise: int)
    requires n < 0 <= last
    ensures Capped(n, last, otherwise) == n
  {
  }

  lemma NibblesAre(b: byte, lo: int, hi: int)
    requires Nibbles(b, lo, hi)
    ensures Nibble(b, false) == Nat(LowHalf(b)) && Nibble(b, true) == Nat(LowHalf(b >> 4))
    ensures LowHalf(b) == LowHalf(Byte(lo)) && LowHalf(b >> 4) == HighHalf(Byte(lo), Byte(hi))
    ensures LowHalf(Byte(lo)) == Byte(lo) ==> HighHalf(Byte(lo), Byte(hi)) == LowHalf(Byte(hi))
  {
    hide Nat, Byte;
    HalvesOf(b, Byte(lo), Byte(hi));
  }

  ghost predicate KeepsR(s: Settings, d: Settings)
    requires |s.cbusFunction| == 10
  {
    && (d.highCurrent == 4 <==> s.highCurrent == 4) && (d.invert == s.invert <==> ByteKept(s.invert))
    && d.channelADriver == 8
    && |d.cbusFunction| == 10
    && KeepsPinsR(s.cbusFunction, d.cbusFunction)
  }

  /** The functions that take the place of those beyond the last. */
  const DEFAULT_PINS_R: seq<int> := [3, 2, 0, 1]

  ghost predicate KeepsPinsR(f: seq<int>, g: seq<int>)
    requires |f| == |g| == 10
  {
    && (forall i :: 0 <= i < 4 ==> (g[i] == f[i] <==> PinKept(f, i, 13, DEFAULT_PINS_R[i])))
    && (g[4] == f[4] <==> 0 <= f[4] <= 9)
  }

  lemma PinsKeptR(b: seq<byte>, s: Settings, g: seq<int>)
    requires |b| == 256 && |s.cbusFunction| == 10 && LayoutR(b, s) && |g| == 10
    ensures KeepsPinsR(s.cbusFunction, DecodePinsR(g, b))
  {
    var f := s.cbusFunction;
    hide Flags, Only, Byte, Nibble, Nibbles, PinKept, Capped;
    PairRead(b[0x14], f, 0, 13, 3, 2);
    PairRead(b[0x15], f, 2, 13, 0, 1);
    LastPinRead(b[0x16], f[4]);
  }

  lemma LastPinRead(b: byte, n: int)
    requires b == Byte(Capped(n, 9, 5))
    ensures Nibble(b, false) == n <==> 0 <= n <= 9
  {
    HalfBound(b);
    if n >= 0 { SmallNibble(Capped(n, 9, 5)); }
    hide Nat, Byte;
  }

  lemma RecoveredR(b: seq<byte>, s: Settings, t: Settings)
    requires |b| == 256 && |s.cbusFunction| == 10 && |t.cbusFunction| == 10 && LayoutR(b, s)
    ensures KeepsR(s, DecodeType(t, b, TypeR))
  {
    CurrentRead(b[0x00], s);
    DriverRead(b[0x00]);
    ByteRead(s.invert);
    PinsKeptR(b, s, t.cbusFunction);
    hide Nat, Byte, Only, Value, ByteKept, Flags, Nibbles, DecodePinsR, KeepsPinsR;
  }

  /** This chip reads the flag the other way round. */
  lemma DriverRead(a: byte)
    requires a == 0 || a == 0x04
    ensures Value(!a, 0x08) == 8
  {
    assert !a & 0x08 == 8;
    assert Nat(8) == 8;
  }

  lemma CurrentRead(a: byte, s: Settings)
    requires a == Only(0x04, s.highCurrent == 4)
    ensures Value(a, 0x04) == 4 <==> s.highCurrent == 4
  {
    FlagRead(a, 0x04, s.highCurrent == 4);
    assert Nat(4) == 4;
  }

  lemma SmallNibble(n: int)
    requires 0 <= n < 16
    ensures Nat(Byte(n)) == n && LowHalf(Byte(n)) == Byte(n) && Nibble(Byte(n), false) == n
  {
    ByteRead(n);
    LowNibble(n);
    hide Nat, Byte;
  }

  lemma LowNibble(n: int)
    requires 0 <= n < 16
    ensures Byte(n) & 0x0F == Byte(n)
  {
    assert n / 16 % 2 == 0 && n / 32 % 2 == 0 && n / 64 % 2 == 0 && n / 128 % 2 == 0;
  }

  ghost predicate KeepsPins232H(f: seq<int>, g: seq<int>)
    requires |f| == |g| == 10
  {
    forall i :: 0 <= i < 10 ==> (g[i] == f[i] <==> PinKept(f, i, 12, 0))
  }

  ghost predicate Keeps232H(s: Settings, d: Settings)
    requires |s.cbusFunction| == 10
  {
    && (d.channelAType == s.channelAType <==> ModeKept(s.channelAType, true))
    && (d.channelADriver == 8 <==> s.channelADriver == 8)
    && (d.powersave != 0 <==> s.powersave != 0) && (d.clockPolarity != 0 <==> s.clockPolarity != 0)
    && (d.dataOrder != 0 <==> s.dataOrder != 0) && (d.flowControl != 0 <==> s.flowControl != 0)
    && (d.group0 == s.group0 <==> GroupKept(s.group0)) && (d.group1 == s.group1 <==> GroupKept(s.group1))
    && |d.cbusFunction| == 10
    && KeepsPins232H(s.cbusFunction, d.cbusFunction)
    && (d.chip == s.chip <==> ByteKept(s.chip))
  }

  lemma Recovered232H(b: seq<byte>, s: Settings, t: Settings)
    requires |b| == 256 && |s.cbusFunction| == 10 && |t.cbusFunction| == 10 && Layout232H(b, s)
    ensures Keeps232H(s, DecodeType(t, b, Type232H))
  {
    Channel232HRead(b[0x00], b[0x01], s);
    GroupAlone(b[0x0C], s.group0);
    GroupAlone(b[0x0D], s.group1);
    ByteRead(s.chip);
    PinsKept232H(b, s, t);
    hide Nat, Byte, Mode, Only, Value, ModeKept, ByteKept, Flags, GroupOf, GroupByte, GroupKept, Nibble, Nibbles,
      Channel232H, Capped, KeepsPins232H;
  }

  lemma PinsKept232H(b: seq<byte>, s: Settings, t: Settings)
    requires |b| == 256 && |s.cbusFunction| == 10 && |t.cbusFunction| == 10 && Layout232H(b, s)
    ensures |DecodeType(t, b, Type232H).cbusFunction| == 10
    ensures KeepsPins232H(s.cbusFunction, DecodeType(t, b, Type232H).cbusFunction)
  {
    Pins232H(b, s);
    hide Nat, Value, GroupOf, Nibble, Layout232H, Capped, PinKept;
  }

  lemma Channel232HRead(a: byte, b: byte, s: Settings)
    requires Channel232H(a, b, s)
    ensures Value(a, 0x0F) == s.channelAType <==> ModeKept(s.channelAType, true)
    ensures (a & 0x10 != 0 <==> s.channelADriver == 8)
    ensures (Value(b, 0x80) != 0 <==> s.powersave != 0)
    ensures (Value(b, 0x01) != 0 <==> s.clockPolarity != 0)
    ensures (Value(b, 0x02) != 0 <==> s.dataOrder != 0)
    ensures Value(b, 0x04) != 0 <==> s.flowControl != 0
  {
    Bits232H(a, b, s);
    ModeRead(a, 0x0F, s.channelAType, true);
    FlagRead(b, 0x80, s.powersave != 0);
    FlagRead(b, 0x01, s.clockPolarity != 0);
    FlagRead(b, 0x02, s.dataOrder != 0);
    FlagRead(b, 0x04, s.flowControl != 0);
    hide Nat, Value, Mode;
  }

  lemma Bits232H(a: byte, b: byte, s: Settings)
    requires Channel232H(a, b, s)
    ensures a & 0x0F == Mode(s.channelAType, true) && (a & 0x10 != 0 <==> s.channelADriver == 8)
    ensures b & 0x80 == Only(0x80, s.powersave != 0) && b & 0x01 == Only(0x01, s.clockPolarity != 0)
    ensures b & 0x02 == Only(0x02, s.dataOrder != 0) && b & 0x04 == Only(0x04, s.flowControl != 0)
  {
    hide Mode;
  }

  lemma Pins232H(b: seq<byte>, s: Settings)
    requires |b| == 256 && |s.cbusFunction| == 10 && Layout232H(b, s)
    ensures forall i :: 0 <= i < 10 ==>
      (Nibble(b[0x18 + i / 2], i % 2 == 1) == s.cbusFunction[i] <==> PinKept(s.cbusFunction, i, 12, 0))
  {
    hide Nat, Byte, Flags, GroupOf, Nibble, Nibbles, Channel232H, PinKept, Capped;
    forall i | 0 <= i < 10
      ensures Nibble(b[0x18 + i / 2], i % 2 == 1) == s.cbusFunction[i] <==> PinKept(s.cbusFunction, i, 12, 0)
    {
      PairRead(b[0x18 + i / 2], s.cbusFunction, 2 * (i / 2), 12, 0, 0);
    }
  }

  /** The FT230X keeps four pins; its drive groups and its use of the serial number are fixed. */
  ghost predicate Keeps230X(s: Settings, d: Settings)
    requires |s.cbusFunction| == 10
  {
    && |d.cbusFunction| == 10
    && (forall i :: 0 <= i < 4 ==> (d.cbusFunction[i] == s.cbusFunction[i] <==> ByteKept(s.cbusFunction[i])))
    && d.group0 == Group(1, 0, 0) && d.group1 == Group(3, 0, 0)
  }

  lemma Recovered230X(b: seq<byte>, s: Settings, t: Settings)
    requires |b| == 256 && |s.cbusFunction| == 10 && |t.cbusFunction| == 10 && Layout230X(b, s)
    ensures Keeps230X(s, DecodeType(t, b, Type230X))
  {
    hide Byte, Nat, ByteKept, GroupOf;
    var f := s.cbusFunction;
    assert b[0x1A] == Byte(f[0]) && b[0x1B] == Byte(f[1]) && b[0x1C] == Byte(f[2]) && b[0x1D] == Byte(f[3]);
    ByteRead(f[0]);
    ByteRead(f[1]);
    ByteRead(f[2]);
    ByteRead(f[3]);
    FixedGroups();
  }

  lemma FixedGroups()
    ensures GroupOf(0x31) == Group(1, 0, 0) && GroupOf(0x31 >> 4) == Group(3, 0, 0)
  {
    assert 0x31 as byte & 3 == 1 && 0x31 as byte & 8 == 0 && 0x31 as byte & 4 == 0;
    assert 0x31 as byte >> 4 == 3 && 3 as byte & 3 == 3 && 3 as byte & 8 == 0 && 3 as byte & 4 == 0;
  }

  function Decoded(t: Settings, b: seq<byte>, chip: ChipType, size: nat): Settings
    requires Image(b, size) && StringsInside(b, size) && |t.cbusFunction| == 10
  {
    DecodeType(DecodeCommon(t, b, size).(channelAType := 0), b, chip)
  }

  ghost predicate KeepsStrings(s: Settings, d: Settings) {
    && (d.manufacturer == s.manufacturer <==> TextKept(s.manufacturer))
    && (d.product == s.product <==> TextKept(s.product)) && (d.serial == s.serial <==> TextKept(s.serial))
  }

  /** What a chip recovers of the settings `s` in `d`, and exactly when. */
  ghost predicate Recovers(s: Settings, d: Settings, chip: ChipType)
    requires |s.cbusFunction| == 10
  {
    && KeepsHeader(s, d) && KeepsStrings(s, d) && (chip == Type2232H || chip == Type4232H ==> KeepsGroups(s, d))
    && KeepsFlagsOf(s, d, chip) && KeepsTypeOf(s, d, chip)
    && (HasVersion(chip) ==> (d.usbVersion == s.usbVersion <==> IdKept(s.usbVersion)))
  }

  /** The chips whose image holds a USB version. */
  predicate HasVersion(chip: ChipType) { chip == TypeBM || chip == Type2232C || chip == TypeR }

  lemma VersionRecovered(b: seq<byte>, s: Settings, t: Settings, chip: ChipType, size: nat)
    requires Image(b, size) && StringsInside(b, size) && |s.cbusFunction| == 10 && Layout(b, s, chip)
    requires HasVersion(chip)
    ensures DecodeCommon(t, b, size).usbVersion == s.usbVersion <==> IdKept(s.usbVersion)
  {
    assert UsbVersion(b, s);
    hide Layout;
    IdRead(s.usbVersion, b, 0x0C);
    hide Nat, Byte, Value, Int16, IdKept, DecodeText;
  }

  ghost predicate KeepsFlagsOf(s: Settings, d: Settings, chip: ChipType) {
    match chip
    case TypeAM => KeepsFlags(s, d, false, false, false, false)
    case TypeBM => KeepsFlags(s, d, true, true, false, true)
    case Type2232C => KeepsFlags(s, d, true, true, true, true)
    case Type230X => d.useSerial == 1
    case _ => KeepsFlags(s, d, true, true, true, false)
  }

  ghost predicate KeepsTypeOf(s: Settings, d: Settings, chip: ChipType)
    requires |s.cbusFunction| == 10
  {
    match chip
    case TypeAM | TypeBM => true
    case Type2232C => Keeps2232C(s, d)
    case TypeR => KeepsR(s, d)
    case Type2232H => Keeps2232H(s, d)
    case Type4232H => Keeps4232H(s, d)
    case Type232H => Keeps232H(s, d)
    case Type230X => Keeps230X(s, d)
  }

  lemma TypeRecovered(b: seq<byte>, s: Settings, t: Settings, chip: ChipType)
    requires |b| == 256 && |s.cbusFunction| == 10 && |t.cbusFunction| == 10 && Layout(b, s, chip)
    ensures KeepsTypeOf(s, DecodeType(t, b, chip), chip)
  {
    match chip
    case TypeAM | TypeBM =>
    case Type2232C => Recovered2232C(b, s, t);
    case TypeR => RecoveredR(b, s, t);
    case Type2232H => Recovered2232H(b, s, t);
    case Type4232H => Recovered4232H(b, s, t);
    case Type232H => Recovered232H(b, s, t);
    case Type230X => Recovered230X(b, s, t);
  }

  lemma AllFlagsRecovered(b: seq<byte>, s: Settings, t: Settings, chip: ChipType, size: nat)
    requires Image(b, size) && StringsInside(b, size) && |s.cbusFunction| == 10 && Layout(b, s, chip)
    ensures KeepsFlagsOf(s, DecodeCommon(t, b, size), chip)
  {
    if chip == Type230X {
      SerialFlag();
    } else {
      FlagsRecovered(b, s, t, size, chip != TypeAM, chip != TypeAM,
        chip != TypeAM && chip != TypeBM, chip == TypeBM || chip == Type2232C);
    }
    hide Nat, Value, Int16, DecodeText, Only, Flags, Groups, Nibbles, Byte;
  }

  lemma SerialFlag()
    ensures 0x08 as byte & 0x08 != 0
  {
  }

  lemma FlagsStay(t: Settings, b: seq<byte>, chip: ChipType)
    requires |b| == 256 && |t.cbusFunction| == 10
    ensures var d := DecodeType(t, b, chip);
      && d.inIsIsochronous == t.inIsIsochronous && d.outIsIsochronous == t.outIsIsochronous
      && d.suspendPullDowns == t.suspendPullDowns && d.useSerial == t.useSerial && d.useUsbVersion == t.useUsbVersion
      && d.usbVersion == t.usbVersion
  {
    hide Value, Nat, GroupOf, Nibble, BitsToType, DecodePinsR;
  }

  lemma SameFlags(s: Settings, c: Settings, d: Settings, chip: ChipType)
    requires KeepsFlagsOf(s, c, chip)
    requires d.inIsIsochronous == c.inIsIsochronous && d.outIsIsochronous == c.outIsIsochronous
    requires d.suspendPullDowns == c.suspendPullDowns && d.useSerial == c.useSerial
    requires d.useUsbVersion == c.useUsbVersion
    ensures KeepsFlagsOf(s, d, chip)
  {
  }

  /** Decoding what was built passes the checksum and recovers the settings, for every chip and size. */
  lemma RoundTrip(b: seq<byte>, s: Settings, t: Settings, chip: ChipType, size: nat)
    requires Image(b, size) && |s.cbusFunction| == 10 && |t.cbusFunction| == 10 && Built(b, s, chip, size)
    ensures Passes(b, size, chip == Type230X) && StringsInside(b, size)
    ensures Recovers(s, Decoded(t, b, chip, size), chip)
  {
    hide KeepsHeader, KeepsStrings, KeepsGroups, KeepsFlagsOf, KeepsTypeOf, Passes, Header, Layout, StringTable,
      StringArea;
    CommonRecovered(b, s, t, chip, size);
    if chip == Type2232H || chip == Type4232H { BothGroups(b, s, t, chip, size); }
    FlagsAndType(b, s, t, chip, size);
  }

  lemma CommonRecovered(b: seq<byte>, s: Settings, t: Settings, chip: ChipType, size: nat)
    requires Image(b, size) && |s.cbusFunction| == 10 && |t.cbusFunction| == 10 && Built(b, s, chip, size)
    ensures StringsInside(b, size)
    ensures var d := Decoded(t, b, chip, size); KeepsHeader(s, d) && KeepsStrings(s, d)
  {
    StringsRecovered(b, s, chip, size);
    hide Layout, StringTable, StringArea, Passes, Header;
    HeaderRecovered(b, s, t, size);
    hide IdKept, TextKept, DecodeText, DecodeCommon, DecodeType;
    CommonStrings(t, b, size);
    CommonKept(DecodeCommon(t, b, size).(channelAType := 0), b, chip);
  }

  lemma BothGroups(b: seq<byte>, s: Settings, t: Settings, chip: ChipType, size: nat)
    requires Image(b, size) && StringsInside(b, size) && |s.cbusFunction| == 10 && |t.cbusFunction| == 10
    requires Layout(b, s, chip) && (chip == Type2232H || chip == Type4232H)
    ensures KeepsGroups(s, Decoded(t, b, chip, size))
  {
    var c := DecodeCommon(t, b, size).(channelAType := 0);
    assert Groups(b[0x0C], s.group0, s.group1) && Groups(b[0x0D], s.group2, s.group3);
    hide Layout, Groups, GroupKept, DecodeCommon, DecodeType, DecodeGroups;
    GroupsRecovered(b, s, c);
    GroupsKept(c, b, chip);
  }

  lemma FlagsAndType(b: seq<byte>, s: Settings, t: Settings, chip: ChipType, size: nat)
    requires Image(b, size) && StringsInside(b, size) && |s.cbusFunction| == 10 && |t.cbusFunction| == 10
    requires Layout(b, s, chip)
    ensures var d := Decoded(t, b, chip, size);
      && KeepsFlagsOf(s, d, chip) && KeepsTypeOf(s, d, chip)
      && (HasVersion(chip) ==> (d.usbVersion == s.usbVersion <==> IdKept(s.usbVersion)))
  {
    hide Layout, KeepsFlagsOf, KeepsTypeOf, DecodeType, IdKept;
    var c := DecodeCommon(t, b, size).(channelAType := 0);
    TypeRecovered(b, s, c, chip);
    AllFlagsRecovered(b, s, t, chip, size);
    FlagsStay(c, b, chip);
    SameFlags(s, DecodeCommon(t, b, size), DecodeType(c, b, chip), chip);
    if HasVersion(chip) { VersionRecovered(b, s, t, chip, size); }
  }

  lemma CommonStrings(t: Settings, b: seq<byte>, size: nat)
    requires Image(b, size) && StringsInside(b, size)
    ensures DecodeCommon(t, b, size).manufacturer == DecodeText(b, 0x0E, size)
    ensures DecodeCommon(t, b, size).product == DecodeText(b, 0x10, size)
    ensures DecodeCommon(t, b, size).serial == DecodeText(b, 0x12, size)
  {
    hide DecodeText, Int16, Value, Nat;
  }

  lemma CommonKept(t: Settings, b: seq<byte>, chip: ChipType)
    requires |b| == 256 && |t.cbusFunction| == 10
    ensures var d := DecodeType(t, b, chip);
      && d.vendorId == t.vendorId && d.productId == t.productId && d.releaseNumber == t.releaseNumber
      && d.selfPowered == t.selfPowered && d.remoteWakeup == t.remoteWakeup && d.maxPower == t.maxPower
      && d.manufacturer == t.manufacturer && d.product == t.product && d.serial == t.serial && |d.cbusFunction| == 10
  {
    hide Value, Nat, GroupOf, Nibble, BitsToType, DecodePinsR;
  }

  lemma GroupsKept(t: Settings, b: seq<byte>, chip: ChipType)
    requires |b| == 256 && |t.cbusFunction| == 10 && (chip == Type2232H || chip == Type4232H)
    ensures var d, g := DecodeType(t, b, chip), DecodeGroups(t, b);
      d.group0 == g.group0 && d.group1 == g.group1 && d.group2 == g.group2 && d.group3 == g.group3
  {
    hide Value, Nat, GroupOf, BitsToType;
  }
}
