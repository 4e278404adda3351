/** The bytes of the EEPROM image that depend on the type of chip (the large switch of ftdi_eeprom_build). */
module EepromConfig {
  import opened Bits
  import opened EepromLayout
  import opened Octets

  /** Two images agree outside the given addresses. */
  ghost predicate OnlyAt(b: seq<byte>, c: seq<byte>, places: set<int>) {
    |b| == |c| == 256 && forall k :: 0 <= k < 256 && k !in places ==> c[k] == b[k]
  }

  /** The settings bytes as the builder starts with them: flags in 0x0A, the others empty. */
  ghost predicate Blank(b: seq<byte>, s: Settings, iso: bool, serial: bool) {
    && |b| == 256 && Flags(b[0x0A], s, iso, serial, false, false)
    && b[0x00] == 0 && b[0x01] == 0 && b[0x0B] == 0 && b[0x0C] == 0 && b[0x0D] == 0
  }

  /** `type2bit` */
  function TypeBits(mode: int, ft1284: bool): (r: byte)
    ensures r == Mode(mode, ft1284)
  {
    match mode % 256
    case 1 => 1
    case 2 => 2
    case 4 => 4
    case 8 => if ft1284 then 8 else 0
    case _ => 0
  }

  method ConfigureBM(buf: array<byte>, s: Settings)
    requires buf.Length == 256 && Blank(buf[..], s, true, true)
    modifies buf
    ensures LayoutBM(buf[..], s) && OnlyAt(old(buf[..]), buf[..], {0x0A, 0x0C, 0x0D})
  {
    buf[0x0C] := Byte(s.usbVersion);
    buf[0x0D] := Byte(s.usbVersion / 256);
    buf[0x0A] := With(buf[0x0A], USE_USB_VERSION_BIT, s.useUsbVersion == 0x10);
    hide Byte;
  }

  lemma ChannelSet(mode: int, vcp: bool, high: bool)
    ensures Channel2232C(With(With(TypeBits(mode, false), DRIVER_VCP, vcp), HIGH_CURRENT_DRIVE, high), mode, vcp, high)
  {
    hide TypeBits, Mode;
  }

  lemma FlagsSet(f: byte, s: Settings)
    requires Flags(f, s, true, true, false, false)
    ensures
      var g := With(With(f, 0x01, s.inIsIsochronous != 0), 0x02, s.outIsIsochronous != 0);
      var h := With(With(g, 0x04, s.suspendPullDowns != 0), USE_USB_VERSION_BIT, s.useUsbVersion == 0x10);
      Flags(h, s, true, true, true, true)
  {
  }

  method Configure2232C(buf: array<byte>, s: Settings)
    requires buf.Length == 256 && Blank(buf[..], s, true, true)
    modifies buf
    ensures Layout2232C(buf[..], s) && OnlyAt(old(buf[..]), buf[..], {0x00, 0x01, 0x0A, 0x0C, 0x0D, 0x14})
  {
    hide Byte, TypeBits, Mode, With, Flags;
    var a, b, f := TypeBits(s.channelAType, false), TypeBits(s.channelBType, false), buf[0x0A];
    a := With(With(a, DRIVER_VCP, s.channelADriver == 8), HIGH_CURRENT_DRIVE, s.highCurrentA == 0x10);
    b := With(With(b, DRIVER_VCP, s.channelBDriver == 8), HIGH_CURRENT_DRIVE, s.highCurrentB == 0x10);
    ChannelSet(s.channelAType, s.channelADriver == 8, s.highCurrentA == 0x10);
    ChannelSet(s.channelBType, s.channelBDriver == 8, s.highCurrentB == 0x10);
    FlagsSet(f, s);
    buf[0x00] := a;
    buf[0x01] := b;
    f := With(f, 0x01, s.inIsIsochronous != 0);
    f := With(f, 0x02, s.outIsIsochronous != 0);
    f := With(f, 0x04, s.suspendPullDowns != 0);
    f := With(f, USE_USB_VERSION_BIT, s.useUsbVersion == 0x10);
    buf[0x0A] := f;
    buf[0x0C] := Byte(s.usbVersion);
    buf[0x0D] := Byte(s.usbVersion / 256);
    buf[0x14] := Byte(s.chip);
  }

  method ConfigureR(buf: array<byte>, s: Settings)
    requires buf.Length == 256 && Blank(buf[..], s, true, true) && |s.cbusFunction| == 10
    modifies buf
    ensures LayoutR(buf[..], s)
    ensures OnlyAt(old(buf[..]), buf[..], {0x00, 0x01, 0x0A, 0x0B, 0x0C, 0x0D, 0x14, 0x15, 0x16})
  {
    hide Byte, With, Flags, Nibbles, Capped;
    if s.highCurrent == 4 {
      buf[0x00] := buf[0x00] | HIGH_CURRENT_DRIVE_R;
    }
    buf[0x01] := 0x40;
    SetPull(buf[0x0A], s);
    buf[0x0A] := With(buf[0x0A], 0x04, s.suspendPullDowns != 0);
    buf[0x0B] := Byte(s.invert);
    buf[0x0C] := Byte(s.usbVersion);
    buf[0x0D] := Byte(s.usbVersion / 256);
    WritePins(buf, s.cbusFunction);
  }

  /** The five pins, two to a byte. */
  method WritePins(buf: array<byte>, f: seq<int>)
    requires buf.Length == 256 && |f| == 10
    modifies buf
    ensures Nibbles(buf[0x14], Capped(f[0], 13, 3), Capped(f[1], 13, 2))
    ensures Nibbles(buf[0x15], Capped(f[2], 13, 0), Capped(f[3], 13, 1))
    ensures buf[0x16] == Byte(Capped(f[4], 9, 5)) && OnlyAt(old(buf[..]), buf[..], {0x14, 0x15, 0x16})
  {
    hide Byte, Capped;
    buf[0x14] := Byte(Capped(f[0], CBUS_BB, 3));
    buf[0x14] := buf[0x14] | (Byte(Capped(f[1], CBUS_BB, 2)) << 4);
    buf[0x15] := Byte(Capped(f[2], CBUS_BB, 0));
    buf[0x15] := buf[0x15] | (Byte(Capped(f[3], CBUS_BB, 1)) << 4);
    buf[0x16] := Byte(Capped(f[4], CBUS_CLK6, 5));
  }

  /** Two groups into an empty byte. */
  method WriteGroups(buf: array<byte>, at: nat, lo: Group, hi: Group)
    requires buf.Length == 256 && at < 256 && buf[at] == 0
    modifies buf
    ensures Groups(buf[at], lo, hi) && buf[..] == old(buf[..])[at := buf[at]]
  {
    hide GroupByte;
    WriteGroup(buf, at, lo, false);
    WriteGroup(buf, at, hi, true);
  }

  method WriteGroup(buf: array<byte>, at: nat, g: Group, high: bool)
    requires buf.Length == 256 && at < 256
    modifies buf
    ensures buf[at] == old(buf[at]) | (GroupByte(g) << if high then 4 else 0)
    ensures buf[..] == old(buf[..])[at := buf[at]]
  {
    hide Byte;
    var shift: bv4 := if high then 4 else 0;
    if g.drive > 3 {
      buf[at] := buf[at] | (DRIVE_16MA << shift);
    } else {
      buf[at] := buf[at] | (Byte(g.drive) << shift);
    }
    if g.schmitt == 8 {
      buf[at] := buf[at] | (IS_SCHMITT << shift);
    }
    if g.slew == 4 {
      buf[at] := buf[at] | (SLOW_SLEW << shift);
    }
  }

  method WriteChannels2232H(buf: array<byte>, s: Settings)
    requires buf.Length == 256
    modifies buf
    ensures Channels2232H(buf[0x00], buf[0x01], s)
    ensures buf[..] == old(buf[..])[0x00 := buf[0x00]][0x01 := buf[0x01]]
  {
    hide TypeBits, Mode;
    buf[0x00] := TypeBits(s.channelAType, false);
    buf[0x00] := With(buf[0x00], DRIVER_VCP, s.channelADriver == 8);
    buf[0x01] := TypeBits(s.channelBType, false);
    buf[0x01] := With(buf[0x01], DRIVER_VCP, s.channelBDriver == 8);
    buf[0x01] := With(buf[0x01], SUSPEND_DBUS7_BIT, s.suspendDbus7 == 0x80);
  }

  lemma SetPull(f: byte, s: Settings)
    requires Flags(f, s, true, true, false, false)
    ensures Flags(With(f, 0x04, s.suspendPullDowns != 0), s, true, true, true, false)
  {
  }

  method Configure2232H(buf: array<byte>, s: Settings)
    requires buf.Length == 256 && Blank(buf[..], s, true, true)
    modifies buf
    ensures Layout2232H(buf[..], s) && OnlyAt(old(buf[..]), buf[..], {0x00, 0x01, 0x0A, 0x0C, 0x0D, 0x18})
  {
    hide Byte, TypeBits, Groups, Flags, Channels2232H, With;
    WriteChannels2232H(buf, s);
    SetPull(buf[0x0A], s);
    buf[0x0A] := With(buf[0x0A], 0x04, s.suspendPullDowns != 0);
    WriteGroups(buf, 0x0C, s.group0, s.group1);
    WriteGroups(buf, 0x0D, s.group2, s.group3);
    buf[0x18] := Byte(s.chip);
  }

  method WriteChannels4232H(buf: array<byte>, s: Settings)
    requires buf.Length == 256 && buf[0x00] == 0 && buf[0x01] == 0 && buf[0x0B] == 0
    modifies buf
    ensures Channels4232H(buf[0x00], buf[0x01], buf[0x0B], s)
    ensures buf[..] == old(buf[..])[0x00 := buf[0x00]][0x01 := buf[0x01]][0x0B := buf[0x0B]]
  {
    buf[0x00] := With(buf[0x00], DRIVER_VCP, s.channelADriver == 8);
    buf[0x01] := With(buf[0x01], DRIVER_VCP, s.channelBDriver == 8);
    buf[0x00] := With(buf[0x00], DRIVER_VCP << 4, s.channelCDriver == 8);
    buf[0x01] := With(buf[0x01], DRIVER_VCP << 4, s.channelDDriver == 8);
    WriteRs485(buf, s);
  }

  method WriteRs485(buf: array<byte>, s: Settings)
    requires buf.Length == 256 && buf[0x0B] == 0
    modifies buf
    ensures buf[..] == old(buf[..])[0x0B := buf[0x0B]]
    ensures buf[0x0B] == Only(0x10, s.rs485A != 0) | Only(0x20, s.rs485B != 0) | Only(0x40, s.rs485C != 0)
      | Only(0x80, s.rs485D != 0)
  {
    buf[0x0B] := With(buf[0x0B], 0x10, s.rs485A != 0);
    buf[0x0B] := With(buf[0x0B], 0x20, s.rs485B != 0);
    buf[0x0B] := With(buf[0x0B], 0x40, s.rs485C != 0);
    buf[0x0B] := With(buf[0x0B], 0x80, s.rs485D != 0);
  }

  method Configure4232H(buf: array<byte>, s: Settings)
    requires buf.Length == 256 && Blank(buf[..], s, true, true)
    modifies buf
    ensures Layout4232H(buf[..], s) && OnlyAt(old(buf[..]), buf[..], {0x00, 0x01, 0x0A, 0x0B, 0x0C, 0x0D, 0x18})
  {
    hide Byte, Groups, Flags, Channels4232H, With;
    WriteChannels4232H(buf, s);
    SetPull(buf[0x0A], s);
    buf[0x0A] := With(buf[0x0A], 0x04, s.suspendPullDowns != 0);
    WriteGroups(buf, 0x0C, s.group0, s.group1);
    WriteGroups(buf, 0x0D, s.group2, s.group3);
    buf[0x18] := Byte(s.chip);
  }

  method WriteOneGroup(buf: array<byte>, at: nat, g: Group)
    requires buf.Length == 256 && at < 256 && buf[at] == 0
    modifies buf
    ensures buf[at] == GroupByte(g) && buf[..] == old(buf[..])[at := buf[at]]
  {
    hide GroupByte;
    WriteGroup(buf, at, g, false);
  }

  method WriteChannel232H(buf: array<byte>, s: Settings)
    requires buf.Length == 256 && buf[0x01] == 0
    modifies buf
    ensures Channel232H(buf[0x00], buf[0x01], s)
    ensures buf[..] == old(buf[..])[0x00 := buf[0x00]][0x01 := buf[0x01]]
  {
    hide TypeBits, Mode;
    buf[0x00] := TypeBits(s.channelAType, true);
    buf[0x00] := With(buf[0x00], DRIVER_VCPH, s.channelADriver == 8);
    buf[0x01] := With(buf[0x01], POWER_SAVE_DISABLE_H, s.powersave != 0);
    buf[0x01] := With(buf[0x01], FT1284_CLK_IDLE_STATE, s.clockPolarity != 0);
    buf[0x01] := With(buf[0x01], FT1284_DATA_LSB, s.dataOrder != 0);
    buf[0x01] := With(buf[0x01], FT1284_FLOW_CONTROL, s.flowControl != 0);
  }

  method Configure232H(buf: array<byte>, s: Settings)
    requires buf.Length == 256 && Blank(buf[..], s, true, true) && |s.cbusFunction| == 10
    modifies buf
    ensures Layout232H(buf[..], s)
    ensures OnlyAt(old(buf[..]), buf[..], {0x00, 0x01, 0x0A, 0x0C, 0x0D, 0x18, 0x19, 0x1A, 0x1B, 0x1C, 0x1E})
  {
    hide Byte, TypeBits, GroupByte, Nibbles, Flags, Channel232H, With;
    WriteChannel232H(buf, s);
    SetPull(buf[0x0A], s);
    buf[0x0A] := With(buf[0x0A], 0x04, s.suspendPullDowns != 0);
    WriteOneGroup(buf, 0x0C, s.group0);
    WriteOneGroup(buf, 0x0D, s.group1);
    WriteCbus(buf, s.cbusFunction);
    buf[0x1E] := Byte(s.chip);
  }

  /** set_ft232h_cbus */
  method WriteCbus(buf: array<byte>, f: seq<int>)
    requires buf.Length == 256 && |f| == 10
    modifies buf
    ensures forall k :: 0x18 <= k < 0x1D ==> PinPair(buf[k], f, 2 * (k - 0x18))
    ensures OnlyAt(old(buf[..]), buf[..], {0x18, 0x19, 0x1A, 0x1B, 0x1C})
  {
    hide Byte, Capped;
    for i := 0 to 5
      invariant forall k :: 0x18 <= k < 0x18 + i ==> PinPair(buf[k], f, 2 * (k - 0x18))
      invariant OnlyAt(old(buf[..]), buf[..], {0x18, 0x19, 0x1A, 0x1B, 0x1C})
    {
      var low, high := Capped(f[2 * i], CBUSH_CLK7_5, 0), Capped(f[2 * i + 1], CBUSH_CLK7_5, 0);
      buf[0x18 + i] := Byte(low) | (Byte(high) << 4);
    }
  }

  method Configure230X(buf: array<byte>, s: Settings)
    requires buf.Length == 256 && |s.cbusFunction| == 10
    modifies buf
    ensures Layout230X(buf[..], s)
    ensures OnlyAt(old(buf[..]), buf[..], {0x00, 0x0A, 0x0C, 0x1A, 0x1B, 0x1C, 0x1D, 0x1E, 0x1F, 0x20})
  {
    hide Byte;
    buf[0x00] := 0x80;
    buf[0x0A] := 0x08;
    buf[0x0C] := 0x01 | (0x3 << 4);
    for j := 0 to 7
      invariant forall k :: 0x1A <= k < 0x1A + j ==> buf[k] == Byte(s.cbusFunction[k - 0x1A])
      invariant buf[0x00] == 0x80 && buf[0x0A] == 0x08 && buf[0x0C] == 0x31
      invariant OnlyAt(old(buf[..]), buf[..], {0x00, 0x0A, 0x0C, 0x1A, 0x1B, 0x1C, 0x1D, 0x1E, 0x1F, 0x20})
    {
      buf[0x1A + j] := Byte(s.cbusFunction[j]);
    }
  }
}
