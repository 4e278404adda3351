/** The EEPROM image of an FTDI chip: the builder (ftdi_eeprom_build) and the decoder (ftdi_eeprom_decode). */
module Eeprom {
  import opened Bits
  import opened Checksum
  import opened EepromConfig
  import opened EepromDecode
  import opened EepromLayout
  import opened Octets

  class FtdiEeprom {
    const chipType: ChipType
    const buf: array<byte>
    var settings: Settings
    var size: int
    var initialized: bool

    ghost predicate Valid()
      reads this
    {
      && buf.Length == 256 && |settings.cbusFunction| == 10
      && (size == -1 || size == 0x80 || size == 0x100)
    }

    constructor (chipType: ChipType, settings: Settings, size: int)
      requires |settings.cbusFunction| == 10 && (size == -1 || size == 0x80 || size == 0x100)
      ensures Valid() && this.chipType == chipType && this.settings == settings && this.size == size && fresh(buf)
    {
      this.chipType, this.settings, this.size := chipType, settings, size;
      buf := new byte[256];
      initialized := false;
    }

    /** Build the image of the settings. */
    method Build() returns (r: int)
      requires Valid()
      modifies this`size, this`initialized, buf
      ensures Valid() && size == SizeOf(old(size), settings.chip)
      ensures r == if settings.chip == -1 then -6 else if UserAreaLeft(chipType, settings) < 0 then -1
        else UserAreaLeft(chipType, settings)
      ensures r < 0 ==> buf[..] == old(buf[..]) && initialized == old(initialized)
      ensures r >= 0 ==> initialized && size > 0 && Built(buf[..], settings, chipType, size)
    {
      if settings.chip == -1 { return -6; }
      if size == -1 {
        size := if settings.chip == 0x56 || settings.chip == 0x66 then 0x100 else 0x80;
      }
      r := UserArea();
      r := r - 2 * (|Text(settings.manufacturer)| + |Text(settings.product)| + |Text(settings.serial)|);
      if r < 0 { return -1; }
      assert size == 0x80 || size == 0x100;
      hide Built, UserAreaLeft;
      WriteImage();
      initialized := true;
    }

    /** The bytes that the strings may use. */
    method UserArea() returns (n: int)
      ensures n == 2 * Room(chipType)
    {
      match chipType {
        case TypeAM | TypeBM => n := 96;
        case Type2232C => n := 90;
        case TypeR | Type230X => n := 88;
        case Type2232H | Type4232H => n := 86;
        case Type232H => n := 80;
      }
    }

    method WriteImage()
      requires Valid() && size > 0 && UserAreaLeft(chipType, settings) >= 0
      modifies buf
      ensures Built(buf[..], settings, chipType, size)
    {
      assert (size == 0x80 || size == 0x100) && |settings.cbusFunction| == 10;
      hide *;
      Clear();
      WriteHeader();
      ghost var b0 := buf[..];
      WriteStrings();
      ghost var b1 := buf[..];
      FlagsCarried(b0, b1, settings, chipType, size);
      UseSerial(b0);
      ghost var b2 := buf[..];
      StillBlank(b0, b1, b2, settings, chipType, size);
      Configure();
      Assembled(b0, b1, b2, buf[..], settings, chipType, size);
      Seal();
    }

    /** An empty image; the middle of the memory of an FT230X cannot be written. */
    method Clear()
      requires Valid()
      modifies buf
      ensures buf.Length == 256 && forall k :: 0 <= k < 256 && !Reserved(k, chipType) ==> buf[k] == 0
    {
      if chipType == Type230X {
        forall k | 0 <= k < 0x80 { buf[k] := 0; }
        forall k | 0xA0 <= k < 256 { buf[k] := 0; }
      } else {
        forall k | 0 <= k < 256 { buf[k] := 0; }
      }
    }

    method WriteHeader()
      requires Valid() && forall k :: 0 <= k < 256 && !Reserved(k, chipType) ==> buf[k] == 0
      modifies buf
      ensures Header(buf[..], settings) && Blank(buf[..], settings, HasIso(chipType), false)
      ensures EmptyFromHeader(buf[..], chipType)
    {
      assert buf.Length == 256;
      hide *;
      WriteIds();
      ghost var b := buf[..];
      WriteFlags();
      HeaderWritten(b, buf[..], settings, chipType);
    }

    method WriteIds()
      requires Valid() && forall k :: 0 <= k < 256 && !Reserved(k, chipType) ==> buf[k] == 0
      modifies buf
      ensures EmptyFromHeader(buf[..], chipType) && Ids(buf[..], settings) && buf[0x0A] == 0
    {
      hide Byte;
      var s := settings;
      buf[0x02] := Byte(s.vendorId);
      buf[0x03] := Byte(s.vendorId / 256);
      buf[0x04] := Byte(s.productId);
      buf[0x05] := Byte(s.productId / 256);
      buf[0x06] := Byte(s.releaseNumber);
      buf[0x07] := Byte(s.releaseNumber / 256);
      buf[0x09] := Byte(Half(s.maxPower));
    }

    /** The flags of the bytes 0x08 and 0x0A that come first. */
    method WriteFlags()
      requires Valid() && buf[0x0A] == 0
      modifies buf
      ensures buf[0x08] == 0x80 | Only(0x40, settings.selfPowered != 0) | Only(0x20, settings.remoteWakeup != 0)
      ensures Flags(buf[0x0A], settings, HasIso(chipType), false, false, false)
      ensures buf[..] == old(buf[..])[0x08 := buf[0x08]][0x0A := buf[0x0A]]
    {
      var s := settings;
      var j: byte := 0x80;
      if s.selfPowered != 0 { j := j | 0x40; }
      if s.remoteWakeup != 0 { j := j | 0x20; }
      buf[0x08] := j;
      if chipType != TypeAM && chipType != Type230X {
        j := 0;
        if s.inIsIsochronous != 0 { j := j | 1; }
        if s.outIsIsochronous != 0 { j := j | 2; }
        buf[0x0A] := j;
      }
    }

    /** The serial number flag, on every chip but the AM. */
    method UseSerial(ghost b0: seq<byte>)
      requires Valid() && |b0| == 256 && Flags(b0[0x0A], settings, HasIso(chipType), false, false, false)
      requires buf[0x0A] == b0[0x0A]
      modifies buf
      ensures buf[..] == old(buf[..])[0x0A := buf[0x0A]]
      ensures Flags(buf[0x0A], settings, HasIso(chipType), chipType != TypeAM, false, false)
    {
      if chipType != TypeAM {
        buf[0x0A] := With(buf[0x0A], USE_SERIAL_NUM, settings.useSerial != 0);
      }
    }

    /** The settings that depend on the chip. */
    method Configure()
      requires Valid() && size > 0
      requires chipType != Type230X ==> Blank(buf[..], settings, HasIso(chipType), chipType != TypeAM)
      modifies buf
      ensures Layout(buf[..], settings, chipType) && OnlyAt(old(buf[..]), buf[..], Places(chipType))
    {
      hide Blank, LayoutBM, Layout2232C, LayoutR, Layout2232H, Layout4232H, Layout232H, Layout230X;
      match chipType {
        case TypeAM =>
          assert Flags(buf[0x0A], settings, false, false, false, false) by { BlankFlags(buf[..], settings); }
        case TypeBM => ConfigureBM(buf, settings);
        case Type2232C => Configure2232C(buf, settings);
        case TypeR => ConfigureR(buf, settings);
        case Type2232H => Configure2232H(buf, settings);
        case Type4232H => Configure4232H(buf, settings);
        case Type232H => Configure232H(buf, settings);
        case Type230X => Configure230X(buf, settings);
      }
    }

    /** Compute the checksum and put it into the last two bytes. */
    method Seal()
      requires Valid() && size > 0 && Ready(buf[..], settings, chipType, size) && UserAreaLeft(chipType, settings) >= 0
      modifies buf
      ensures Built(buf[..], settings, chipType, size)
    {
      hide Ready, Built, Passes;
      ghost var b := buf[..];
      var checksum := ComputeChecksum(buf, size, chipType == Type230X);
      buf[size - 2] := Low(checksum);
      buf[size - 1] := High(checksum);
      Sealed(b, buf[..], settings, chipType, size, checksum);
    }

    /** Read the settings back from the image. Settings that every chip has are set even when the checksum is wrong. */
    method Decode() returns (r: int)
      requires Valid() && size > 0 && StringsInside(buf[..], size)
      modifies this`settings
      ensures Valid() && (r == 0 || r == -1)
      ensures r == 0 <==> Passes(buf[..], size, chipType == Type230X)
      ensures settings == if r == 0 then Decoded(old(settings), buf[..], chipType, size)
        else DecodeCommon(old(settings), buf[..], size)
    {
      DecodeSettings();
      hide DecodeCommon, DecodeType, StringsInside, Word, Sum;
      var checksum := ComputeChecksum(buf, size, chipType == Type230X);
      if Word(buf[size - 2], buf[size - 1]) != checksum { return -1; }
      DecodeChip();
      return 0;
    }

    method DecodeSettings()
      requires Valid() && size > 0 && StringsInside(buf[..], size)
      modifies this`settings
      ensures Valid() && settings == DecodeCommon(old(settings), buf[..], size)
    {
      var manufacturer := ReadString(0x0E);
      var product := ReadString(0x10);
      var serial := ReadString(0x12);
      hide Nat, Value, Int16, DecodeText, EntryInside;
      settings := settings.(
        vendorId := Int16(buf[..], 0x02), productId := Int16(buf[..], 0x04), releaseNumber := Int16(buf[..], 0x06),
        selfPowered := Value(buf[0x08], 0x40), remoteWakeup := Value(buf[0x08], 0x20), maxPower := 2 * Nat(buf[0x09]),
        inIsIsochronous := Value(buf[0x0A], 0x01), outIsIsochronous := Value(buf[0x0A], 0x02),
        suspendPullDowns := Value(buf[0x0A], 0x04),
        useSerial := if buf[0x0A] & USE_SERIAL_NUM != 0 then 1 else 0,
        useUsbVersion := Value(buf[0x0A], USE_USB_VERSION_BIT), usbVersion := Int16(buf[..], 0x0C),
        manufacturer := manufacturer, product := product, serial := serial);
    }

    method DecodeChip()
      requires Valid()
      modifies this`settings
      ensures Valid() && settings == DecodeType(old(settings).(channelAType := 0), buf[..], chipType)
    {
      CommonKept(settings.(channelAType := 0), buf[..], chipType);
      hide DecodeType;
      settings := DecodeType(settings.(channelAType := 0), buf[..], chipType);
    }

    /** The loop over the characters of one string. */
    method ReadString(pos: nat) returns (t: Option<seq<byte>>)
      requires Valid() && size > 0 && pos + 1 < 256 && EntryInside(buf[..], pos, size)
      ensures t == DecodeText(buf[..], pos, size)
    {
      var n := Nat(buf[pos + 1]) / 2;
      if n == 0 { return None; }
      var i := Address(Nat(buf[pos]), size);
      hide Nat, Address;
      var s: seq<byte>, j := [], 0;
      while j < n - 1
        invariant 0 <= j <= n - 1 && |s| == j && forall k :: 0 <= k < j ==> s[k] == buf[2 * k + i + 2]
      {
        s := s + [buf[2 * j + i + 2]];
        j := j + 1;
      }
      assert s == DecodeText(buf[..], pos, size).value;
      return Some(s);
    }

    /** Build an image and decode it again. */
    method BuildAndDecode() returns (built: int, decoded: int)
      requires Valid()
      modifies this`size, this`initialized, this`settings, buf
      ensures Valid()
      ensures built >= 0 <==> old(settings.chip) != -1 && UserAreaLeft(chipType, old(settings)) >= 0
      ensures built >= 0 ==> decoded == 0 && Recovers(old(settings), settings, chipType)
    {
      hide UserAreaLeft, Built, Recovers, StringsInside, Passes, Decoded;
      built := Build();
      if built < 0 { return built, -1; }
      RoundTrip(buf[..], settings, settings, chipType, size);
      decoded := Decode();
    }

    /** One byte at offset `i`; offsets from 0x80 on are the addresses of the last `size` bytes before 0x100. */
    method Put(i: nat, v: byte) returns (next: nat)
      requires Valid() && size > 0 && i < 0x100
      modifies buf
      ensures next == Next(i) && buf[..] == old(buf[..])[Address(i, size) := v]
      ensures Outside(old(buf[..]), buf[..], Address(i, size), Address(i, size) + 1)
    {
      buf[Address(i, size)] := v;
      next := Next(i);
    }

    /** One string descriptor at offset `i`; `next` is the offset behind it. */
    method WriteString(i: nat, t: seq<byte>) returns (next: nat)
      requires Valid() && size > 0 && 0x80 <= i && i + 2 + 2 * |t| <= 0xFE
      modifies buf
      ensures next == i + 2 + 2 * |t|
      ensures Descriptor(buf[..], Address(i, size), t)
      ensures Outside(old(buf[..]), buf[..], Address(i, size), Address(i, size) + 2 + 2 * |t|)
    {
      HighAddress(i, size);
      HighAddress(i + 1, size);
      HighAddress(i + 2, size);
      hide Address, Byte, Outside, Characters, Descriptor;
      ghost var b0, at := buf[..], Address(i, size);
      next := Put(i, Byte(2 * |t| + 2));
      ghost var b1 := buf[..];
      next := Put(next, 0x03);
      ghost var b2 := buf[..];
      next := WriteCharacters(next, t);
      Described(b0, b1, b2, buf[..], at, t);
    }

    /** The three strings with their table at 0x0E, and what follows them on newer chips. */
    method WriteStrings()
      requires Valid() && size > 0 && UserAreaLeft(chipType, settings) >= 0
      modifies buf
      ensures StringTable(buf[..], chipType, settings)
      ensures StringArea(buf[..], chipType, settings, size, false) && PnPBytes(buf[..], chipType, settings, size)
      ensures StringsOnly(old(buf[..]), buf[..], chipType, settings, size)
    {
      OffsetsFit(chipType, settings);
      assert buf.Length == 256 && (size == 0x80 || size == 0x100);
      hide *;
      ghost var b0 := buf[..];
      var s := settings;
      var i := FirstOffset();
      ghost var o1, o2, b1, b2;
      i, o1, o2, b1, b2 := WriteThreeStrings(i, Text(s.manufacturer), Text(s.product), Text(s.serial));
      ghost var b3 := buf[..];
      assert o1 == Offset1(chipType, s) && o2 == Offset2(chipType, s) && i == Offset3(chipType, s);
      WritePnP(i);
      StringsWritten(b0, b1, b2, b3, buf[..], chipType, settings, size);
    }

    /** Where the strings start. */
    method FirstOffset() returns (i: nat)
      ensures i == Start(chipType)
    {
      if chipType == Type232H || chipType == Type230X { return 0xA0; }
      i := 0;
      if chipType == Type2232H || chipType == Type4232H { i := i + 2; }
      if chipType != TypeAM && chipType != TypeBM && chipType != Type2232C { i := i + 2; }
      if chipType != TypeAM && chipType != TypeBM { i := i + 2; }
      i := i + 0x94;
    }

    method WriteThreeStrings(start: nat, t0: seq<byte>, t1: seq<byte>, t2: seq<byte>)
      returns (i: nat, ghost o1: nat, ghost o2: nat, ghost b1: seq<byte>, ghost b2: seq<byte>)
      requires Valid() && size > 0 && 0x94 <= start && start + 2 * (|t0| + |t1| + |t2|) + 6 <= 0xFE
      modifies buf
      ensures o1 == start + 2 + 2 * |t0| && o2 == o1 + 2 + 2 * |t1| && i == o2 + 2 + 2 * |t2|
      ensures Entry(old(buf[..]), b1, 0x0E, start, Address(start, size), t0)
      ensures Entry(b1, b2, 0x10, o1, Address(o1, size), t1)
      ensures Entry(b2, buf[..], 0x12, o2, Address(o2, size), t2)
    {
      assert size == 0x80 || size == 0x100;
      hide Valid, Address, Entry;
      i := start;
      i := WriteEntry(0x0E, i, i, t0);
      b1, o1 := buf[..], i;
      i := WriteEntry(0x10, HighBit(i), i, t1);
      b2, o2 := buf[..], i;
      i := WriteEntry(0x12, HighBit(i), i, t2);
    }

    /** A string and its entry in the table. */
    method WriteEntry(pos: nat, recorded: nat, i: nat, t: seq<byte>) returns (next: nat)
      requires Valid() && size > 0 && 0x0E <= pos <= 0x12 && 0x94 <= i && i + 2 + 2 * |t| <= 0xFE && recorded < 0x100
      modifies buf
      ensures next == i + 2 + 2 * |t|
      ensures Entry(old(buf[..]), buf[..], pos, recorded, Address(i, size), t)
    {
      HighAddress(i, size);
      hide Address, Outside, Descriptor;
      ghost var b0, at := buf[..], Address(i, size);
      buf[pos] := Byte(recorded);
      ghost var b1 := buf[..];
      next := WriteString(i, t);
      ghost var b2 := buf[..];
      buf[pos + 1] := Byte(2 * |t| + 2);
      One(b0, pos, Byte(recorded));
      One(b2, pos + 1, Byte(2 * |t| + 2));
      assert b1 == b0[pos := Byte(recorded)] && buf[..] == b2[pos + 1 := Byte(2 * |t| + 2)];
      EntryWritten(b0, b1, b2, buf[..], pos, recorded, at, t);
    }

    /** The port name and PnP bytes that newer chips have behind the strings. On an FT230X whose user area is full
        they run into the checksum and around to address 0. */
    method WritePnP(i: nat)
      requires Valid() && size > 0 && 0x94 <= i <= 0xFE && (chipType != Type230X ==> i < 0xFD)
      modifies buf
      ensures PnPWritten(old(buf[..]), buf[..], i, chipType, size, Byte(settings.isNotPnp))
    {
      InMemory(i, size);
      InMemory(Next(i), size);
      InMemory(Next(Next(i)), size);
      hide Address, Byte, Outside;
      if chipType != TypeAM && chipType != TypeBM {
        var next := Put(i, 0x02);
        next := Put(next, 0x03);
        next := Put(next, Byte(settings.isNotPnp));
      }
    }

    method WriteCharacters(i: nat, t: seq<byte>) returns (next: nat)
      requires Valid() && size > 0 && 0x82 <= i && i + 2 * |t| <= 0xFE
      modifies buf
      ensures next == i + 2 * |t|
      ensures Characters(buf[..], Address(i, size), t)
      ensures Outside(old(buf[..]), buf[..], Address(i, size), Address(i, size) + 2 * |t|)
    {
      ghost var at := Address(i, size);
      HighAddress(i, size);
      hide *;
      next := i;
      NoCharacters(buf[..], at, at + 2 * |t|);
      var j := 0;
      while j < |t|
        invariant 0 <= j <= |t| && next == i + 2 * j
        invariant Characters(buf[..], at, t[..j])
        invariant Outside(old(buf[..]), buf[..], at, at + 2 * |t|)
      {
        HighAddress(next, size);
        HighAddress(next + 1, size);
        ghost var b0 := buf[..];
        next := Put(next, t[j]);
        ghost var b1 := buf[..];
        next := Put(next, 0x00);
        OneMore(old(buf[..]), b0, b1, buf[..], at, t, j);
        j := j + 1;
      }
      assert t[..j] == t;
    }
  }

  /** The size that is built for, when none was set. */
  function SizeOf(size: int, chip: int): int {
    if chip == -1 || size != -1 then size else if chip == 0x56 || chip == 0x66 then 0x100 else 0x80
  }

  predicate HasIso(chip: ChipType) { chip != TypeAM && chip != Type230X }

  /** What the header leaves empty. */
  ghost predicate EmptyFromHeader(b: seq<byte>, chip: ChipType) {
    |b| == 256 && forall k :: 0 <= k < 256 && !(2 <= k <= 9) && k != 0x0A && !Reserved(k, chip) ==> b[k] == 0
  }

  ghost predicate Ids(b: seq<byte>, s: Settings)
    requires |b| == 256
  {
    && b[0x02] == Byte(s.vendorId) && b[0x03] == Byte(s.vendorId / 256)
    && b[0x04] == Byte(s.productId) && b[0x05] == Byte(s.productId / 256)
    && b[0x06] == Byte(s.releaseNumber) && b[0x07] == Byte(s.releaseNumber / 256)
    && b[0x09] == Byte(Half(s.maxPower))
  }

  lemma HeaderWritten(b: seq<byte>, c: seq<byte>, s: Settings, chip: ChipType)
    requires |c| == 256 && EmptyFromHeader(b, chip) && Ids(b, s) && c == b[0x08 := c[0x08]][0x0A := c[0x0A]]
    requires c[0x08] == 0x80 | Only(0x40, s.selfPowered != 0) | Only(0x20, s.remoteWakeup != 0)
    requires Flags(c[0x0A], s, HasIso(chip), false, false, false)
    ensures Header(c, s) && Blank(c, s, HasIso(chip), false) && EmptyFromHeader(c, chip)
  {
    hide Byte, Flags, HasIso, Half, Only;
  }

  lemma FlagsCarried(b0: seq<byte>, b1: seq<byte>, s: Settings, chip: ChipType, size: nat)
    requires |b0| == |b1| == 256 && (size == 0x80 || size == 0x100)
    requires Blank(b0, s, HasIso(chip), false) && StringsOnly(b0, b1, chip, s, size)
    ensures b1[0x0A] == b0[0x0A] && Flags(b0[0x0A], s, HasIso(chip), false, false, false)
  {
    FirstAddress(chip, size);
    hide Flags, HasIso, Address, Offset3;
  }

  lemma BlankFlags(b: seq<byte>, s: Settings)
    requires Blank(b, s, false, false)
    ensures Flags(b[0x0A], s, false, false, false, false)
  {
  }

  predicate Damaged(chip: ChipType, size: nat) { chip == Type230X && size == 0x80 }

  /** What the settings of a chip may touch. */
  ghost predicate ConfigOnly(b: seq<byte>, c: seq<byte>, chip: ChipType, size: nat)
    requires size > 0
  {
    && |b| == |c| == 256
    && forall k :: 0 <= k < 256 && Spared(k, Address(Start(chip), size), Damaged(chip, size)) ==> c[k] == b[k]
  }

  /** The addresses that hold ids, table and strings, which start at `first`. */
  predicate Spared(k: int, first: int, damaged: bool) {
    2 <= k <= 9 || 0x0E <= k < 0x14 || k > first || (k == first && !damaged)
  }

  /** An image without its checksum. */
  ghost predicate Ready(b: seq<byte>, s: Settings, chip: ChipType, size: nat)
    requires |b| == 256 && |s.cbusFunction| == 10
  {
    && Image(b, size) && Header(b, s) && Layout(b, s, chip)
    && StringTable(b, chip, s) && StringArea(b, chip, s, size, Damaged(chip, size))
    && PnPBytes(b, chip, s, size) && EmptyElsewhere(b, chip, s, size)
  }

  lemma StillBlank(b0: seq<byte>, b1: seq<byte>, b2: seq<byte>, s: Settings, chip: ChipType, size: nat)
    requires |b0| == |b1| == |b2| == 256 && (size == 0x80 || size == 0x100)
    requires Blank(b0, s, HasIso(chip), false) && StringsOnly(b0, b1, chip, s, size) && b2 == b1[0x0A := b2[0x0A]]
    requires Flags(b2[0x0A], s, HasIso(chip), chip != TypeAM, false, false)
    ensures chip != Type230X ==> Blank(b2, s, HasIso(chip), chip != TypeAM)
  {
    FirstAddress(chip, size);
    hide Flags, HasIso, Address, Offset3;
  }

  lemma FirstAddress(chip: ChipType, size: nat)
    requires size == 0x80 || size == 0x100
    ensures 0x14 <= Address(Start(chip), size) <= 0xA0 && (chip == Type230X ==> Address(Start(chip), size) >= 0x20)
    ensures chip == Type230X && size == 0x100 ==> Address(Start(chip), size) == 0xA0
  {
    HighAddress(Start(chip), size);
  }

  lemma HeaderKept(b: seq<byte>, c: seq<byte>, s: Settings)
    requires |b| == |c| == 256 && Header(b, s) && forall k :: 2 <= k <= 9 ==> c[k] == b[k]
    ensures Header(c, s)
  {
    hide Byte;
  }

  lemma TableKept(b: seq<byte>, c: seq<byte>, s: Settings, chip: ChipType)
    requires |b| == |c| == 256 && StringTable(b, chip, s) && forall k :: 0x0E <= k < 0x14 ==> c[k] == b[k]
    ensures StringTable(c, chip, s)
  {
    hide Byte;
  }

  lemma AreaKept(b: seq<byte>, c: seq<byte>, s: Settings, chip: ChipType, size: nat, before: bool, after: bool)
    requires Image(b, size) && |c| == 256 && StringArea(b, chip, s, size, before) && (before ==> after)
    requires UserAreaLeft(chip, s) >= 0
    requires forall k :: 0 <= k < size - 2 && Spared(k, Address(Start(chip), size), after) && k >= 0x14 ==> c[k] == b[k]
    ensures StringArea(c, chip, s, size, after)
  {
    AddressesFit(chip, s, size);
    OffsetsFit(chip, s);
    HighAddress(Offset3(chip, s), size);
    hide Address, Start, Offset1, Offset2, Offset3, Text, UserAreaLeft, StringsAt, Spared;
    StringsAtKept(b, c, size - 2, Address(Start(chip), size), Address(Offset1(chip, s), size),
      Address(Offset2(chip, s), size),
                  Text(s.manufacturer), Text(s.product), Text(s.serial), before, after);
  }

  lemma StringsAtKept(b: seq<byte>, c: seq<byte>, end: int, a0: int, a1: int, a2: int, t0: seq<byte>, t1: seq<byte>,
                      t2: seq<byte>,
                      before: bool, after: bool)
    requires |b| == |c| && StringsAt(b, a0, a1, a2, t0, t1, t2, before) && (before ==> after)
    requires 0x14 <= a0 && a0 + 2 + 2 * |t0| == a1 && a1 + 2 + 2 * |t1| == a2 && a2 + 2 + 2 * |t2| <= end <= |b|
    requires forall k :: 0 <= k < end && Spared(k, a0, after) && k >= 0x14 ==> c[k] == b[k]
    ensures StringsAt(c, a0, a1, a2, t0, t1, t2, after)
  {
    hide Byte;
    assert forall k :: a0 < k < end ==> c[k] == b[k];
    hide Spared;
    DescriptorKept(b, c, a1, t1);
    DescriptorKept(b, c, a2, t2);
    CharactersKept(b, c, a0 + 2, t0);
    hide Descriptor, Characters;
    assert !after ==> c[a0] == b[a0];
  }

  lemma CharactersKept(b: seq<byte>, c: seq<byte>, at: int, t: seq<byte>)
    requires |b| == |c| && Characters(b, at, t) && forall k :: at <= k < at + 2 * |t| ==> c[k] == b[k]
    ensures Characters(c, at, t)
  {
    forall j | 0 <= j < |t| ensures c[at + 2 * j] == t[j] && c[at + 2 * j + 1] == 0 {
      assert c[at + 2 * j] == b[at + 2 * j] && c[at + 2 * j + 1] == b[at + 2 * j + 1];
    }
  }

  lemma LayoutKept(b: seq<byte>, c: seq<byte>, s: Settings, chip: ChipType)
    requires |b| == |c| == 256 && |s.cbusFunction| == 10 && Layout(b, s, chip) && forall k :: 0 <= k <= 0x20 ==>
      c[k] == b[k]
    ensures Layout(c, s, chip)
  {
    hide Flags, Groups, Nibbles, Channels2232H, Channels4232H, Channel232H, Byte, TypeBits, Only, GroupOf, Stored,
      Capped;
  }

  /** The parts of the image that the steps of the builder write do not overlap. */
  lemma Assembled(b0: seq<byte>, b1: seq<byte>, b2: seq<byte>, b3: seq<byte>, s: Settings, chip: ChipType, size: nat)
    requires |b0| == |b1| == |b2| == |b3| == 256 && (size == 0x80 || size == 0x100) && |s.cbusFunction| == 10
    requires UserAreaLeft(chip, s) >= 0
    requires Header(b0, s) && EmptyFromHeader(b0, chip) && StringsOnly(b0, b1, chip, s, size)
    requires StringTable(b1, chip, s) && StringArea(b1, chip, s, size, false) && PnPBytes(b1, chip, s, size)
    requires b2 == b1[0x0A := b2[0x0A]] && OnlyAt(b2, b3, Places(chip)) && Layout(b3, s, chip)
    ensures Ready(b3, s, chip, size)
  {
    ConfigSpares(b2, b3, chip, size);
    StringsBelow(b0, b1, chip, s, size);
    Untouched(b0, b1, b2, b3, chip, size);
    EmptyStays(b0, b1, b2, b3, s, chip, size);
    hide Header, Layout, StringTable, StringArea, UserAreaLeft, Address, Start, StringsOnly, ConfigOnly, Spared, OnlyAt,
      PnPBytes, EmptyElsewhere, EmptyFromHeader, SameBut, Places;
    HeaderKept(b0, b3, s);
    TableKept(b1, b3, s, chip);
    AreaKept(b1, b3, s, chip, size, false, Damaged(chip, size));
    PnPKept(b1, b3, s, chip, size);
  }

  /** The settings of a chip stay out of ids, table and strings. */
  lemma ConfigSpares(b: seq<byte>, c: seq<byte>, chip: ChipType, size: nat)
    requires (size == 0x80 || size == 0x100) && OnlyAt(b, c, Places(chip))
    ensures ConfigOnly(b, c, chip, size)
  {
    var a := Address(Start(chip), size);
    HighAddress(Start(chip), size);
    hide Address;
    forall k | 0 <= k < 256 && Spared(k, a, Damaged(chip, size)) ensures c[k] == b[k] {
      assert k !in Places(chip);
    }
  }

  lemma StringsBelow(b: seq<byte>, c: seq<byte>, chip: ChipType, s: Settings, size: nat)
    requires (size == 0x80 || size == 0x100) && StringsOnly(b, c, chip, s, size)
    ensures SameBut(b, c, Address(Start(chip), size), chip == Type230X)
  {
    FirstAddress(chip, size);
    hide Address, Start, Offset3;
  }

  lemma EmptyStays(b0: seq<byte>, b1: seq<byte>, b2: seq<byte>, b3: seq<byte>, s: Settings, chip: ChipType, size: nat)
    requires |b0| == |b1| == |b2| == |b3| == 256 && size > 0
    requires EmptyFromHeader(b0, chip) && StringsOnly(b0, b1, chip, s, size)
    requires b2 == b1[0x0A := b2[0x0A]] && OnlyAt(b2, b3, Places(chip))
    ensures EmptyElsewhere(b3, chip, s, size)
  {
    hide Address, Start, Offset3;
    assert 0x0A in Places(chip) && (chip == Type230X ==> 0 in Places(chip));
    hide Places;
    forall k | 0 <= k < 256 && Unused(k, chip, s, size) ensures b3[k] == 0 {
      assert Beside(k, chip, s, size) && k != 0x0A;
      assert b3[k] == b2[k] == b1[k] == b0[k];
    }
  }

  lemma PnPKept(b: seq<byte>, c: seq<byte>, s: Settings, chip: ChipType, size: nat)
    requires Image(b, size) && |c| == 256 && UserAreaLeft(chip, s) >= 0 && PnPBytes(b, chip, s, size)
    requires forall k :: 0x14 <= k < size - 2 && Spared(k, Address(Start(chip), size), Damaged(chip, size)) ==>
      c[k] == b[k]
    ensures PnPBytes(c, chip, s, size)
  {
    AddressesFit(chip, s, size);
    PnPPlaces(Offset3(chip, s), size);
    var a0, a3 := Address(Start(chip), size), Address(Offset3(chip, s), size);
    SparedEnd(a0, a3, chip, size);
    assert PnPBytes(b, chip, s, size) && 0x80 <= Offset3(chip, s) <= 0xFE && a0 < a3;
    hide *;
    assert forall k :: a3 <= k < size - 2 ==> c[k] == b[k];
    PnPSame(b, c, s, chip, size);
  }

  lemma PnPSame(b: seq<byte>, c: seq<byte>, s: Settings, chip: ChipType, size: nat)
    requires Image(b, size) && |c| == 256 && PnPBytes(b, chip, s, size) && 0x80 <= Offset3(chip, s) <= 0xFE
    requires
      var i := Offset3(chip, s);
      var a := Address(i, size);
      && 0 <= a == i - (0x100 - size) && Address(i + 1, size) == a + 1 && (i <= 0xFD ==> Address(i + 2, size) == a + 2)
      && forall k :: a <= k < size - 2 ==> c[k] == b[k]
    ensures PnPBytes(c, chip, s, size)
  {
    hide Address, Offset3, Byte;
  }

  lemma SparedEnd(a0: int, a3: int, chip: ChipType, size: nat)
    ensures a0 < a3 ==> forall k :: a3 <= k < size - 2 ==> Spared(k, a0, Damaged(chip, size))
  {
  }

  lemma Untouched(b0: seq<byte>, b1: seq<byte>, b2: seq<byte>, b3: seq<byte>, chip: ChipType, size: nat)
    requires |b0| == |b1| == |b2| == |b3| == 256 && (size == 0x80 || size == 0x100)
    requires SameBut(b0, b1, Address(Start(chip), size), chip == Type230X)
    requires b2 == b1[0x0A := b2[0x0A]] && ConfigOnly(b2, b3, chip, size)
    ensures forall k :: 2 <= k <= 9 ==> b3[k] == b0[k]
    ensures forall k :: 0x0E <= k < 0x14 ==> b3[k] == b1[k]
    ensures forall k :: 0x14 <= k < size - 2 && Spared(k, Address(Start(chip), size), Damaged(chip, size)) ==>
      b3[k] == b1[k]
  {
    FirstAddress(chip, size);
    hide Address, Start;
    assert forall k :: 0 <= k < 256 && k != 0x0A ==> b2[k] == b1[k];
  }

  lemma SumKept(b: seq<byte>, c: seq<byte>, size: nat, skips: bool)
    requires Image(b, size) && |c| == 256 && forall k :: 0 <= k < 256 && k != size - 2 && k != size - 1 ==> c[k] == b[k]
    ensures Sum(c, size, skips) == Sum(b, size, skips)
  {
    hide Word, Fold;
    assert Words(c, size, skips) == Words(b, size, skips);
  }

  lemma Sealed(b: seq<byte>, c: seq<byte>, s: Settings, chip: ChipType, size: nat, checksum: word)
    requires |b| == 256 && |s.cbusFunction| == 10 && Ready(b, s, chip, size) && UserAreaLeft(chip, s) >= 0
    requires checksum == Sum(b, size, chip == Type230X) && c == b[size - 2 := Low(checksum)][size - 1 := High(checksum)]
    ensures Built(c, s, chip, size)
  {
    hide Header, Layout, StringTable, StringArea, UserAreaLeft, Low, High, Sum, Word, Spared, PnPBytes, EmptyElsewhere;
    HeaderKept(b, c, s);
    PnPKept(b, c, s, chip, size);
    EmptyKept(b, c, s, chip, size);
    TableKept(b, c, s, chip);
    AreaKept(b, c, s, chip, size, Damaged(chip, size), Damaged(chip, size));
    LayoutKept(b, c, s, chip);
    SumKept(b, c, size, chip == Type230X);
    WordOfBytes(checksum);
  }

  lemma EmptyKept(b: seq<byte>, c: seq<byte>, s: Settings, chip: ChipType, size: nat)
    requires |b| == |c| == 256 && size > 0 && EmptyElsewhere(b, chip, s, size)
    requires forall k :: 0 <= k < 256 && k != size - 2 && k != size - 1 ==> c[k] == b[k]
    ensures EmptyElsewhere(c, chip, s, size)
  {
    hide Address, Start, Offset3, Places;
  }

  /** What writing a table entry and its string does. */
  ghost predicate Entry(b: seq<byte>, c: seq<byte>, pos: nat, recorded: nat, at: int, t: seq<byte>) {
    && |b| == |c| == 256 && pos + 1 < at && Descriptor(c, at, t)
    && c[pos] == Byte(recorded) && c[pos + 1] == Byte(2 * |t| + 2)
    && forall k :: 0 <= k < 256 && k != pos && k != pos + 1 && !(at <= k < at + 2 + 2 * |t|) ==> c[k] == b[k]
  }

  lemma InMemory(i: nat, size: nat)
    requires size == 0x80 || size == 0x100
    ensures 0 <= Address(i, size) < 256
  {
  }

  /** What writing the bytes behind the strings does. */
  ghost predicate PnPWritten(b: seq<byte>, c: seq<byte>, i: nat, chip: ChipType, size: nat, pnp: byte)
    requires size > 0
  {
    && |b| == 256 && 0 <= Address(i, size) < 256 && 0 <= Address(Next(i), size) < 256
    && 0 <= Address(Next(Next(i)), size) < 256
    && c == if chip == TypeAM || chip == TypeBM then b
         else b[Address(i, size) := 0x02][Address(Next(i), size) := 0x03][Address(Next(Next(i)), size) := pnp]
  }

  ghost predicate PnPOnly(b: seq<byte>, c: seq<byte>, at: int, wraps: bool) {
    |b| == |c| == 256 && forall k :: 0 <= k < 256 && k < at && (wraps ==> k != 0) ==> c[k] == b[k]
  }

  /** The strings and what follows them leave everything around them alone. */
  ghost predicate StringsOnly(b: seq<byte>, c: seq<byte>, chip: ChipType, s: Settings, size: nat)
    requires size > 0
  {
    |b| == |c| == 256 && forall k :: 0 <= k < 256 && Beside(k, chip, s, size) ==> c[k] == b[k]
  }

  predicate Beside(k: int, chip: ChipType, s: Settings, size: nat)
    requires size > 0
  {
    && !(0x0E <= k < 0x14) && (chip == Type230X ==> k != 0)
    && !(Address(Start(chip), size) <= k < Address(Offset3(chip, s), size) + if chip in {TypeAM, TypeBM} then 0 else 3)
  }

  /** Two images agree below `end`, leaving out the table of strings and perhaps address 0. */
  ghost predicate SameBut(b: seq<byte>, c: seq<byte>, end: int, but0: bool)
    requires |b| == |c| == 256
  {
    forall k :: 0 <= k < end && k < 256 && !(0x0E <= k < 0x14) && (but0 ==> k != 0) ==> c[k] == b[k]
  }

  /** The offsets of the strings stay below the checksum, and on chips other than the FT230X what follows does too. */
  lemma OffsetsFit(chip: ChipType, s: Settings)
    requires UserAreaLeft(chip, s) >= 0
    ensures 0x94 <= Start(chip) < Offset1(chip, s) < Offset2(chip, s) < Offset3(chip, s) <= 0xFE
    ensures chip != Type230X ==> Offset3(chip, s) < 0xFB
    ensures HighBit(Offset1(chip, s)) == Offset1(chip, s) && HighBit(Offset2(chip, s)) == Offset2(chip, s)
    ensures Offset1(chip, s) == Start(chip) + 2 + 2 * |Text(s.manufacturer)|
    ensures Offset2(chip, s) == Offset1(chip, s) + 2 + 2 * |Text(s.product)|
    ensures Offset3(chip, s) == Offset2(chip, s) + 2 + 2 * |Text(s.serial)|
  {
  }

  lemma EntryWritten(b0: seq<byte>, b1: seq<byte>, b2: seq<byte>, b3: seq<byte>, pos: nat, recorded: nat, at: nat,
                     t: seq<byte>)
    requires |b0| == 256 && pos + 1 < 0x14 <= at && at + 2 + 2 * |t| <= 0xFE && recorded < 0x100
    requires Outside(b0, b1, pos, pos + 1) && Outside(b1, b2, at, at + 2 + 2 * |t|) && Outside(b2, b3, pos + 1, pos + 2)
    requires |b1| == |b2| == |b3| == 256 && Descriptor(b2, at, t)
    requires b1[pos] == Byte(recorded) && b3[pos + 1] == Byte(2 * |t| + 2)
    ensures Entry(b0, b3, pos, recorded, at, t)
  {
    DescriptorOutside(b2, b3, pos + 1, pos + 2, at, t);
    hide Descriptor, Outside;
    forall k | 0 <= k < 256 && k != pos && k != pos + 1 && !(at <= k < at + 2 + 2 * |t|) ensures b3[k] == b0[k] {
      Kept(b0, b1, pos, pos + 1, k);
      Kept(b1, b2, at, at + 2 + 2 * |t|, k);
      Kept(b2, b3, pos + 1, pos + 2, k);
    }
    Kept(b1, b2, at, at + 2 + 2 * |t|, pos);
    Kept(b2, b3, pos + 1, pos + 2, pos);
  }

  lemma DescriptorKept(b: seq<byte>, c: seq<byte>, at: int, t: seq<byte>)
    requires |b| == |c| && Descriptor(b, at, t) && forall k :: at <= k < at + 2 + 2 * |t| ==> c[k] == b[k]
    ensures Descriptor(c, at, t)
  {
    assert c[at] == b[at] && c[at + 1] == b[at + 1];
    forall j | 0 <= j < |t| ensures c[at + 2 + 2 * j] == t[j] && c[at + 2 + 2 * j + 1] == 0 {
      assert c[at + 2 + 2 * j] == b[at + 2 + 2 * j] && c[at + 2 + 2 * j + 1] == b[at + 2 + 2 * j + 1];
    }
  }

  lemma DescriptorOutside(b: seq<byte>, c: seq<byte>, lo: int, hi: int, at: int, t: seq<byte>)
    requires Descriptor(b, at, t) && Outside(b, c, lo, hi) && (hi <= at || at + 2 + 2 * |t| <= lo)
    ensures Descriptor(c, at, t)
  {
    DescriptorKept(b, c, at, t);
  }

  lemma EntryKeeps(b: seq<byte>, c: seq<byte>, pos: nat, recorded: nat, at: int, t: seq<byte>, at': int, t': seq<byte>)
    requires Entry(b, c, pos, recorded, at, t) && Descriptor(b, at', t') && pos + 1 < at' && at' + 2 + 2 * |t'| <= at
    ensures Descriptor(c, at', t')
  {
    DescriptorKept(b, c, at', t');
  }

  lemma PnPKeeps(b: seq<byte>, c: seq<byte>, at: int, wraps: bool, at': int, t': seq<byte>)
    requires PnPOnly(b, c, at, wraps) && Descriptor(b, at', t') && 0 < at' && at' + 2 + 2 * |t'| <= at
    ensures Descriptor(c, at', t')
  {
    DescriptorKept(b, c, at', t');
  }

  lemma ChainKeeps(b0: seq<byte>, b1: seq<byte>, b2: seq<byte>, b3: seq<byte>, b4: seq<byte>, r0: nat, r1: nat, r2: nat,
                   a0: int, a1: int, a2: int, a3: int, t0: seq<byte>, t1: seq<byte>, t2: seq<byte>, wraps: bool)
    requires Entry(b0, b1, 0x0E, r0, a0, t0) && Entry(b1, b2, 0x10, r1, a1, t1) && Entry(b2, b3, 0x12, r2, a2, t2)
    requires PnPOnly(b3, b4, a3, wraps)
    requires 0x14 <= a0 && a0 + 2 + 2 * |t0| == a1 && a1 + 2 + 2 * |t1| == a2 && a2 + 2 + 2 * |t2| == a3 <= 256
    ensures |b0| == |b3| == |b4| == 256 && b4[0x0E] == Byte(r0) && b4[0x0F] == Byte(2 * |t0| + 2)
    ensures b4[0x10] == Byte(r1) && b4[0x11] == Byte(2 * |t1| + 2)
    ensures b4[0x12] == Byte(r2) && b4[0x13] == Byte(2 * |t2| + 2)
    ensures forall k :: 0 <= k < 256 && !(0x0E <= k < 0x14) && !(a0 <= k < a3) ==> b3[k] == b0[k]
  {
    hide Descriptor;
    assert forall k :: 0 <= k < a3 && k < 0x14 && (wraps ==> k != 0) ==> b4[k] == b3[k];
  }

  lemma StringsWritten(b0: seq<byte>, b1: seq<byte>, b2: seq<byte>, b3: seq<byte>, b4: seq<byte>, chip: ChipType,
                       s: Settings,
                       size: nat)
    requires (size == 0x80 || size == 0x100) && UserAreaLeft(chip, s) >= 0
    requires Entry(b0, b1, 0x0E, Start(chip), Address(Start(chip), size), Text(s.manufacturer))
    requires Entry(b1, b2, 0x10, Offset1(chip, s), Address(Offset1(chip, s), size), Text(s.product))
    requires Entry(b2, b3, 0x12, Offset2(chip, s), Address(Offset2(chip, s), size), Text(s.serial))
    requires PnPWritten(b3, b4, Offset3(chip, s), chip, size, Byte(s.isNotPnp))
    requires |b0| == |b4| == 256
    ensures StringTable(b4, chip, s) && StringArea(b4, chip, s, size, false) && StringsOnly(b0, b4, chip, s, size)
    ensures PnPBytes(b4, chip, s, size)
  {
    AddressesFit(chip, s, size);
    OffsetsFit(chip, s);
    PnPParts(b3, b4, s, chip, size);
    hide *;
    var a0, a1, a2 := Address(Start(chip), size), Address(Offset1(chip, s), size), Address(Offset2(chip, s), size);
    var a3, wraps := Address(Offset3(chip, s), size), chip == Type230X;
    var t0, t1, t2 := Text(s.manufacturer), Text(s.product), Text(s.serial);
    StringsPlaced(b0, b1, b2, b3, b4, Start(chip), Offset1(chip, s), Offset2(chip, s), a0, a1, a2, a3, t0, t1, t2,
      wraps);
    ChainKeeps(b0, b1, b2, b3, b4, Start(chip), Offset1(chip, s), Offset2(chip, s), a0, a1, a2, a3, t0, t1, t2, wraps);
    TableHolds(b4, chip, s);
    AreaHolds(b4, chip, s, size);
    OnlyHolds(b0, b3, b4, s, chip, size);
  }

  lemma PnPParts(b: seq<byte>, c: seq<byte>, s: Settings, chip: ChipType, size: nat)
    requires (size == 0x80 || size == 0x100) && 0x94 <= Offset3(chip, s) <= 0xFE
    requires chip != Type230X ==> Offset3(chip, s) < 0xFB
    requires PnPWritten(b, c, Offset3(chip, s), chip, size, Byte(s.isNotPnp))
    ensures PnPOnly(b, c, Address(Offset3(chip, s), size), chip == Type230X) && PnPBytes(c, chip, s, size)
    ensures BesidePnP(b, c, s, chip, size)
  {
    hide *;
    PnPFrame(b, c, s, chip, size);
    PnPHolds(b, c, s, chip, size);
  }

  lemma PnPFrame(b: seq<byte>, c: seq<byte>, s: Settings, chip: ChipType, size: nat)
    requires (size == 0x80 || size == 0x100) && 0x94 <= Offset3(chip, s) <= 0xFE
    requires chip != Type230X ==> Offset3(chip, s) < 0xFB
    requires PnPWritten(b, c, Offset3(chip, s), chip, size, Byte(s.isNotPnp))
    ensures PnPOnly(b, c, Address(Offset3(chip, s), size), chip == Type230X) && BesidePnP(b, c, s, chip, size)
  {
    var i := Offset3(chip, s);
    PnPPlaces(i, size);
    hide Address, Offset3, Byte, Next;
    if chip != TypeAM && chip != TypeBM {
      var a0, a1, a2 := Address(i, size), Address(Next(i), size), Address(Next(Next(i)), size);
      ThreeBytes(b, c, a0, a1, a2, Byte(s.isNotPnp));
    }
  }

  lemma PnPHolds(b: seq<byte>, c: seq<byte>, s: Settings, chip: ChipType, size: nat)
    requires (size == 0x80 || size == 0x100) && 0x94 <= Offset3(chip, s) <= 0xFE
    requires PnPWritten(b, c, Offset3(chip, s), chip, size, Byte(s.isNotPnp))
    ensures |c| == 256 && PnPBytes(c, chip, s, size)
  {
    hide *;
    var i, pnp := Offset3(chip, s), Byte(s.isNotPnp);
    PnPPlaces(i, size);
    ThreeWritten(b, c, i, chip, size, pnp);
    PnPAre(c, chip, s, size);
  }

  lemma ThreeWritten(b: seq<byte>, c: seq<byte>, i: nat, chip: ChipType, size: nat, pnp: byte)
    requires size > 0 && PnPWritten(b, c, i, chip, size, pnp)
    ensures |c| == 256
    ensures
      var a0, a1, a2 := Address(i, size), Address(Next(i), size), Address(Next(Next(i)), size);
      && 0 <= a0 < 256 && 0 <= a1 < 256 && 0 <= a2 < 256
      && (chip != TypeAM && chip != TypeBM ==>
            c[a2] == pnp && (a1 != a2 ==> c[a1] == 0x03) && (a0 != a1 && a0 != a2 ==> c[a0] == 0x02))
  {
    hide Address, Next;
  }

  lemma PnPAre(c: seq<byte>, chip: ChipType, s: Settings, size: nat)
    requires |c| == 256 && (size == 0x80 || size == 0x100) && 0x80 <= Offset3(chip, s) <= 0xFE
    requires
      var i := Offset3(chip, s);
      var a := Address(i, size);
      && 0 <= a && a + 1 < 256 && Address(i + 1, size) == a + 1 && (i <= 0xFD ==> Address(i + 2, size) == a + 2 < 256)
      && (chip != TypeAM && chip != TypeBM && i <= 0xFD ==>
            c[a] == 0x02 && c[a + 1] == 0x03 && c[a + 2] == Byte(s.isNotPnp))
    ensures PnPBytes(c, chip, s, size)
  {
    hide Address, Offset3, Byte;
  }

  lemma ThreeBytes(b: seq<byte>, c: seq<byte>, a0: nat, a1: nat, a2: nat, pnp: byte)
    requires a0 < |b| && a1 < |b| && a2 < |b| && c == b[a0 := 0x02][a1 := 0x03][a2 := pnp]
    ensures |c| == |b| && forall k :: 0 <= k < |c| && k != a0 && k != a1 && k != a2 ==> c[k] == b[k]
    ensures c[a2] == pnp && (a1 != a2 ==> c[a1] == 0x03) && (a0 != a1 && a0 != a2 ==> c[a0] == 0x02)
  {
  }

  /** The three bytes are neighbours, as long as they do not run around the end of the memory. */
  lemma PnPPlaces(i: nat, size: nat)
    requires (size == 0x80 || size == 0x100) && 0x80 <= i <= 0xFE
    ensures
      var a := Address(i, size);
      && a == i - (0x100 - size) && Address(Next(i), size) == Address(i + 1, size) == a + 1
      && (i <= 0xFD ==> Address(Next(Next(i)), size) == Address(i + 2, size) == a + 2)
      && (i == 0xFE ==> Address(Next(Next(i)), size) == 0)
  {
    HighAddress(i, size);
    HighAddress(i + 1, size);
    if i < 0xFE { HighAddress(i + 2, size); }
  }

  ghost predicate BesidePnP(b: seq<byte>, c: seq<byte>, s: Settings, chip: ChipType, size: nat)
    requires size > 0
  {
    var a, n := Address(Offset3(chip, s), size), if chip in {TypeAM, TypeBM} then 0 else 3;
    && |b| == |c| == 256
    && forall k :: 0 <= k < 256 && !(chip == Type230X && k == 0) && !(a <= k < a + n) ==> c[k] == b[k]
  }

  lemma AddressesFit(chip: ChipType, s: Settings, size: nat)
    requires (size == 0x80 || size == 0x100) && UserAreaLeft(chip, s) >= 0
    ensures var a0, a1, a2 := Address(Start(chip), size), Address(Offset1(chip, s), size),
      Address(Offset2(chip, s), size);
      && 0x14 <= a0 && a0 + 2 + 2 * |Text(s.manufacturer)| == a1
      && a1 + 2 + 2 * |Text(s.product)| == a2
        && a2 + 2 + 2 * |Text(s.serial)| == Address(Offset3(chip, s), size) <= 0xFE
    ensures Offset3(chip, s) <= 0xFE
  {
    OffsetsFit(chip, s);
    HighAddress(Start(chip), size);
    HighAddress(Offset1(chip, s), size);
    HighAddress(Offset2(chip, s), size);
    HighAddress(Offset3(chip, s), size);
    hide *;
  }

  lemma StringsPlaced(b0: seq<byte>, b1: seq<byte>, b2: seq<byte>, b3: seq<byte>, b4: seq<byte>, r0: nat, r1: nat,
                      r2: nat,
                      a0: int, a1: int, a2: int, a3: int, t0: seq<byte>, t1: seq<byte>, t2: seq<byte>, wraps: bool)
    requires Entry(b0, b1, 0x0E, r0, a0, t0) && Entry(b1, b2, 0x10, r1, a1, t1) && Entry(b2, b3, 0x12, r2, a2, t2)
    requires PnPOnly(b3, b4, a3, wraps)
    requires 0x14 <= a0 && a0 + 2 + 2 * |t0| == a1 && a1 + 2 + 2 * |t1| == a2 && a2 + 2 + 2 * |t2| == a3
    ensures Descriptor(b4, a0, t0) && Descriptor(b4, a1, t1) && Descriptor(b4, a2, t2)
  {
    hide *;
    EntryHolds(b0, b1, 0x0E, r0, a0, t0);
    EntryHolds(b1, b2, 0x10, r1, a1, t1);
    EntryHolds(b2, b3, 0x12, r2, a2, t2);
    EntryKeeps(b1, b2, 0x10, r1, a1, t1, a0, t0);
    EntryKeeps(b2, b3, 0x12, r2, a2, t2, a0, t0);
    EntryKeeps(b2, b3, 0x12, r2, a2, t2, a1, t1);
    PnPKeeps(b3, b4, a3, wraps, a0, t0);
    PnPKeeps(b3, b4, a3, wraps, a1, t1);
    PnPKeeps(b3, b4, a3, wraps, a2, t2);
  }

  lemma TableHolds(b: seq<byte>, chip: ChipType, s: Settings)
    requires |b| == 256 && b[0x0E] == Byte(Start(chip)) && b[0x0F] == Byte(2 * |Text(s.manufacturer)| + 2)
    requires b[0x10] == Byte(Offset1(chip, s)) && b[0x11] == Byte(2 * |Text(s.product)| + 2)
    requires b[0x12] == Byte(Offset2(chip, s)) && b[0x13] == Byte(2 * |Text(s.serial)| + 2)
    ensures StringTable(b, chip, s)
  {
  }

  lemma AreaHolds(b: seq<byte>, chip: ChipType, s: Settings, size: nat)
    requires Image(b, size) && Descriptor(b, Address(Start(chip), size), Text(s.manufacturer))
    requires Descriptor(b, Address(Offset1(chip, s), size), Text(s.product))
    requires Descriptor(b, Address(Offset2(chip, s), size), Text(s.serial))
    requires Offset3(chip, s) <= 0xFE
    ensures StringArea(b, chip, s, size, false)
  {
    hide Address, Start, Offset1, Offset2, Offset3, Text;
    AllStrings(b, Address(Start(chip), size), Address(Offset1(chip, s), size), Address(Offset2(chip, s), size),
      Text(s.manufacturer), Text(s.product), Text(s.serial));
  }

  lemma AllStrings(b: seq<byte>, a0: int, a1: int, a2: int, t0: seq<byte>, t1: seq<byte>, t2: seq<byte>)
    requires Descriptor(b, a0, t0) && Descriptor(b, a1, t1) && Descriptor(b, a2, t2)
    ensures StringsAt(b, a0, a1, a2, t0, t1, t2, false)
  {
    DescriptorParts(b, a0, t0);
    hide Descriptor, Characters, Byte;
  }

  lemma OnlyHolds(b: seq<byte>, c: seq<byte>, d: seq<byte>, s: Settings, chip: ChipType, size: nat)
    requires size > 0 && |b| == |c| == 256 && BesidePnP(c, d, s, chip, size)
    requires Address(Start(chip), size) <= Address(Offset3(chip, s), size)
    requires var a0, a3 := Address(Start(chip), size), Address(Offset3(chip, s), size);
      forall k :: 0 <= k < 256 && !(0x0E <= k < 0x14) && !(a0 <= k < a3) ==> c[k] == b[k]
    ensures StringsOnly(b, d, chip, s, size)
  {
    hide Address, Start, Offset3;
  }

  lemma EntryHolds(b: seq<byte>, c: seq<byte>, pos: nat, recorded: nat, at: int, t: seq<byte>)
    requires Entry(b, c, pos, recorded, at, t)
    ensures Descriptor(c, at, t) && |b| == |c| == 256
  {
  }

  lemma DescriptorParts(b: seq<byte>, at: int, t: seq<byte>)
    requires Descriptor(b, at, t)
    ensures 0 <= at && at + 2 + 2 * |t| <= |b| && Characters(b, at + 2, t) && b[at + 1] == 0x03
    ensures b[at] == Byte(2 * |t| + 2)
  {
  }

  /** Two images differ at most from `lo` up to `hi`. */
  ghost predicate Outside(before: seq<byte>, after: seq<byte>, lo: int, hi: int) {
    |before| == |after| && forall k :: 0 <= k < |after| && !(lo <= k < hi) ==> after[k] == before[k]
  }

  lemma One(b: seq<byte>, k: nat, v: byte)
    requires k < |b|
    ensures Outside(b, b[k := v], k, k + 1)
  {
  }

  lemma Kept(before: seq<byte>, after: seq<byte>, lo: int, hi: int, k: nat)
    requires Outside(before, after, lo, hi) && k < |after| && !(lo <= k < hi)
    ensures |before| == |after| && after[k] == before[k]
  {
  }

  lemma Then(a: seq<byte>, b: seq<byte>, c: seq<byte>, lo: int, hi: int, lo': int, hi': int)
    requires Outside(a, b, lo, hi) && Outside(b, c, lo', hi') && lo <= lo' && hi' <= hi
    ensures Outside(a, c, lo, hi)
  {
  }

  lemma Widened(a: seq<byte>, b: seq<byte>, lo: int, hi: int, hi': int)
    requires Outside(a, b, lo, hi) && hi <= hi'
    ensures Outside(a, b, lo, hi')
  {
  }

  lemma Described(b0: seq<byte>, b1: seq<byte>, b2: seq<byte>, b3: seq<byte>, at: nat, t: seq<byte>)
    requires |t| < 256 && at + 2 + 2 * |t| <= |b3| && Characters(b3, at + 2, t)
    requires Outside(b0, b1, at, at + 1) && Outside(b1, b2, at + 1, at + 2) && Outside(b2, b3, at + 2, at + 2 + 2 * |t|)
    requires |b1| == |b2| == |b3| && 2 * |t| + 2 < 256 && b1[at] == Byte(2 * |t| + 2) && b2[at + 1] == 0x03
    ensures Descriptor(b3, at, t) && Outside(b0, b3, at, at + 2 + 2 * |t|)
  {
    hide Byte, Characters, Outside;
    Kept(b1, b2, at + 1, at + 2, at);
    Kept(b2, b3, at + 2, at + 2 + 2 * |t|, at);
    Kept(b2, b3, at + 2, at + 2 + 2 * |t|, at + 1);
    Widened(b0, b1, at, at + 1, at + 2 + 2 * |t|);
    Then(b0, b1, b2, at, at + 2 + 2 * |t|, at + 1, at + 2);
    Then(b0, b2, b3, at, at + 2 + 2 * |t|, at + 2, at + 2 + 2 * |t|);
  }

  lemma NoCharacters(b: seq<byte>, at: nat, end: nat)
    requires at <= |b|
    ensures Characters(b, at, []) && Outside(b, b, at, end)
  {
  }

  lemma OneMore(b: seq<byte>, b0: seq<byte>, b1: seq<byte>, b2: seq<byte>, at: nat, t: seq<byte>, j: nat)
    requires j < |t| && at + 2 * |t| <= |b2| && Characters(b0, at, t[..j]) && Outside(b, b0, at, at + 2 * |t|)
    requires Outside(b0, b1, at + 2 * j, at + 2 * j + 1) && Outside(b1, b2, at + 2 * j + 1, at + 2 * j + 2)
    requires |b1| == |b2| && b1[at + 2 * j] == t[j] && b2[at + 2 * j + 1] == 0
    ensures Characters(b2, at, t[..j + 1]) && Outside(b, b2, at, at + 2 * |t|)
  {
    hide Outside;
    Then(b, b0, b1, at, at + 2 * |t|, at + 2 * j, at + 2 * j + 1);
    Then(b, b1, b2, at, at + 2 * |t|, at + 2 * j + 1, at + 2 * j + 2);
    forall k | 0 <= k < j + 1 ensures b2[at + 2 * k] == t[k] && b2[at + 2 * k + 1] == 0 {
      Kept(b1, b2, at + 2 * j + 1, at + 2 * j + 2, at + 2 * k);
      if k < j {
        Kept(b0, b1, at + 2 * j, at + 2 * j + 1, at + 2 * k);
        Kept(b0, b1, at + 2 * j, at + 2 * j + 1, at + 2 * k + 1);
        Kept(b1, b2, at + 2 * j + 1, at + 2 * j + 2, at + 2 * k + 1);
        assert t[..j][k] == t[k];
      }
    }
  }

  // ----- the image is determined by the settings

  /** Two finished images for the same settings are the same, but for what cannot be written. */
  lemma OneImage(b: seq<byte>, c: seq<byte>, s: Settings, chip: ChipType, size: nat)
    requires Image(b, size) && Image(c, size) && |s.cbusFunction| == 10 && UserAreaLeft(chip, s) >= 0
    requires Built(b, s, chip, size) && Built(c, s, chip, size)
    requires forall k :: 0 <= k < 256 && Reserved(k, chip) ==> c[k] == b[k]
    ensures c == b
  {
    forall k | 0 <= k < 256 && k != size - 2 && k != size - 1 ensures c[k] == b[k] {
      OneByte(b, c, s, chip, size, k);
    }
    SumKept(b, c, size, chip == Type230X);
    hide Header, Layout, StringTable, StringArea, PnPBytes, EmptyElsewhere, Sum, Word, UserAreaLeft;
    WordInjective(b[size - 2], b[size - 1], c[size - 2], c[size - 1]);
  }

  lemma WordInjective(l: byte, h: byte, l': byte, h': byte)
    ensures Word(l, h) == Word(l', h') ==> l == l' && h == h'
  {
  }

  lemma OneByte(b: seq<byte>, c: seq<byte>, s: Settings, chip: ChipType, size: nat, k: nat)
    requires Image(b, size) && Image(c, size) && |s.cbusFunction| == 10 && UserAreaLeft(chip, s) >= 0
    requires Built(b, s, chip, size) && Built(c, s, chip, size)
    requires Reserved(k, chip) ==> k < 256 && c[k] == b[k]
    requires k < 256 && k != size - 2 && k != size - 1
    ensures c[k] == b[k]
  {
    AddressesFit(chip, s, size);
    OffsetsFit(chip, s);
    hide *;
    var a0, a3 := Address(Start(chip), size), Address(Offset3(chip, s), size);
    BuiltParts(b, s, chip, size);
    BuiltParts(c, s, chip, size);
    if 2 <= k <= 9 || 0x0E <= k < 0x14 {
      OneOfHeader(b, c, s, chip, k);
    } else if k in Places(chip) {
      OnePlace(b, c, s, chip, k);
    } else if a0 <= k < a3 {
      assert Damaged(chip, size) ==> k != a0 by { if Damaged(chip, size) { FirstDamaged(chip, size); } }
      OneCharacter(b, c, a0, Address(Offset1(chip, s), size), Address(Offset2(chip, s), size),
        Text(s.manufacturer), Text(s.product), Text(s.serial), Damaged(chip, size), k);
    } else if !Reserved(k, chip) {
      OneBehind(b, c, s, chip, size, k);
    }
  }

  lemma BuiltParts(b: seq<byte>, s: Settings, chip: ChipType, size: nat)
    requires Image(b, size) && |s.cbusFunction| == 10 && Built(b, s, chip, size)
    ensures Header(b, s) && StringTable(b, chip, s) && Layout(b, s, chip)
    ensures StringsAt(b, Address(Start(chip), size), Address(Offset1(chip, s), size), Address(Offset2(chip, s), size),
      Text(s.manufacturer), Text(s.product), Text(s.serial), Damaged(chip, size))
    ensures PnPBytes(b, chip, s, size) && EmptyElsewhere(b, chip, s, size)
    ensures |b| == 256 && (size == 0x80 || size == 0x100)
  {
    hide Header, StringTable, Layout, StringsAt, PnPBytes, EmptyElsewhere, Passes, Address;
  }

  lemma OneOfHeader(b: seq<byte>, c: seq<byte>, s: Settings, chip: ChipType, k: nat)
    requires |b| == |c| == 256 && (2 <= k <= 9 || 0x0E <= k < 0x14)
    requires Header(b, s) && Header(c, s) && StringTable(b, chip, s) && StringTable(c, chip, s)
    ensures c[k] == b[k]
  {
    hide Byte, Only, Start, Offset1, Offset2, Text;
  }

  lemma OneBehind(b: seq<byte>, c: seq<byte>, s: Settings, chip: ChipType, size: nat, k: nat)
    requires Image(b, size) && Image(c, size) && k < 256 && k != size - 2 && k != size - 1 && !Reserved(k, chip)
    requires PnPBytes(b, chip, s, size) && PnPBytes(c, chip, s, size)
    requires EmptyElsewhere(b, chip, s, size) && EmptyElsewhere(c, chip, s, size)
    requires !(2 <= k <= 9) && !(0x0E <= k < 0x14) && k !in Places(chip)
    requires !(Address(Start(chip), size) <= k < Address(Offset3(chip, s), size))
    requires chip != Type230X ==> Offset3(chip, s) < 0xFB
    ensures c[k] == b[k]
  {
    PnPPlaces(Offset3(chip, s), size);
    hide Address, Start, Offset3, Places, Byte;
    if !Unused(k, chip, s, size) {
      assert chip !in {TypeAM, TypeBM};
    }
  }

  lemma FirstDamaged(chip: ChipType, size: nat)
    requires (size == 0x80 || size == 0x100) && Damaged(chip, size)
    ensures Address(Start(chip), size) in Places(chip)
  {
  }

  lemma OnePlace(b: seq<byte>, c: seq<byte>, s: Settings, chip: ChipType, k: nat)
    requires |b| == |c| == 256 && |s.cbusFunction| == 10 && k < 256 && k in Places(chip)
    requires Layout(b, s, chip) && Layout(c, s, chip)
    ensures c[k] == b[k]
  {
    hide Byte, Mode, GroupByte, Capped, Only, LayoutR, Layout232H, Layout230X;
    match chip
    case TypeR => OnePlaceR(b, c, s, k);
    case Type232H => OnePlace232H(b, c, s, k);
    case Type230X => OnePlace230X(b, c, s, k);
    case _ =>
  }

  lemma OnePlaceR(b: seq<byte>, c: seq<byte>, s: Settings, k: nat)
    requires |b| == |c| == 256 && |s.cbusFunction| == 10 && k < 256 && k in Places(TypeR)
    requires LayoutR(b, s) && LayoutR(c, s)
    ensures c[k] == b[k]
  {
    hide Byte, Capped, Only;
  }

  lemma OnePlace232H(b: seq<byte>, c: seq<byte>, s: Settings, k: nat)
    requires |b| == |c| == 256 && |s.cbusFunction| == 10 && k < 256 && k in Places(Type232H)
    requires Layout232H(b, s) && Layout232H(c, s)
    ensures c[k] == b[k]
  {
    hide Byte, Mode, GroupByte, Capped, Only;
  }

  lemma OnePlace230X(b: seq<byte>, c: seq<byte>, s: Settings, k: nat)
    requires |b| == |c| == 256 && |s.cbusFunction| == 10 && k < 256 && k in Places(Type230X)
    requires Layout230X(b, s) && Layout230X(c, s)
    ensures c[k] == b[k]
  {
    hide Byte;
  }

  lemma OneCharacter(b: seq<byte>, c: seq<byte>, a0: int, a1: int, a2: int, t0: seq<byte>, t1: seq<byte>,
                     t2: seq<byte>, damaged: bool, k: nat)
    requires |b| == |c| && StringsAt(b, a0, a1, a2, t0, t1, t2, damaged)
    requires StringsAt(c, a0, a1, a2, t0, t1, t2, damaged)
    requires a0 + 2 + 2 * |t0| == a1 && a1 + 2 + 2 * |t1| == a2 && a0 <= k < a2 + 2 + 2 * |t2| && k < |b|
    requires k == a0 ==> !damaged
    ensures c[k] == b[k]
  {
    hide Byte, Characters;
    if a0 + 2 <= k < a1 {
      SameCharacter(b, c, a0 + 2, t0, k);
    } else if a1 + 2 <= k < a2 {
      SameCharacter(b, c, a1 + 2, t1, k);
    } else if a2 + 2 <= k {
      SameCharacter(b, c, a2 + 2, t2, k);
    }
  }

  lemma SameCharacter(b: seq<byte>, c: seq<byte>, at: nat, t: seq<byte>, k: nat)
    requires Characters(b, at, t) && Characters(c, at, t) && at <= k < at + 2 * |t|
    ensures c[k] == b[k]
  {
    var j := (k - at) / 2;
    assert k == at + 2 * j || k == at + 2 * j + 1;
  }
}
