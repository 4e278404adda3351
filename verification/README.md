# Verified models of the FPGA board server

Dafny models of the parts of this repository where data are encoded, carried over a protocol and decoded again, with
proofs of what the code promises about them:

* **JTAG over MPSSE** (`Bits`, `Tap`, `Mpsse`, `IoFtdi`, `Jtag`, `JtagRuns`, `Chain`, `ChainScan`, `Scans`, `Detection`,
  `Pieces`, `ProgAlg`, `DeviceProgrammer`). The driver compiles TAP moves and scans into MPSSE command bytes. `Tap` is
  the controller of section 6.1 of IEEE Std 1149.1, `Mpsse` an interpreter of the command bytes (sections 3.4 and 3.5 of
  FTDI AN_108), and `Chain` a chain of any number of devices behind it, each with a list of everything it was given.
  The classes `IoFtdi` and `Jtag` are the driver; `Edges()` of either is what their whole state denotes: the clocks of
  the bytes sent, of the bytes in the command buffer and of the pending moves. Every method says which clocks it adds to
  `Edges()`, the theorems say what those clocks do to the controller and the devices. `DeviceProgrammer` puts all of it
  together, from an unknown chain and the bytes of a file to what the FPGA sees.
* **FTDI reads** (`FtdiRead`, `FtdiTransfers`, `FtdiStream`). Synchronous, asynchronous and streaming reads against one
  queue of payload bytes, `Payloads`: transfers without the two status bytes of every packet.
* **FTDI EEPROM images** (`Octets`, `Checksum`, `EepromLayout`, `EepromConfig`, `EepromDecode`, `Eeprom`). `Built` says what
  a finished image is; the builder makes one, the decoder reads it, and `RoundTrip` says which settings survive.
* **Baud rates** (`Division`, `Baud`). The two divisor computations and the tolerance test.
* **JSON** (`Json`, `JsonGrammar`, `JsonSyntax`, `JsonAccepts`, `JsonSound`, `JsonStray`, `JsonMap`, `JsonRoundTrip`,
  `JsonUnicode`, `JsonParser`, `JsonPrinter`). `JsonSyntax` is the grammar of RFC 8259 and what its texts mean,
  `JsonGrammar` the parser as functions. The parser accepts exactly the texts of the grammar up to its depth; the
  imperative parser and printer are proved against both. A `char` is one byte.
* **Configuration files** (`BitFormat`, `IntelHex`, `IntelHexRecords`, `IntelHexRoundTrip`, `BitFile`). `.bit` and Intel
  HEX/MCS, both ways, with every byte or digit of what is written.
* **Events** (`ClientConnection`, `DeviceManager`, `FpgaClient`, `DeviceMirror`). The output queue of a connection under
  every interleaving, and the client's copy of the device list under every run of hot-plug events, requests, answers and
  deliveries.

A method is a step of the code; its `ensures` ties it to functions such as `Payloads`, `ShiftClocks`, `Text` or `Built`, and
lemmas prove the properties of those functions. `Sequences` and `Division` hold facts that several proofs share.

## Model

| member | source | states |
|---|---|---|
| Tap.FiveOnesReset | src/devices/xc3sprog/jtag.cpp:469-476 | five clocks with TMS high reach Test-Logic-Reset from every state |
| Tap.HeldRun | src/devices/xc3sprog/jtag.cpp:119-127 | clocks that hold TMS at its last level keep the controller in place if and only if there are none or the state is a stable one |
| Tap.MoveIsStandard | src/devices/xc3sprog/jtag.cpp:228-450 | every entry of the move table of `setTapState` records the state that the standard's controller enters on the emitted TMS bit |
| Tap.MoveDescends | src/devices/xc3sprog/jtag.cpp:228-450 | every move comes nearer to the target, so the loop ends |
| Tap.RouteArrives | src/devices/xc3sprog/jtag.cpp:228-450 | for all 256 pairs of states the emitted bits take the standard's controller from the one to the other |
| Tap.ResetSettles | src/devices/xc3sprog/jtag.cpp:469-476 | five or more high clocks behind any history end in Test-Logic-Reset, wherever it started |
| Tap.PlanArrives | src/devices/xc3sprog/jtag.cpp:228-450 | with the reset that an unknown state calls for, the target is reached from every start state |
| Tap.LowRun | src/devices/xc3sprog/jtag.cpp:445-448 | the extra low clocks behind a move stay in the states that low TMS holds |
| Tap.AstrayRun | src/devices/xc3sprog/jtag.cpp:228-450 | where the moves for a wrongly recorded state really lead |
| Tap.MissedClock | src/devices/xc3sprog/iobase.cpp:70-77 | after a last shift of length zero the recorded state is Exit1 and the real one still Shift; then no target is reached by the moves planned for it |
| Mpsse.InterpretConcat | src/devices/xc3sprog/ioftdi.cpp:700-718 | cutting a command stream between commands, as the buffer does, changes nothing it means |
| Mpsse.CommandLengthExtends | src/devices/xc3sprog/ioftdi.cpp:700-718 | bytes behind a complete command do not change it |
| Mpsse.ReceivedBits | src/devices/xc3sprog/ioftdi.cpp:407-529 | a bit-mode reply of n samples holds sample i in bit 8 - n + i |
| IoFtdi.DataClocksConcat | src/devices/xc3sprog/ioftdi.cpp:407-529 | a shift continued at a byte boundary clocks the same as one shift |
| IoFtdi.BytesCommand | src/devices/xc3sprog/ioftdi.cpp:407-529 | the 16-bit count field, the data and the opcode flags of a byte command stand for exactly 8n clocks and n replies |
| IoFtdi.LastClock | src/devices/xc3sprog/ioftdi.cpp:407-529 | the TMS command for the last bit, with that bit as its bit 7, completes the shift and raises TMS |
| IoFtdi.IoFtdi.TailBits | src/devices/xc3sprog/ioftdi.cpp:407-529 | after the realignment bit i of the buffer is the sample of clock i, and the bits above the last are zero |
| IoFtdi.IoFtdi.MergeLastBit | src/devices/xc3sprog/ioftdi.cpp:407-529 | the reply of the last clock is put on top of the partial byte |
| IoFtdi.IoFtdi.MpsseAddCmd | src/devices/xc3sprog/ioftdi.cpp:700-718 | whatever the buffer holds, bytes sent and buffered grow by exactly the command |
| IoFtdi.IoFtdi.MpsseSend | src/devices/xc3sprog/ioftdi.cpp:720-775 | the buffered bytes are sent, in order, and the buffer is empty |
| IoFtdi.IoFtdi.ReadUsb | src/devices/xc3sprog/ioftdi.cpp:557-652 | the next `len` replies, in order, land at the wanted place and nothing else changes |
| IoFtdi.IoFtdi.TxRxBlock | src/devices/xc3sprog/ioftdi.cpp:407-529 | for every length from 1 on: exactly `length` clocks carry tdi low bit first, TMS rises on the last one when asked; tdo bit i is the sample of clock i; every reply asked for has been read |
| IoFtdi.IoFtdi.TxTms | src/devices/xc3sprog/ioftdi.cpp:531-555 | the pending moves are turned into commands of up to six moves without a change to the clocks denoted |
| IoFtdi.IoFtdi.SetTms | src/devices/xc3sprog/iobase.cpp:61-68 | one move is appended to the clocks denoted, also when the buffer has to be flushed first |
| IoFtdi.IoFtdi.FlushTms | src/devices/xc3sprog/iobase.cpp:53-59 | nothing stays pending and no clock is added, lost or moved |
| IoFtdi.IoFtdi.ShiftTdiTdo | src/devices/xc3sprog/iobase.cpp:70-77 | moves first, then the clocks of the shift; tdo as in TxRxBlock; a shift of length zero adds nothing |
| IoFtdi.IoFtdi.Shift | src/devices/xc3sprog/iobase.cpp:91-103 | constant bits in chunks are one shift, with TMS rising only at the end of the last chunk |
| Jtag.Jtag.TapTestLogicReset | src/devices/xc3sprog/jtag.cpp:469-476 | five high clocks; the recorded state is right whatever it was |
| Jtag.Jtag.SetTapState | src/devices/xc3sprog/jtag.cpp:228-452 | the planned moves and `pre` low clocks are added and the recorded state is the target, which is right when low TMS holds the target or there are no extra clocks |
| Jtag.Jtag.NextTapState | src/devices/xc3sprog/jtag.cpp:454-467 | Exit1 after a last shift, no change after another one, and from any other state the five-ones reset |
| Jtag.Jtag.CycleTCK | src/devices/xc3sprog/jtag.cpp:119-127 | n clocks at the held TMS level; the recorded state stays right if and only if n is 0 or the state is stable |
| Jtag.Jtag.ShiftDR | src/devices/xc3sprog/jtag.cpp:136-196 | the clocks of a DR scan with its bypass padding, or of a part of one; tdo is exactly what was sampled; the recorded state is right if and only if the scan has a last clock or was continued outside the Shift states, where the driver resets the controller |
| Jtag.ScanTracks | src/devices/xc3sprog/jtag.cpp:136-196 | the exact condition under which the record is right behind a DR scan, in whatever state it was shifted |
| Jtag.Jtag.ShiftIR | src/devices/xc3sprog/jtag.cpp:198-226 | likewise for an IR scan with ones for all other devices |
| Jtag.Jtag.Detect | src/devices/xc3sprog/jtag.cpp:52-79 | the record starts with the words read up to the first that is zero, all ones or even, or up to 1000 of them, last word first, each as the number whose binary digits are its 32 bits; the detection ends in Test-Logic-Reset |
| Jtag.WordValue | src/devices/xc3sprog/jtag.h:125-128 | four bytes read, made into a code, are the number whose bit i is the i-th bit read |
| Jtag.Jtag.GetChain | src/devices/xc3sprog/jtag.cpp:50-83 | detects on the first call or on demand and changes nothing otherwise |
| JtagRuns.RunCalls | src/devices/xc3sprog/jtag.cpp:50-476 | every run of disciplined calls: each call changes the record and the clocks exactly as it should, and at any time between calls the clocks denoted by sent bytes, buffer and pending moves end in the recorded state from every start state |
| Chain.ShiftedRegister | src/devices/xc3sprog/jtag.cpp:136-196 | after any number of shift clocks every register of a chain holds its slice of the stream that runs through it |
| Chain.RunState | src/devices/xc3sprog/jtag.cpp:228-450 | the devices' controllers follow the same clocks |
| ChainScan.DrScanDelivers | src/devices/xc3sprog/jtag.cpp:136-196 | with all others in BYPASS the selected device gets the data behind the padding, and holds exactly the data when they fill its register |
| ChainScan.DrScanReads | src/devices/xc3sprog/jtag.cpp:136-196 | the bits read while the data are clocked are the register the device captured |
| ChainScan.IrScanSelects | src/devices/xc3sprog/jtag.cpp:198-226 | for any number of devices and any instruction lengths the selected device is given the instruction and every other one all ones, as many as it has bits |
| Scans.IrLengths | src/devices/xc3sprog/jtag.cpp:198-226 | the driver's pre and post counts are the instruction bits behind and before the selected device |
| Scans.ShiftIrSelects | src/devices/xc3sprog/jtag.cpp:198-226 | `shiftIR` from Run-Test/Idle: the selected device is given exactly tdi, each other one exactly its ones, none sees data, and every device has one clock in Run-Test/Idle |
| Scans.ShiftDrDelivers | src/devices/xc3sprog/jtag.cpp:136-196 | `shiftDR` after that: what the selected device has been given grows by exactly the data behind the padding and one clock in Run-Test/Idle; it ends up with the data when they fill its register, and all others stay in BYPASS |
| Scans.ShiftDrReads | src/devices/xc3sprog/jtag.cpp:136-196 | bit i read by `shiftDR` is bit i of the captured register |
| Scans.SplitScan | src/devices/xc3sprog/jtag.cpp:136-196 | data split over two calls are clocked like the whole |
| Pieces.PiecesAreWhole | src/devices/xc3sprog/jtag.cpp:136-196 | data split into any number of pieces are clocked like the whole |
| Pieces.ScanInPieces | src/devices/xc3sprog/jtag.cpp:136-196 | any number of `shiftDR` calls with `exit=false` and one that ends the scan make the clocks of one scan, and the bits that they read are together the bits that the one scan reads |
| ChainScan.IrScanReads | src/devices/xc3sprog/jtag.cpp:198-226 | the bits read during an IR scan are the status that the selected device captured |
| Scans.ShiftIrReads | src/devices/xc3sprog/jtag.cpp:198-226 | bit i read by `shiftIR` is bit i of that status, in any chain |
| Detection.ResetSelectsIds | src/devices/xc3sprog/jtag.cpp:52-56 | a chain in Test-Logic-Reset selects the identification registers of all devices |
| Detection.WordRead | src/devices/xc3sprog/jtag.cpp:58-76 | word j that the detection reads, for any devices, is bits 32j to 32j + 31 of all their identification registers in a row, nearest to TDO first, where a device without one has the single bit of BYPASS; zeros behind the last, ones without any device |
| Detection.WordIs | src/devices/xc3sprog/jtag.cpp:58-76 | while only devices with 32-bit identification registers are nearer to TDO, word j, as a number, is the code of the j-th device from TDO |
| Detection.BypassShifts | src/devices/xc3sprog/jtag.cpp:58-76 | a device that selects BYPASS on reset puts one zero in front of what is read of the devices behind it, so its word is even and no code behind it is read as it is |
| Detection.ChainFound | src/devices/xc3sprog/jtag.cpp:50-83 | for any chain, whatever registers its devices have, in any state, the detection finds exactly as many devices as there are words up to the first improper code, or 1000; the record has those words last first, the indexing of the scans |
| Detection.AllFound | src/devices/xc3sprog/jtag.cpp:50-83 | when all devices have identification registers with proper codes, every device is found and entry k of the record is the code of the k-th from TDI |
| ProgAlg.ReversedBits | src/devices/xc3sprog/bitfile.cpp:334-350 | bytes reversed on load and shifted low bit first go out high bit first |
| ProgAlg.ReadBack | src/devices/xc3sprog/jtag.cpp:136-196 | a scan of the register's length reads exactly the register |
| ProgAlg.ProgAlgXC3S.Instruct | src/devices/xc3sprog/jtag.cpp:198-226 | from Run-Test/Idle or Test-Logic-Reset: what the device has been given grows by exactly this instruction, and its status is read |
| ProgAlg.ProgAlgXC3S.Send | src/devices/xc3sprog/jtag.cpp:136-196 | the device sees exactly one more scan, of the data behind the padding |
| ProgAlg.ProgAlgXC3S.Read | src/devices/xc3sprog/jtag.cpp:136-196 | a scan that only reads: the register comes back when the length is its own |
| ProgAlg.ProgAlgXC3S.Configure | src/devices/xc3sprog/progalgxc3s.cpp:170-178 | the device sees one scan, under CFG_IN, of the whole data |
| ProgAlg.ProgAlgXC3S.FlowProgramLegacy | src/devices/xc3sprog/progalgxc3s.cpp:170-185 | for any chain, place in it and file, through bit reversal, padding, chunks and buffers: everything the device is given, in order, each instruction by its code with its scans and its clocks in Run-Test/Idle: JSHUTDOWN, CFG_IN with the file's bytes high bit first, JSTART with twice the idle clocks, BYPASS with one bit |
| ProgAlg.ProgAlgXC3S.WaitCleared | src/devices/xc3sprog/progalgxc3s.cpp:197-202 | polls until the first status that reports a cleared configuration; the device is given one instruction for each poll and no data |
| ProgAlg.ProgAlgXC3S.ReadDna | src/devices/xc3sprog/progalgxc3s.cpp:204-226 | the identifier scan of 64 bits |
| ProgAlg.ProgAlgXC3S.WaitConfigured | src/devices/xc3sprog/progalgxc3s.cpp:238-250 | succeeds if and only if the device reports success in the status it had before or in one of the next 49; a report on the fiftieth attempt is taken for failure; the device is given BYPASS once for each poll |
| ProgAlg.ProgAlgXC3S.ArrayProgram | src/devices/xc3sprog/progalgxc3s.cpp:187-251 | the complete list of what the device is given: every instruction by its code, every scan, every clock in Run-Test/Idle, with the number of polls; the exact condition for success |
| ProgAlg.StartedAndKept | src/devices/xc3sprog/progalgxc3s.cpp:170-251 | in that list the file's scan is followed by JSTART with 24 or 32 idle clocks, by family, and JPROGRAM is not behind it if and only if the instruction register has three bits or more; shorter ones cannot tell it from BYPASS |
| DeviceProgrammer.Find | src/devices/xc3sprog/jtag.cpp:50-83 | a first `getChain` finds what ChainFound says, for any chain |
| DeviceProgrammer.Connect | src/devices/DeviceProgrammer.cpp:18-38 | for any chain: fails if and only if the detection does not find exactly one device or its code, as the number of the bits read, is neither 0x24001093 nor 0x0362D093; else the driver is ready if and only if there is only one device and its instruction register has 6 bits |
| DeviceProgrammer.DeviceProgrammer.Program | src/devices/DeviceProgrammer.cpp:43-55 | an unreadable file is refused and the device sees nothing; any other file's data field reaches the device exactly, high bit first, at its place in the list of everything the device is given; success exactly as in ArrayProgram |
| FtdiRead.PayloadOfFrame | src/libftdi/ftdi.c:1803-1914 | taking the status bytes out of packets undoes packing data into packets |
| FtdiRead.FtdiContext.BulkTransfer | src/libftdi/ftdi.c:1840-1845 | a transfer fills the start of the read buffer or fails |
| FtdiRead.FtdiContext.MovePackets | src/libftdi/ftdi.c:1860-1863 | the invariant of the in-place moves: everything up to the packets not yet moved is payload, everything behind is untouched |
| FtdiRead.FtdiContext.Compact | src/libftdi/ftdi.c:1858-1873 | moving whole packets and a rest in place leaves exactly the payload |
| FtdiRead.FtdiContext.StripStatus | src/libftdi/ftdi.c:1847-1874 | for a transfer of any length above 2 the bytes from offset 2 on are its payload |
| FtdiRead.FtdiContext.Deliver | src/libftdi/ftdi.c:1847-1910 | what was delivered and what waits is what was there and the payload, in order |
| FtdiRead.FtdiContext.ReadData | src/libftdi/ftdi.c:1803-1914 | returned and waiting bytes together are the bytes that waited and the payloads taken, in order; no transfer is taken that is not needed; short reads, failures and unusable devices are told apart |
| FtdiTransfers.Reads | src/libftdi/ftdi.c:1803-1914 | over any sequence of reads of any sizes: every read is as ReadData says for what waits and comes at that time; bytes returned and bytes waiting are all payloads in order; only a failed transfer loses bytes |
| FtdiTransfers.ReadDataSubmit | src/libftdi/ftdi.c:1633-1700 | a request that the waiting bytes serve completes at once, any other takes them all and is in flight |
| FtdiTransfers.ReadDataCallback | src/libftdi/ftdi.c:1396-1479 | a callback keeps "request and buffer hold the stream" and completes as soon as the request is full |
| FtdiTransfers.TransferDataDone | src/libftdi/ftdi.c:1715-1745 | whatever the event loop reports, the request has exactly the first of waiting bytes and payloads, in order, and the rest waits; a wait without errors ends with the request completed and returns how many bytes it got, or -1 when its last transfer failed; interruptions are repeated; an error of the loop is returned, after the request has been cancelled |
| FtdiTransfers.SynchronousIsAsynchronous | src/libftdi/ftdi.c:1396-1914 | both ways of reading take the same transfers, return the same bytes and leave the same bytes waiting |
| FtdiStream.Packet | src/libftdi/ftdi_stream.c:74-95 | one round of the packet loop keeps the relation of calls made, bytes passed and bytes counted |
| FtdiStream.FtdiStreamState.Deframe | src/libftdi/ftdi_stream.c:74-95 | for every transfer the callback sees exactly the payload, packet by packet; the byte count is short by one if and only if the last packet is a lone byte |
| FtdiStream.FtdiStreamState.Callback | src/libftdi/ftdi_stream.c:64-112 | and what follows from the callback's last answer and the transfer's status |
| Checksum.FoldIsXor | src/libftdi/ftdi.c:3124-3142 | the rotating sum is the xor of the start value and all words, each rotated by the rounds that follow |
| Checksum.FoldDetects | src/libftdi/ftdi.c:3299-3322 | changing one word changes the sum, whatever the others are |
| Checksum.ComputeChecksum | src/libftdi/ftdi.c:3124-3142 | the loop over the image computes that sum, with the section it skips on the FT230X |
| Checksum.OneWordDetected | src/libftdi/ftdi.c:3299-3322 | of all changes to one word of a correct image exactly those to a covered word or the checksum itself fail the check |
| Checksum.SumIsXor | src/libftdi/ftdi.c:3299-3322 | the checksum of an image is the xor of its covered words suitably rotated |
| Checksum.SumBits | src/libftdi/ftdi.c:3124-3142 | each of the 16 bits of the checksum tells whether an odd number of certain bits of the image is set; it names them |
| Eeprom.OffsetsFit | src/libftdi/ftdi.c:2649-2677 | strings that pass the size test stay in order below the checksum, so their 8-bit offsets never wrap |
| Eeprom.FtdiEeprom.Put | src/libftdi/ftdi.c:2764-2814 | a byte at an offset changes one address only, the offset masked to the size |
| Eeprom.FtdiEeprom.WriteString | src/libftdi/ftdi.c:2769-2779 | a string descriptor at its place and nothing elsewhere |
| Eeprom.FtdiEeprom.WriteStrings | src/libftdi/ftdi.c:2764-2814 | table and three descriptors are in place together; the string area touches no other configuration |
| Eeprom.FtdiEeprom.Configure | src/libftdi/ftdi.c:2826-3122 | every bit of the bytes of the chip's layout, from the settings, and the strings are untouched |
| Eeprom.Assembled | src/libftdi/ftdi.c:2679-3122 | header, strings and configuration do not collide in an image of either size |
| Eeprom.FtdiEeprom.Build | src/libftdi/ftdi.c:2614-3146 | the error code, or the room left and a finished image for every chip, with every byte of header, strings, plug-and-play bytes, configuration and checksum, and zeros elsewhere; nothing changes on error |
| Eeprom.OneImage | src/libftdi/ftdi.c:2614-3146 | two finished images for the same settings, chip and size are the same in every byte, but for the section that the builder leaves alone |
| Eeprom.FtdiEeprom.Decode | src/libftdi/ftdi.c:3179-3436 | succeeds if and only if the checksum is right; what is set either way |
| Eeprom.FtdiEeprom.BuildAndDecode | src/libftdi/ftdi.c:2614-3436 | building succeeds exactly for a known chip and strings that fit; decoding then succeeds and recovers the settings as in RoundTrip |
| EepromDecode.GroupsRead | src/libftdi/ftdi.c:2944-2978 | the two pin groups of a byte do not disturb each other |
| EepromDecode.StringsRecovered | src/libftdi/ftdi.c:3236-3296 | each of the three strings comes back exactly when there was one of fewer than 256 characters |
| EepromDecode.HeaderRecovered | src/libftdi/ftdi.c:3193-3235 | ids and release come back if and only if they fit 16 bits, the power limit if and only if it is even and from 0 to 510 |
| EepromDecode.FlagsRecovered | src/libftdi/ftdi.c:3216-3234 | the flags of byte 0x0A that the chip has |
| EepromDecode.GroupsRecovered | src/libftdi/ftdi.c:3384-3397 | all four drive, schmitt and slew groups come back if and only if each is in range; a drive that is too strong comes back as the strongest |
| EepromDecode.Recovered2232C | src/libftdi/ftdi.c:3329-3338 | channel modes, drivers and currents of the FT2232C, each with its exact condition |
| EepromDecode.Recovered2232H | src/libftdi/ftdi.c:3364-3376 | channel modes, drivers and the suspend pin of the FT2232H, each with its exact condition |
| EepromDecode.Recovered4232H | src/libftdi/ftdi.c:3364-3384 | the four drivers and RS485 switches of the FT4232H, each with its exact condition |
| EepromDecode.RecoveredR | src/libftdi/ftdi.c:3339-3363 | current, inversion and five pins of the FT232R, pin by pin with the exact condition, also next to negative ones; the driver flag always decodes as 8, so it survives if and only if it was 8 |
| EepromDecode.Recovered232H | src/libftdi/ftdi.c:3399-3423 | channel, protocol, ten pins, one by one, and two groups of the FT232H, each with its exact condition |
| EepromDecode.Recovered230X | src/libftdi/ftdi.c:3424-3436 | the four pins of the FT230X; its drive groups are read as the fixed ones that the builder stores |
| EepromDecode.RoundTrip | src/libftdi/ftdi.c:2614-3436 | for every chip and size a finished image passes the checksum and decodes to the settings: header, strings, flags, USB version and all other settings that the builder stores for the chip, each with the exact condition under which it survives |
| Baud.Encoded | src/libftdi/ftdi.c:1143-1155 | divisors from 16 sixteenths up to 17 bits are recoverable from their encoding |
| Baud.DivisorRange | src/libftdi/ftdi.c:1143-1149 | no rate gives the divisor 0x20000, which the clamping would let through |
| Baud.ToClkbits | src/libftdi/ftdi.c:1120-1158 | the three special divisors by rate; else the divisor nearest to the exact one, within its 17 bits, unless clamped to the largest, and the nearest whole rate for it |
| Baud.ToClkbitsAM | src/libftdi/ftdi.c:1014-1115 | the choice is nearest among all divisors of the AM chip if and only if the rate is not in the band around 24000000 / 9 to 15; the encoding is recoverable |
| Baud.ConvertBaudrate | src/libftdi/ftdi.c:1164-1214 | for each chip by name: where the divisor, the clock switch and the port stand in value and index, and that the divisor served is the nearest to the rate |
| Baud.AcceptedRates | src/libftdi/ftdi.c:1250-1259 | the rates that pass the 5% test, exactly, for each chip by name but the AM |
| Baud.SomeRequests | src/libftdi/ftdi.c:1164-1214 | value and index for 9600, 115200 and 300 baud on chips of each kind, as numbers |
| Baud.AcceptedRatesAM | src/libftdi/ftdi.c:1250-1259 | likewise for the AM chip, whose missing fractions leave four gaps below 1575000 baud |
| Baud.SetBaudrate | src/libftdi/ftdi.c:1237-1272 | -1 exactly outside the accepted rates, -2 exactly for an accepted rate whose transfer fails, -3 exactly for a closed device; an accepted rate is requested with the value and index of the chip |
| JsonAccepts.DocParsed | src/config/json11.cpp:353-652 | white space (blanks, tabs, newlines, carriage returns) before a value of the grammar, with any white space between its tokens, and any text behind it that does not go on with a number: the parser takes exactly the white space and the value, and gives its meaning, if and only if it is nested at most 200 deep |
| JsonAccepts.LettersParsed | src/config/json11.cpp:404-491 | strings written with any mixture of plain characters, short escapes and hexadecimal escapes are read as what they mean, whatever escape is still pending |
| JsonAccepts.NumberParsed | src/config/json11.cpp:497-546 | every number of the grammar is read to its end; up to nine characters without fraction and exponent make an int |
| JsonSound.ValueSound | src/config/json11.cpp:568-652 | whatever the parser accepts starts with white space and a value of the grammar, and what is left does not go on with it |
| JsonSound.NumberSound | src/config/json11.cpp:497-546 | an accepted number is one of the grammar, with no leading zeros |
| JsonSound.AcceptedIsJson | src/config/json11.cpp:655-665 | a text is accepted if and only if it is a value of the grammar, nested at most 200 deep, with white space around it |
| JsonSound.WrittenParsed | src/config/json11.cpp:655-665 | and then it is parsed to the meaning of that value |
| JsonSound.IntsFit | src/config/json11.cpp:515-519 | numbers that are read as ints lie between -999999999 and 999999999, so that their conversion fits an int |
| JsonStray.StrayRefused | src/config/json11.cpp:568-652 | a character that is no white space, at any depth, where a value, a key or a colon must stand or behind an item or member, is refused unless it is one that the grammar allows there, whatever follows |
| JsonStray.BehindRefused | src/config/json11.cpp:655-665 | and so is anything but white space behind the value |
| JsonMap.ObjectIsMap | src/config/json11.cpp:586-625 | the members of an object are sorted by the bytes of their keys, and of several members with the same key the last one counts |
| JsonMap.LessIsBefore | src/config/json11.cpp:586-625 | the order of the keys is the lexicographic one of byte strings |
| JsonRoundTrip.EscapeParsed | src/config/json11.cpp:63-98 | reading undoes the printer's escapes for every byte string |
| JsonRoundTrip.ValueParsed | src/config/json11.cpp:568-652 | the text of a value, before anything that does not continue a number, gives that value and leaves the rest, unless it is nested too deep |
| JsonRoundTrip.DocPrinted | src/config/json11.cpp:43-128 | the text of a value is one of the grammar, as deep as the value, and means what the parser makes of it |
| JsonRoundTrip.RoundTrip | src/config/json11.cpp:655-665 | the text of a value is read without error if and only if the value is nested at most 200 deep, and then gives an equal value |
| JsonUnicode.UnitsParsed | src/config/json11.cpp:404-491 | any sequence of escaped code units is joined from left to right by the one pending code point, lone surrogates included |
| JsonUnicode.Utf16Joined | src/config/json11.cpp:452-467 | joining the units of a text in UTF-16 gives its code points |
| JsonUnicode.EscapedScalars | src/config/json11.cpp:379-491 | scalar values escaped in UTF-16 form are read as exactly their UTF-8 form |
| JsonUnicode.Utf8Kept | src/config/json11.cpp:379-397 | the bytes are marked as section 3 of RFC 3629 says, as few as possible, and hold the code point |
| JsonParser.JsonParser.ParseStringBody | src/config/json11.cpp:404-491 | the loop over the characters computes ParseString |
| JsonParser.JsonParser.ParseNumberBody | src/config/json11.cpp:497-546 | numbers likewise |
| JsonParser.JsonParser.ExpectWord | src/config/json11.cpp:553-562 | the three words likewise |
| JsonParser.JsonParser.ParseJson | src/config/json11.cpp:568-652 | the recursive parser, with its steps back, ends on every text and computes ParseValue |
| JsonParser.ParseText | src/config/json11.cpp:655-665 | succeeds if and only if the text is one value of the grammar, nested at most 200 deep, with white space around it, and then returns what it means |
| JsonPrinter.DumpString | src/config/json11.cpp:63-98 | the printed string is the escaped one |
| JsonPrinter.Dump | src/config/json11.cpp:43-128 | printing appends exactly the text of the value |
| JsonPrinter.DumpAndParse | src/config/json11.cpp:43-665 | printing and parsing succeeds if and only if the value is nested at most 200 deep, with an equal value |
| BitFormat.FileParsed | src/devices/xc3sprog/bitfile.cpp:50-86 | a file written from header and data is read back as both, with nothing left over |
| BitFormat.FileIsLaidOut | src/devices/xc3sprog/bitfile.cpp:487-539 | every byte of a saved file in its place: the 13 bytes of the preamble, the keys, the lengths with the high byte first, and the data with the bits of each byte in reverse |
| BitFormat.BitsKept | src/devices/xc3sprog/bitfile.cpp:646-655 | cutting the data keeps `get_bit` for every index if and only if only 0xff bytes are cut |
| BitFile.BitFile.ReadField | src/devices/xc3sprog/bitfile.cpp:617-627 | a field, or the end of the file |
| BitFile.BitFile.ProcessData | src/devices/xc3sprog/bitfile.cpp:334-350 | the data with every byte reversed; more bytes behind them are reported, fewer are an error |
| BitFile.BitFile.ReadBitfile | src/devices/xc3sprog/bitfile.cpp:50-86 | the loader computes ParseFile, on every file |
| BitFile.BitFile.Clip | src/devices/xc3sprog/bitfile.cpp:477-479 | only 0xff bytes are clipped, as many as possible, but never the first byte |
| BitFile.BitFile.SetNCDFields | src/devices/xc3sprog/bitfile.cpp:414-453 | which header fields are filled in |
| BitFile.BitFile.SaveAs | src/devices/xc3sprog/bitfile.cpp:469-608 | the saved form of header and clipped data in five styles; for a .bit file every byte in its place |
| BitFile.BitFile.SaveLines | src/devices/xc3sprog/bitfile.cpp:564-602 | the writer's loop over bytes makes exactly the records of the data |
| BitFile.SaveByte | src/devices/xc3sprog/bitfile.cpp:570-597 | one round of it keeps records and started record in step with the bytes |
| BitFile.TextChecksum | src/devices/xc3sprog/bitfile.cpp:455-467 | the checksum of a record's text is that of its bytes |
| BitFile.BitFile.ReadMcsFile | src/devices/xc3sprog/bitfile.cpp:167-292 | the reader's loops compute ReadLines, which refuses lines without a signature of hexadecimal digits |
| BitFile.BitFile.ReadTextFile | src/devices/xc3sprog/bitfile.cpp:295-331 | MCS data are reversed byte by byte, IHEX data are not |
| BitFile.SaveAndLoadBit | src/devices/xc3sprog/bitfile.cpp:476-539 | saving and loading works whenever there are data, keeps every header field below 64 KB after filling in, and keeps `get_bit` for every index |
| BitFile.SaveAndLoadText | src/devices/xc3sprog/bitfile.cpp:167-292 | MCS and IHEX files restore the clipped data if and only if their length is not 15 modulo 16 |
| IntelHex.CheckCancels | src/devices/xc3sprog/bitfile.cpp:455-467 | bytes and checksum of a record add up to zero (section 2 of the Intel Hexadecimal Object File Format Specification) |
| IntelHexRecords.DigitsAre | src/devices/xc3sprog/bitfile.cpp:564-602 | digits are printed in upper case, and lower case is read as well |
| IntelHexRecords.HexAre | src/devices/xc3sprog/bitfile.cpp:188-211 | the 22 characters that are taken for digits |
| IntelHexRecords.RecordIs | src/devices/xc3sprog/bitfile.cpp:564-602 | a record is a colon and two upper-case digits for each byte, high digit first, and the last byte makes the sum of all a multiple of 256 |
| IntelHexRecords.DataBytesAre | src/devices/xc3sprog/bitfile.cpp:582-590 | count, low 16 bits of the address, type 0 and data of the record at each position; 15 bytes are counted as 16 |
| IntelHexRecords.AddressBytesAre | src/devices/xc3sprog/bitfile.cpp:575-581 | an address record has type 4 and the upper 16 bits |
| IntelHexRecords.EndLineIs | src/devices/xc3sprog/bitfile.cpp:598-602 | the last line |
| IntelHexRecords.DataRecordRead | src/devices/xc3sprog/bitfile.cpp:202-217 | every data record that fits the buffer is stored at its address, or refused exactly when its bytes do not add up to a multiple of 256 |
| IntelHexRecords.AddressRecordRead | src/devices/xc3sprog/bitfile.cpp:221-262 | extended segment and linear address records set the address, bit by bit, or leave it where it agrees already; checksum likewise |
| IntelHexRecords.StartRecordRead | src/devices/xc3sprog/bitfile.cpp:235-274 | start address records change nothing; checksum likewise |
| IntelHexRecords.EndRecordRead | src/devices/xc3sprog/bitfile.cpp:218-220 | the end record hands out what was loaded, without a look at its checksum |
| IntelHexRecords.OtherRecordRead | src/devices/xc3sprog/bitfile.cpp:275-278 | any other type is refused |
| IntelHexRoundTrip.AddressRead | src/devices/xc3sprog/bitfile.cpp:575-581 | the address record before each 64 KB is accepted and matches where the reader is |
| IntelHexRoundTrip.DataLineRead | src/devices/xc3sprog/bitfile.cpp:167-292 | a data record brings the reader on by its bytes, unless it is a last one of 15 |
| IntelHexRoundTrip.LinesRead | src/devices/xc3sprog/bitfile.cpp:167-292 | all records of data of any length, across 64 KB boundaries, are loaded as the data |
| IntelHexRoundTrip.ShortLineRead | src/devices/xc3sprog/bitfile.cpp:584-590 | a last record of 15 bytes claims 16: it is refused, or leaves one byte too many |
| IntelHexRoundTrip.RoundTrip | src/devices/xc3sprog/bitfile.cpp:564-602 | written and read data are the same, except when their length is 15 modulo 16, where they never are; this holds for every value that the unset checksum variable may have on each line, its last value included |
| IntelHexRoundTrip.RoomEnough | src/devices/xc3sprog/bitfile.cpp:167-182 | half the file size is enough room |
| ClientConnection.ClientConnection.SendPacket | src/network/ClientConnection.cpp:47-57 | a packet joins the queue; one write is posted if the queue was empty |
| ClientConnection.ClientConnection.Complete | src/network/ClientConnection.cpp:109-139 | a completed write moves the offset or the queue on by exactly the bytes taken |
| ClientConnection.AfterKeeps | src/network/ClientConnection.cpp:47-139 | every event keeps: at most one write posted or in flight, none exactly when the queue is empty, and socket and queue together hold all packets in order |
| ClientConnection.ClientConnection.Run | src/network/ClientConnection.cpp:47-139 | in every interleaving the state is what the events make of it one by one, with at most one write posted or in flight, none exactly when the queue is empty, and a prefix of all packets in order on the socket |
| ClientConnection.ClientConnection.Drain | src/network/ClientConnection.cpp:109-139 | a socket that takes what it is offered gets every byte |
| DeviceManager.DeviceManager.UsbDeviceAdded | src/devices/DeviceManager.cpp:101-150 | exactly which devices join both maps and are reported |
| DeviceManager.DeviceManager.UsbDeviceRemoved | src/devices/DeviceManager.cpp:152-157 | a known device leaves both maps and is reported, an unknown one changes nothing |
| DeviceManager.DeviceManager.RemoveDevice | src/devices/DeviceManager.cpp:159-171 | the maps stay in one-to-one agreement |
| DeviceManager.DeviceManager.PeriodicRegisterUpdates | src/devices/DeviceManager.cpp:173-192 | exactly the failing devices leave both maps, each reported once |
| DeviceManager.DeviceManager.GetDeviceList | src/devices/DeviceManager.cpp:233-237 | the list has every attached device once |
| FpgaClient.FpgaClient.ParseData | client/python/lib/pyfpgaclient/FpgaClientBase.py:98-121 | answers wait in order, events take effect at once |
| FpgaClient.FpgaClient.HandleDeviceListChanges | client/python/lib/pyfpgaclient/FpgaClientBase.py:167-177 | the devices are those of the list |
| FpgaClient.FpgaClient.GetDeviceList | client/python/lib/pyfpgaclient/FpgaClientBase.py:179-184 | takes the answer that waits, or reads chunks up to the first with an answer; a list overrides everything that was read, an error leaves what the events made |
| FpgaClient.EffectsByFate | client/python/lib/pyfpgaclient/FpgaClientBase.py:98-157 | after any events a device is known if and only if the last event for it added it, or there was none and it was known |
| DeviceMirror.KnownConcat | client/python/lib/pyfpgaclient/FpgaClientBase.py:98-184 | messages may be delivered in any pieces |
| DeviceMirror.ServerStep | src/devices/DeviceManager.cpp:101-192 | no event of the manager takes the client out of step, also while a request, a device list or another answer is under way |
| DeviceMirror.AnswerRecovers | client/python/lib/pyfpgaclient/FpgaClientBase.py:179-184 | an answered request puts the client back into step, however far out of it it was |
| DeviceMirror.DeliverEvents | client/python/lib/pyfpgaclient/FpgaClientBase.py:98-121 | reading events changes nothing about being in step |
| DeviceMirror.LostEvents | client/python/lib/pyfpgaclient/FpgaClientBase.py:123-184 | leaving out some events makes no difference in the end if and only if, for every device that they touch and no later message does, the last of them says what was known before |
| DeviceMirror.DeliverList | client/python/lib/pyfpgaclient/FpgaClientBase.py:123-184 | reading a chunk with the device list leaves the client in step if and only if no event behind the list in that chunk is lost |
| DeviceMirror.PromptList | client/python/lib/pyfpgaclient/FpgaClientBase.py:123-184 | a chunk that ends with the list loses nothing |
| DeviceMirror.StepMatches | src/devices/DeviceManager.cpp:101-192 | the two maps stay in one-to-one agreement |
| DeviceMirror.RunInStep | src/devices/DeviceManager.cpp:101-192 | in every run, with requests of any kind, the list, other answers and errors, and deliveries interleaved with events in any way, the client is in step at all times if and only if it starts in step and no list comes with events behind it that are lost |
| DeviceMirror.DeviceMirror.Run | src/devices/DeviceManager.cpp:101-192 | manager, wire and client go through exactly such a run; whenever the client is in step and nothing is under way both sides have the same devices |
| DeviceMirror.LateEvents | client/python/lib/pyfpgaclient/FpgaClientBase.py:123-184 | `get_device_list` leaves the client with what all messages together say if and only if the last event behind the list, for every device touched there, says what the list says |
| DeviceMirror.LateAdded | client/python/lib/pyfpgaclient/FpgaClientBase.py:123-184 | a run at whose end nothing is under way and the client misses an attached device, which was plugged in behind the answer |

## Left out

- Opening and configuring adapters, reset, latency, line properties, EEPROM get and set switches and the FTD2XX branches: thin control transfers.
- `readusb` timeouts and retries, `deinit`, debug logging and `IOFtdi::Usleep`.
- Integer widths in bit counts: lengths of shifts are unbounded, which agrees with the code while 8 times the data length is below 2^31.
- Jtag.Jtag.ShiftDR: does not model `align`, which no caller uses.
- Jtag.Jtag.ShiftIR: takes the instruction lengths as recorded; that they are those of the devices is assumed in the chain theorems, since the callers set them.
- Jtag.Jtag.Detect: the instruction length of a device found is left open, as the code leaves it uninitialised.
- Scans.ShiftIrSelects: starts and ends in Run-Test/Idle, the default end state (ProgAlg.Instructs adds Test-Logic-Reset as a start); the setters for other end states have no callers.
- ProgAlg.ProgAlgXC3S.FlowProgramLegacy: assumes instruction lengths of at most 16, the size of the instruction constants, and data in the file when the device is the one next to TDI, since there a last shift of length zero loses the controller (Jtag.Jtag.ShiftDR, Tap.MissedClock); what the device does with the data is not modelled.
- ProgAlg.ProgAlgXC3S.WaitCleared: assumes that the device reports a cleared configuration at some time; if it never does, the code polls forever.
- ProgAlg.ProgAlgXC3S.ArrayProgram: the old Spartan-II families take another algorithm, which is not part of this model; instruction lengths are at most 8, the size of the status buffer; pauses are left out; the identifier is read but not compared, since the comparison has no effect.
- Chain.Pattern: the status of a device may differ from one instruction to the next in any way, but not between two captures without an update, which the driver never makes.
- DeviceProgrammer.Connect: the code sets the instruction length of the two known FPGAs to 6, so a device with one of their codes and another length is connected but not ready.
- DeviceProgrammer.DeviceProgrammer.Program: a file whose data field is empty is excluded for the device next to TDI, as in FlowProgramLegacy; opening the cable and the file may fail in ways that are left out; one algorithm object serves all files, since it has no state of its own.
- IoFtdi.IoFtdi.Shift: the comment at src/devices/xc3sprog/iobase.cpp:84 speaks of zeros when only reading; the code leaves TDI at its last level (and drives it low on a separate last clock), and so does the model.
- IoFtdi.IoFtdi.MpsseSend: short and failed USB writes, which the code turns into exceptions, are left out.
- IoFtdi.IoFtdi.ReadUsb: returns the wanted number of replies, without retries and timeouts; the comments on sampling edges disagree with the opcode flags, and the model follows the flags.
- The bit reversal table is modelled as the permutation of bits it lists.
- FtdiRead.FtdiContext.ReadData: packets are longer than 2 bytes, as on every chip; for packet size 0 the error is modelled. After a failed transfer the bytes already copied are lost, which the documentation does not say; the model follows the code. The return of -127 at the end is never reached.
- FtdiTransfers.TransferDataDone: what the event loop reports, call by call, is a parameter; with nothing left to report the real wait does not end.
- FtdiStream.FtdiStreamState.Deframe: progress reports and time measurement are left out.
- Eeprom.FtdiEeprom.Build: EEPROM size 0x40, verbose output and settings that the builder does not store are left out, among them the chip field of the FT232R. Negative drive strengths are stored but not promised back.
- Eeprom.FtdiEeprom.Decode: the string table has to point into the image, as that of every finished image does; the code does not check it.
- Eeprom.FtdiEeprom.WritePnP: on an FT230X whose user area is full these bytes run into the checksum, which is computed later, and around to address 0, which the model shows; on an FT230X with 128 bytes the last pin function overwrites the length byte of the first descriptor, which decoding does not use.
- Baud.ConvertBaudrate: rates whose product with 10 or 4 exceeds 31 bits, where the code overflows.
- JsonRoundTrip.RoundTrip: doubles are left out, and converting digits to a number is a parameter that is exact on integers; error texts, `parse_multi` and `has_shape` are left out.
- JsonStray.StrayRefused: a character that goes on with the number in front of it, such as a digit behind a digit, is not misplaced and is excluded.
- JsonParser.ParseText: says nothing about the value returned by a failed parse, which is not always null.
- BitFile.BitFile.ReadMcsFile: text files are sequences of lines without their ends; lines behind whose signature digits are missing, where the code would use uninitialised variables, and lines with white space, signs or an x, for which `sscanf` has other rules, are outside the contract.
- BitFile.BitFile.SaveAs: an explicit length beyond the data is excluded, since the code then reads behind the buffer; HEX styles, file errors and the clock are left out; a missing time also replaces the date, as in the code.
- BitFile.BitFile.ReadFields: failure of the data field is the exception of the code, which readBitfile turns into an error.
- ClientConnection.ClientConnection.Run: socket errors close the connection and are left out.
- DeviceManager.DeviceManager.RemoveDevice: callbacks are registered and do not throw; the code tests the added callback before it calls the removed one.
- DeviceMirror.DeviceMirror.Run: there is one client, which makes one request at a time.
- Connection handling, request dispatch, device descriptions loaded from files, the Qt client and the test application.
