/** The binary command frame: validation, and the handle fields an accepted frame sets. */
module CommandDecoder {
  import opened Bytes
  import opened BusLines

  const MAGIC: byte := 0xF5
  const VERSION: byte := 1
  const HEADER_SIZE := 7
  const MEMORY_SIZE := 58
  const CONFIG_SIZE := 14
  const ADDRESS_LINES := 20
  const BUS_LINES := 24
  const LINE_ABSENT: byte := 0xFF
  const READ_TIMING_MAX_US := 1000
  const VPP_MAX_MV := 25000
  const REVISION_MAX: byte := 5

  const CMD_READ: byte := 1
  const CMD_WRITE: byte := 2
  const CMD_CONFIG: byte := 14

  const DECODE_OK: byte := 0
  const REFUSE_LENGTH: byte := 1
  const REFUSE_FLAGS: byte := 2
  const REFUSE_ADDRESS_LINE: byte := 3
  const REFUSE_ADDRESS_DUPLICATE: byte := 4
  const REFUSE_ADDRESS_GAP: byte := 5
  const REFUSE_CONTROL_LINE: byte := 6
  const REFUSE_STATIC_HIGH: byte := 7
  const REFUSE_READ_TIMING: byte := 8
  const REFUSE_CONFIG_FIELD: byte := 9
  const REFUSE_MISSING_FIELD: byte := 10
  const REFUSE_ADDRESS_RANGE: byte := 11
  const REFUSE_VPP_RANGE: byte := 12
  const REFUSE_REVISION: byte := 14
  const BAD_VERSION: byte := 0xFE
  const BAD_FRAME: byte := 0xFF

  datatype PayloadKind = NoPayload | MemoryPayload | ConfigPayload

  function KindOf(cmd: byte): PayloadKind {
    if cmd in {1, 2, 3, 5, 7, 8, 9, 10, 16} then MemoryPayload
    else if cmd == CMD_CONFIG then ConfigPayload
    else NoPayload
  }

  predicate IsMemoryCommand(cmd: byte) {
    cmd in {1, 2, 3, 5, 9, 10, 16}
  }

  function Be16(p: seq<byte>, off: nat): uint16
    requires off + 2 <= |p|
  {
    (p[off] as int) * 0x100 + p[off + 1]
  }

  function Be32(p: seq<byte>, off: nat): uint32
    requires off + 4 <= |p|
  {
    (p[off] as int) * 0x100_0000 + (p[off + 1] as int) * 0x1_0000 + (p[off + 2] as int) * 0x100 + p[off + 3]
  }

  // ----- The memory payload -----

  type MemoryFields = p: seq<byte> | |p| == MEMORY_SIZE witness seq(MEMORY_SIZE, i => 0)

  function MemSize(p: MemoryFields): uint32 { Be32(p, 0) }
  function StartAddress(p: MemoryFields): uint32 { Be32(p, 4) }
  function RegionEnd(p: MemoryFields): uint32 { Be32(p, 8) }
  function Protocol(p: MemoryFields): byte { p[12] }
  function Pins(p: MemoryFields): byte { p[13] }
  function VppMv(p: MemoryFields): uint16 { Be16(p, 14) }
  function PulseDelay(p: MemoryFields): uint32 { Be32(p, 16) }
  function ChipId(p: MemoryFields): uint16 { Be16(p, 20) }
  function PageSize(p: MemoryFields): uint16 { Be16(p, 22) }
  function ReadSettlingUs(p: MemoryFields): uint32 { Be32(p, 24) }
  function ReadStrobeUs(p: MemoryFields): uint32 { Be32(p, 28) }
  function AddressLines(p: MemoryFields): seq<byte> { p[32..52] }
  function RwLine(p: MemoryFields): byte { p[52] }
  function VppLine(p: MemoryFields): byte { p[53] }
  function StaticHigh(p: MemoryFields): uint32 { Be32(p, 54) }

  // ----- What validation establishes -----

  /** Present lines come first, are on the bus and are all different. */
  ghost predicate GoodLines(lines: seq<byte>) {
    && (forall i, j :: 0 <= i < j < |lines| && lines[i] == LINE_ABSENT ==> lines[j] == LINE_ABSENT)
    && (forall i :: 0 <= i < |lines| && lines[i] != LINE_ABSENT ==> lines[i] < BUS_LINES)
    && (forall i, j :: 0 <= i < j < |lines| && lines[i] != LINE_ABSENT ==> lines[i] != lines[j])
  }

  /** The refusal for the first line that spoils the lines before it. */
  ghost function LineFault(lines: seq<byte>, j: nat): byte
    requires j < |lines|
  {
    if LINE_ABSENT in lines[..j] then REFUSE_ADDRESS_GAP
    else if lines[j] >= BUS_LINES then REFUSE_ADDRESS_LINE
    else REFUSE_ADDRESS_DUPLICATE
  }

  ghost predicate LinesRefused(lines: seq<byte>, code: byte) {
    exists j :: 0 <= j < |lines| && GoodLines(lines[..j]) && !GoodLines(lines[..j + 1]) && code == LineFault(lines, j)
  }

  predicate BusLineValid(line: byte) {
    line == LINE_ABSENT || line < BUS_LINES
  }

  /** The end of the operation that a start address must not pass. */
  function CheckedEnd(cmd: byte, p: MemoryFields): uint32 {
    if cmd == CMD_WRITE && RegionEnd(p) != 0 && RegionEnd(p) < MemSize(p) then RegionEnd(p) else MemSize(p)
  }

  /** The checks behind the address lines, in the order the firmware makes them. */
  function OtherVerdict(cmd: byte, p: MemoryFields): byte {
    if !BusLineValid(RwLine(p)) || !BusLineValid(VppLine(p)) then REFUSE_CONTROL_LINE
    else if StaticHigh(p) >= 0x100_0000 then REFUSE_STATIC_HIGH
    else if ReadSettlingUs(p) > READ_TIMING_MAX_US || ReadStrobeUs(p) > READ_TIMING_MAX_US then REFUSE_READ_TIMING
    else if IsMemoryCommand(cmd) && (MemSize(p) == 0 || Protocol(p) == 0 || Pins(p) == 0 || VppMv(p) == 0) then
      REFUSE_MISSING_FIELD
    else if VppMv(p) > VPP_MAX_MV then REFUSE_VPP_RANGE
    else if (cmd == CMD_READ || cmd == CMD_WRITE) && StartAddress(p) > CheckedEnd(cmd, p) then REFUSE_ADDRESS_RANGE
    else DECODE_OK
  }

  ghost predicate MemoryVerdict(cmd: byte, p: MemoryFields, code: byte) {
    if GoodLines(AddressLines(p)) then code == OtherVerdict(cmd, p) else LinesRefused(AddressLines(p), code)
  }

  /** One more line keeps the lines good unless it follows a gap, lies off the bus or repeats. */
  lemma GoodLinesExtend(lines: seq<byte>, line: byte)
    requires GoodLines(lines)
    ensures GoodLines(lines + [line])
       <==> line == LINE_ABSENT || (LINE_ABSENT !in lines && line < BUS_LINES && line !in lines)
  {
    var more := lines + [line];
    var n := |lines|;
    assert more[n] == line;
    assert forall i :: 0 <= i < n ==> more[i] == lines[i];
    if line != LINE_ABSENT {
      if LINE_ABSENT in lines {
        var k :| 0 <= k < n && lines[k] == LINE_ABSENT;
        assert more[k] == LINE_ABSENT && more[n] != LINE_ABSENT;
      } else if line in lines {
        var k :| 0 <= k < n && lines[k] == line;
        assert more[k] == more[n];
      }
    }
  }

  /** A bad stretch from the first line on spoils all the lines. */
  lemma BadPrefix(lines: seq<byte>, n: nat)
    requires n <= |lines| && !GoodLines(lines[..n])
    ensures !GoodLines(lines)
  {
  }

  method ValidateLines(lines: seq<byte>) returns (res: byte)
    ensures if GoodLines(lines) then res == DECODE_OK else LinesRefused(lines, res)
    ensures res == DECODE_OK <==> GoodLines(lines)
  {
    var seen: set<byte> := {};
    var ended := false;
    for i := 0 to |lines|
      invariant GoodLines(lines[..i])
      invariant ended <==> LINE_ABSENT in lines[..i]
      invariant forall b: byte :: b in seen <==> b != LINE_ABSENT && b in lines[..i]
    {
      GoodLinesExtend(lines[..i], lines[i]);
      assert lines[..i + 1] == lines[..i] + [lines[i]];
      if lines[i] == LINE_ABSENT {
        ended := true;
        continue;
      }
      if !GoodLines(lines[..i + 1]) {
        BadPrefix(lines, i + 1);
        assert LinesRefused(lines, LineFault(lines, i));
      }
      if ended {
        return REFUSE_ADDRESS_GAP;
      }
      if lines[i] >= BUS_LINES {
        return REFUSE_ADDRESS_LINE;
      }
      if lines[i] in seen {
        return REFUSE_ADDRESS_DUPLICATE;
      }
      seen := seen + {lines[i]};
    }
    assert lines[..|lines|] == lines;
    return DECODE_OK;
  }

  method ValidateMemory(cmd: byte, p: MemoryFields) returns (res: byte)
    ensures MemoryVerdict(cmd, p, res)
    ensures res == DECODE_OK <==> GoodLines(AddressLines(p)) && OtherVerdict(cmd, p) == DECODE_OK
  {
    res := ValidateLines(AddressLines(p));
    if res == DECODE_OK {
      res := CheckOthers(cmd, p);
    }
  }

  method CheckOthers(cmd: byte, p: MemoryFields) returns (res: byte)
    ensures res == OtherVerdict(cmd, p)
  {
    if !BusLineValid(RwLine(p)) || !BusLineValid(VppLine(p)) {
      return REFUSE_CONTROL_LINE;
    }
    if StaticHigh(p) / 0x100_0000 != 0 {
      return REFUSE_STATIC_HIGH;
    }
    if ReadSettlingUs(p) > READ_TIMING_MAX_US || ReadStrobeUs(p) > READ_TIMING_MAX_US {
      return REFUSE_READ_TIMING;
    }
    if IsMemoryCommand(cmd) && (MemSize(p) == 0 || Protocol(p) == 0 || Pins(p) == 0 || VppMv(p) == 0) {
      return REFUSE_MISSING_FIELD;
    }
    if VppMv(p) > VPP_MAX_MV {
      return REFUSE_VPP_RANGE;
    }
    if cmd == CMD_READ || cmd == CMD_WRITE {
      var end := MemSize(p);
      if cmd == CMD_WRITE {
        var regionEnd := RegionEnd(p);
        if regionEnd != 0 && regionEnd < MemSize(p) {
          end := regionEnd;
        }
      }
      if StartAddress(p) > end {
        return REFUSE_ADDRESS_RANGE;
      }
    }
    return DECODE_OK;
  }

  /** The checks behind the lines are passed exactly by payloads whose control lines are absent
      or on the bus, whose fixed lines lie on it, whose timings and voltage are within their
      limits, whose part is described where the command needs it, and which start inside. */
  lemma OthersPassIff(cmd: byte, p: MemoryFields)
    ensures OtherVerdict(cmd, p) == DECODE_OK
       <==> && (p[52] == 0xFF || p[52] < 24) && (p[53] == 0xFF || p[53] < 24) && p[54] == 0
            && ReadSettlingUs(p) <= 1000 && ReadStrobeUs(p) <= 1000 && VppMv(p) <= 25000
            && (cmd in {1, 2, 3, 5, 9, 10, 16} ==> MemSize(p) > 0 && p[12] > 0 && p[13] > 0 && VppMv(p) > 0)
            && (cmd in {1, 2} ==> StartAddress(p) <= MemSize(p))
            && (cmd == 2 && RegionEnd(p) > 0 ==> StartAddress(p) <= RegionEnd(p))
  {
  }

  // ----- What a host writes into a frame -----

  /** The fields of a memory command. */
  datatype Fields = Fields(
    memSize: uint32, start: uint32, regionEnd: uint32, protocol: byte, pins: byte, vppMv: uint16, pulseDelay: uint32,
    chipId: uint16, pageSize: uint16, settlingUs: uint32, strobeUs: uint32, lines: seq<byte>, rwLine: byte,
    vppLine: byte, staticHigh: uint32)

  function To16(x: uint16): seq<byte> {
    [x / 0x100, x % 0x100]
  }

  function To32(x: uint32): seq<byte> {
    [x / 0x100_0000, x / 0x1_0000 % 0x100, x / 0x100 % 0x100, x % 0x100]
  }

  /** The payload that carries these fields: big-endian numbers, one field behind the other. */
  predicate LaidOut(p: MemoryFields, f: Fields) {
    DeviceLaidOut(p, f) && TimingsAndLinesLaidOut(p, f)
  }

  predicate DeviceLaidOut(p: MemoryFields, f: Fields) {
    && p[0..4] == To32(f.memSize) && p[4..8] == To32(f.start) && p[8..12] == To32(f.regionEnd)
    && p[12..14] == [f.protocol, f.pins] && p[14..16] == To16(f.vppMv) && p[16..20] == To32(f.pulseDelay)
    && p[20..22] == To16(f.chipId) && p[22..24] == To16(f.pageSize)
  }

  predicate TimingsAndLinesLaidOut(p: MemoryFields, f: Fields) {
    && p[24..28] == To32(f.settlingUs) && p[28..32] == To32(f.strobeUs)
    && p[32..52] == f.lines && p[52..54] == [f.rwLine, f.vppLine] && p[54..58] == To32(f.staticHigh)
  }

  lemma Number16(p: seq<byte>, off: nat, x: uint16)
    requires off + 2 <= |p|
    ensures Be16(p, off) == x <==> p[off..off + 2] == To16(x)
  {
    var part := p[off..off + 2];
    assert part[0] == p[off] && part[1] == p[off + 1];
    Digit(p[off] as nat, p[off + 1], x);
  }

  lemma Number32(p: seq<byte>, off: nat, x: uint32)
    requires off + 4 <= |p|
    ensures Be32(p, off) == x <==> p[off..off + 4] == To32(x)
  {
    var part := p[off..off + 4];
    assert part[0] == p[off] && part[1] == p[off + 1] && part[2] == p[off + 2] && part[3] == p[off + 3];
    Digits(p[off], p[off + 1], p[off + 2], p[off + 3], x);
  }

  lemma Digits(a: byte, b: byte, c: byte, d: byte, x: uint32)
    ensures (a as int) * 0x100_0000 + (b as int) * 0x1_0000 + (c as int) * 0x100 + d == x
       <==> a == x / 0x100_0000 && b == x / 0x1_0000 % 0x100 && c == x / 0x100 % 0x100 && d == x % 0x100
  {
    var ab := (a as nat) * 0x100 + b;
    var abc := ab * 0x100 + c;
    Digit(abc, d, x);
    Digit(ab, c, x / 0x100);
    Digit(a as nat, b, x / 0x1_0000);
    assert x / 0x100 / 0x100 == x / 0x1_0000 && x / 0x1_0000 / 0x100 == x / 0x100_0000;
  }

  lemma Digit(high: nat, low: byte, x: nat)
    ensures high * 0x100 + low == x <==> high == x / 0x100 && low == x % 0x100
  {
  }

  lemma PairOfBytes(p: seq<byte>, off: nat, x: byte, y: byte)
    requires off + 2 <= |p|
    ensures p[off] == x && p[off + 1] == y <==> p[off..off + 2] == [x, y]
  {
    assert p[off..off + 2] == [p[off], p[off + 1]];
  }

  lemma DeviceReadIff(p: MemoryFields, f: Fields)
    ensures DeviceLaidOut(p, f)
       <==> && MemSize(p) == f.memSize && StartAddress(p) == f.start && RegionEnd(p) == f.regionEnd
            && Protocol(p) == f.protocol && Pins(p) == f.pins && VppMv(p) == f.vppMv
            && PulseDelay(p) == f.pulseDelay && ChipId(p) == f.chipId && PageSize(p) == f.pageSize
  {
    Number32(p, 0, f.memSize);
    Number32(p, 4, f.start);
    Number32(p, 8, f.regionEnd);
    PairOfBytes(p, 12, f.protocol, f.pins);
    Number16(p, 14, f.vppMv);
    Number32(p, 16, f.pulseDelay);
    Number16(p, 20, f.chipId);
    Number16(p, 22, f.pageSize);
  }

  lemma TimingsAndLinesReadIff(p: MemoryFields, f: Fields)
    ensures TimingsAndLinesLaidOut(p, f)
       <==> && ReadSettlingUs(p) == f.settlingUs && ReadStrobeUs(p) == f.strobeUs
            && AddressLines(p) == f.lines && RwLine(p) == f.rwLine && VppLine(p) == f.vppLine
            && StaticHigh(p) == f.staticHigh
  {
    Number32(p, 24, f.settlingUs);
    Number32(p, 28, f.strobeUs);
    PairOfBytes(p, 52, f.rwLine, f.vppLine);
    Number32(p, 54, f.staticHigh);
  }

  /** The accessors return the fields of a payload: these and no others, each from its own
      bytes. */
  lemma FieldsReadIff(p: MemoryFields, f: Fields)
    ensures LaidOut(p, f)
       <==> f == Fields(MemSize(p), StartAddress(p), RegionEnd(p), Protocol(p), Pins(p), VppMv(p), PulseDelay(p),
                        ChipId(p), PageSize(p), ReadSettlingUs(p), ReadStrobeUs(p), AddressLines(p), RwLine(p),
                        VppLine(p), StaticHigh(p))
  {
    DeviceReadIff(p, f);
    TimingsAndLinesReadIff(p, f);
  }

  // ----- The bus configuration of an accepted frame -----

  datatype BusConfig = BusConfig(
    addressLines: seq<byte>,
    addressMask: Word,
    matchingLines: nat,
    rwLine: byte,
    vppLine: byte,
    readHighNeedsRegOff: bool,
    staticHighMask: Word,
    readHighMask: Word)

  /** The number of lines before the first absent one. */
  function LineCount(lines: seq<byte>): (n: nat)
    ensures n <= |lines|
    ensures n < |lines| ==> lines[n] == LINE_ABSENT
    ensures forall i :: 0 <= i < n ==> lines[i] != LINE_ABSENT
  {
    if lines == [] || lines[0] == LINE_ABSENT then 0 else 1 + LineCount(lines[1..])
  }

  /** The bus lines that the first `n` address bits drive. */
  function LinesOf(lines: seq<byte>, n: nat): set<nat>
    requires n <= |lines|
  {
    set i | 0 <= i < n :: lines[i]
  }

  /** The first `n` address bits drive the bus lines of the same number. */
  ghost predicate Straight(lines: seq<byte>, n: nat) {
    n <= |lines| && forall i :: 0 <= i < n ==> lines[i] == i
  }

  function LowSixteen(): Word {
    {0, 1, 2, 3, 4, 5, 6, 7, 8, 9, 10, 11, 12, 13, 14, 15}
  }

  /** The fields derived from good address lines: the mask of the driven lines and the length
      of the straight stretch; with no line at all the low sixteen bits pass through. */
  ghost predicate DerivedBus(bus: BusConfig) {
    var lines := bus.addressLines;
    var count := LineCount(lines);
    && |lines| == ADDRESS_LINES
    && GoodLines(lines)
    && BusLineValid(bus.rwLine)
    && BusLineValid(bus.vppLine)
    && (forall n :: n in bus.staticHighMask ==> n < BUS_LINES)
    && bus.addressMask == (if count == 0 then LowSixteen() else LinesOf(lines, count))
    && bus.matchingLines <= count
    && Straight(lines, bus.matchingLines)
    && (bus.matchingLines < count ==> lines[bus.matchingLines] != bus.matchingLines)
  }

  /** One pass over the present lines collects the mask and the straight stretch. */
  method DeriveMask(lines: seq<byte>) returns (mask: Word, matching: nat)
    requires |lines| == ADDRESS_LINES && GoodLines(lines)
    ensures var count := LineCount(lines);
            && mask == (if count == 0 then LowSixteen() else LinesOf(lines, count))
            && matching <= count
            && Straight(lines, matching)
            && (matching < count ==> lines[matching] != matching)
  {
    mask, matching := {}, 0;
    var count := 0;
    while count < ADDRESS_LINES && lines[count] != LINE_ABSENT
      invariant count <= ADDRESS_LINES && forall i :: 0 <= i < count ==> lines[i] != LINE_ABSENT
      invariant mask == LinesOf(lines, count)
      invariant matching <= count && Straight(lines, matching)
      invariant matching < count ==> lines[matching] != matching
    {
      mask := mask + {lines[count]};
      if matching == count && lines[count] == count {
        matching := count + 1;
      }
      count := count + 1;
    }
    assert count == LineCount(lines);
    if count == 0 {
      mask := LowSixteen();
    }
  }

  // ----- The handle -----

  /** The fields of the programmer's handle that a command frame writes. */
  class Handle {
    var cmd: byte
    var ctrlFlags: uint16
    var protocol: byte
    var pins: byte
    var memSize: uint32
    var address: uint32
    var regionEnd: uint32
    var vppMv: uint16
    var pulseDelay: uint32
    var chipId: uint16
    var pageSize: uint16
    var readSettlingUs: uint32
    var readStrobeUs: uint32
    var bus: BusConfig

    constructor ()
    {
      cmd, ctrlFlags, protocol, pins, memSize, address, regionEnd := 0, 0, 0, 0, 0, 0, 0;
      vppMv, pulseDelay, chipId, pageSize, readSettlingUs, readStrobeUs := 0, 0, 0, 0, 0, 0;
      bus := BusConfig([], {}, 0, 0, 0, false, {}, {});
    }

    /** The handle carries exactly the fields of payload `p`. */
    ghost predicate Carries(p: MemoryFields)
      reads this
    {
      && memSize == MemSize(p) && address == StartAddress(p) && regionEnd == RegionEnd(p)
      && protocol == Protocol(p) && pins == Pins(p) && vppMv == VppMv(p)
      && pulseDelay == PulseDelay(p) && chipId == ChipId(p) && pageSize == PageSize(p)
      && readSettlingUs == ReadSettlingUs(p) && readStrobeUs == ReadStrobeUs(p)
    }

    /** The handle's bus lines are those of payload `p`. */
    ghost predicate BusOf(p: MemoryFields)
      reads this
    {
      && bus.addressLines == AddressLines(p) && bus.rwLine == RwLine(p) && bus.vppLine == VppLine(p)
      && bus.staticHighMask == Lines(StaticHigh(p))
    }

    method ApplyBus(p: MemoryFields)
      requires GoodLines(AddressLines(p))
      requires BusLineValid(RwLine(p)) && BusLineValid(VppLine(p)) && StaticHigh(p) < 0x100_0000
      modifies this`bus
      ensures BusOf(p) && DerivedBus(bus)
      ensures bus.readHighMask == old(bus.readHighMask) && bus.readHighNeedsRegOff == old(bus.readHighNeedsRegOff)
    {
      var mask, matching := DeriveMask(AddressLines(p));
      StaticHighOnBus(StaticHigh(p));
      bus := bus.(addressLines := AddressLines(p), addressMask := mask, matchingLines := matching,
                  rwLine := RwLine(p), vppLine := VppLine(p), staticHighMask := Lines(StaticHigh(p)));
    }

    method ApplyCursor(p: MemoryFields)
      modifies this`memSize, this`address, this`regionEnd
      ensures memSize == MemSize(p) && address == StartAddress(p) && regionEnd == RegionEnd(p)
    {
      memSize := MemSize(p);
      address := StartAddress(p);
      regionEnd := RegionEnd(p);
    }

    method ApplyDevice(p: MemoryFields)
      modifies this`protocol, this`pins, this`vppMv, this`chipId, this`pageSize
      ensures protocol == Protocol(p) && pins == Pins(p) && vppMv == VppMv(p)
      ensures chipId == ChipId(p) && pageSize == PageSize(p)
    {
      protocol := Protocol(p);
      pins := Pins(p);
      vppMv := VppMv(p);
      chipId := ChipId(p);
      pageSize := PageSize(p);
    }

    method ApplyTiming(p: MemoryFields)
      modifies this`pulseDelay, this`readSettlingUs, this`readStrobeUs
      ensures pulseDelay == PulseDelay(p)
      ensures readSettlingUs == ReadSettlingUs(p) && readStrobeUs == ReadStrobeUs(p)
    {
      pulseDelay := PulseDelay(p);
      readSettlingUs := ReadSettlingUs(p);
      readStrobeUs := ReadStrobeUs(p);
    }

    method ApplyMemory(p: MemoryFields)
      requires GoodLines(AddressLines(p))
      requires BusLineValid(RwLine(p)) && BusLineValid(VppLine(p)) && StaticHigh(p) < 0x100_0000
      modifies this
      ensures Carries(p) && BusOf(p) && DerivedBus(bus)
      ensures cmd == old(cmd) && ctrlFlags == old(ctrlFlags)
      ensures bus.readHighMask == old(bus.readHighMask) && bus.readHighNeedsRegOff == old(bus.readHighNeedsRegOff)
    {
      ApplyCursor(p);
      ApplyDevice(p);
      ApplyTiming(p);
      assert Carries(p);
      ApplyBus(p);
    }

    /** Decode a whole frame. A refused frame writes no field; an accepted memory frame sets
        every memory field from its own payload. */
    method Decode(frame: seq<byte>) returns (res: byte)
      modifies this
      ensures FrameVerdict(frame, res)
      ensures res != DECODE_OK ==> unchanged(this)
      ensures res == DECODE_OK ==> cmd == frame[2] && ctrlFlags == Be16(frame, 3)
      ensures res == DECODE_OK && KindOf(frame[2]).MemoryPayload? ==>
                Carries(frame[HEADER_SIZE..]) && BusOf(frame[HEADER_SIZE..]) && DerivedBus(bus)
      ensures res == DECODE_OK && !KindOf(frame[2]).MemoryPayload? ==>
                protocol == 0 && pulseDelay == 0 && address == old(address) && bus == old(bus)
    {
      if |frame| < HEADER_SIZE || frame[0] != MAGIC {
        return BAD_FRAME;
      }
      if frame[1] != VERSION {
        return BAD_VERSION;
      }
      var newCmd := frame[2];
      var flags := Be16(frame, 3);
      if !FlagsDefined(flags) {
        return REFUSE_FLAGS;
      }
      var kind := KindOf(newCmd);
      var length := Be16(frame, 5);
      if length != PayloadSize(kind) || |frame| != HEADER_SIZE + length {
        return REFUSE_LENGTH;
      }
      var payload := frame[HEADER_SIZE..];
      if kind.MemoryPayload? {
        res := ValidateMemory(newCmd, payload);
        if res != DECODE_OK {
          return;
        }
        cmd, ctrlFlags := newCmd, flags;
        ApplyMemory(payload);
        return DECODE_OK;
      }
      if kind.ConfigPayload? {
        res := ConfigVerdict(payload);
        if res != DECODE_OK {
          return;
        }
      }
      cmd, ctrlFlags := newCmd, flags;
      protocol, pulseDelay := 0, 0;
      return DECODE_OK;
    }
  }

  lemma StaticHighOnBus(x: uint32)
    requires x < 0x100_0000
    ensures forall n :: n in Lines(x) ==> n < BUS_LINES
  {
    assert Pow2(8) == 0x100;
    assert Pow2(16) == 0x1_0000;
    assert Pow2(24) == 0x100_0000;
    forall n | n in Lines(x)
      ensures n < BUS_LINES
    {
      if n >= 24 {
        NoBitAbove(x, 24, n);
      }
    }
  }

  // ----- The frame -----

  /** Only the flag bits of the mask 0x03F7 are defined. */
  predicate FlagsDefined(flags: uint16) {
    flags < 0x400 && flags / 8 % 2 == 0
  }

  function PayloadSize(kind: PayloadKind): nat {
    match kind
    case NoPayload => 0
    case MemoryPayload => MEMORY_SIZE
    case ConfigPayload => CONFIG_SIZE
  }

  /** A configuration payload may name r1, r2, the revision and the bandgap, and no other field. */
  function ConfigVerdict(p: seq<byte>): byte
    requires |p| == CONFIG_SIZE
  {
    var present := p[0];
    if present >= 0x20 || present / 8 % 2 == 1 then REFUSE_CONFIG_FIELD
    else if present / 4 % 2 == 1 && p[9] != 0xFF && p[9] > REVISION_MAX then REFUSE_REVISION
    else DECODE_OK
  }

  ghost predicate FrameVerdict(frame: seq<byte>, code: byte) {
    if |frame| < HEADER_SIZE || frame[0] != MAGIC then code == BAD_FRAME
    else if frame[1] != VERSION then code == BAD_VERSION
    else if !FlagsDefined(Be16(frame, 3)) then code == REFUSE_FLAGS
    else
      var kind := KindOf(frame[2]);
      if Be16(frame, 5) != PayloadSize(kind) || |frame| != HEADER_SIZE + PayloadSize(kind) then code == REFUSE_LENGTH
      else match kind
           case NoPayload => code == DECODE_OK
           case MemoryPayload => MemoryVerdict(frame[2], frame[HEADER_SIZE..], code)
           case ConfigPayload => code == ConfigVerdict(frame[HEADER_SIZE..])
  }
}
