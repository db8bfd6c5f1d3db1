/** The address remap that runs for every byte, and the plain wiring it must amount to. */
module BusRemap {
  import opened Bytes
  import opened BusLines
  import opened CommandDecoder
  import opened ControlRegister

  const VPP_P1_32_DIP: byte := 0x15
  const VPP_P1_28_DIP: byte := 0x0F
  const VPP_P21_24_DIP: byte := 0x0B

  /** The part takes its programming voltage on socket pin 1. */
  predicate UsingP1AsVpp(pins: byte, vppLine: byte) {
    || (pins == 32 && vppLine == VPP_P1_32_DIP)
    || (pins == 28 && vppLine == VPP_P1_28_DIP)
    || (pins == 24 && vppLine == VPP_P21_24_DIP)
  }

  /** Driving the VPP bus line high also switches a programming voltage onto the socket. */
  predicate VppLineSwitchesVpp(revision: byte, vppLine: byte) {
    16 <= vppLine < 32 && PhysicalControl(revision, (1 as bv16) << (vppLine - 16)) & SOCKET_VPP_ROUTE_BITS != 0
  }

  /** Set once a command: the line that a read of a P1 part drives high. It is the VPP line or
      none, a part without a VPP line or with another pin for it has none, and a read holds it
      low while the regulator is on where driving it would switch a programming voltage. */
  method SetReadHighMask(handle: Handle, revision: byte)
    requires BusLineValid(handle.bus.vppLine)
    modifies handle`bus
    ensures handle.bus.readHighMask <= {handle.bus.vppLine as nat}
    ensures handle.bus.readHighMask != {} <==>
              handle.bus.vppLine != LINE_ABSENT && UsingP1AsVpp(handle.pins, handle.bus.vppLine)
    ensures handle.bus.readHighNeedsRegOff <==>
              handle.bus.readHighMask != {} && VppLineSwitchesVpp(revision, handle.bus.vppLine)
    ensures SameButReadHigh(old(handle.bus), handle.bus)
    ensures DerivedBus(old(handle.bus)) ==> DerivedBus(handle.bus)
  {
    var line := handle.bus.vppLine;
    var p1 := line != LINE_ABSENT && UsingP1AsVpp(handle.pins, line);
    handle.bus := handle.bus.(
      readHighMask := if p1 then {line as nat} else {},
      readHighNeedsRegOff := p1 && VppLineSwitchesVpp(revision, line));
  }

  predicate SameButReadHigh(bus: BusConfig, after: BusConfig) {
    after.(readHighMask := bus.readHighMask, readHighNeedsRegOff := bus.readHighNeedsRegOff) == bus
  }

  // ----- The plain wiring -----

  /** The number of address bits that reach the bus. */
  function Width(bus: BusConfig): nat {
    var count := LineCount(bus.addressLines);
    if count == 0 then 16 else count
  }

  /** The bus line of address bit `i`. */
  function BusLineOf(bus: BusConfig, i: nat): nat
    requires i < Width(bus)
  {
    if LineCount(bus.addressLines) == 0 then i else bus.addressLines[i]
  }

  /** The lines that the address bits reach. */
  function AddressSide(bus: BusConfig): set<nat> {
    set i: nat | i < Width(bus) :: BusLineOf(bus, i)
  }

  /** Bus bit `BusLineOf(i)` is address bit `i`, and every other bit is 0. */
  function Wired(bus: BusConfig, address: Word): set<nat> {
    set i: nat | i < Width(bus) && i in address :: BusLineOf(bus, i)
  }

  /** The bits that the direction, the VPP line and the fixed lines add. */
  function Forced(bus: BusConfig, pins: byte, control: Control, reading: bool): set<nat> {
    RwPart(bus, reading) + VppPart(bus, pins) + ReadHighPart(bus, control, reading) + bus.staticHighMask
  }

  function RwPart(bus: BusConfig, reading: bool): set<nat> {
    if bus.rwLine != LINE_ABSENT && reading then {bus.rwLine} else {}
  }

  function VppPart(bus: BusConfig, pins: byte): set<nat> {
    if bus.vppLine != LINE_ABSENT && !UsingP1AsVpp(pins, bus.vppLine) then {bus.vppLine} else {}
  }

  function ReadHighPart(bus: BusConfig, control: Control, reading: bool): set<nat> {
    if reading && !ReadHighBlocked(bus, control) then bus.readHighMask else {}
  }

  /** The read-high line stays low while P1 is on, and on a line that switches VPP also while
      the regulator is on. */
  predicate ReadHighBlocked(bus: BusConfig, control: Control) {
    control & (if bus.readHighNeedsRegOff then VPP_P1_ENABLE | VPP_REGULATOR_ENABLE else VPP_P1_ENABLE) != 0
  }

  /** What the remap must return. */
  function BusWord(bus: BusConfig, pins: byte, control: Control, address: Word, reading: bool): set<nat> {
    Wired(bus, address) + Forced(bus, pins, control, reading)
  }

  /** When the word holds a line whatever the address is: a fixed line always; the read/write line
      on reads; the VPP line always, unless the part takes its programming voltage there, and then
      on reads that neither P1 nor, where it would switch that voltage, the regulator blocks. */
  lemma ForcedIff(bus: BusConfig, pins: byte, control: Control, reading: bool, line: nat)
    requires bus.readHighMask == if bus.vppLine != LINE_ABSENT && UsingP1AsVpp(pins, bus.vppLine) then
                                   {bus.vppLine as nat}
                                 else
                                   {}
    ensures var p1 := || (pins == 32 && bus.vppLine == 21) || (pins == 28 && bus.vppLine == 15)
                      || (pins == 24 && bus.vppLine == 11);
            line in Forced(bus, pins, control, reading)
            <==> || line in bus.staticHighMask
                 || (bus.rwLine != 0xFF && line == bus.rwLine && reading)
                 || (bus.vppLine != 0xFF && line == bus.vppLine && !p1)
                 || (p1 && line == bus.vppLine && reading && control & 0x08 == 0
                     && (bus.readHighNeedsRegOff ==> control & 0x80 == 0))
  {
    var mask: Control := if bus.readHighNeedsRegOff then 0x88 else 0x08;
    TwoSwitches(control);
    assert ReadHighBlocked(bus, control) <==> control & mask != 0;
  }

  lemma TwoSwitches(control: Control)
    ensures control & 0x88 != 0 <==> control & 0x08 != 0 || control & 0x80 != 0
  {
  }

  /** Which VPP lines switch a programming voltage, revision by revision: those whose bit of the
      control register reaches a pin of the socket's route. */
  lemma SwitchingLines(revision: byte, line: byte)
    ensures VppLineSwitchesVpp(revision, line)
       <==> (revision <= 5 && line in {17, 18, 19}) || (2 <= revision <= 5 && line == 21)
  {
    if 16 <= line < 32 {
      SwitchingBits(revision, line);
    }
  }

  lemma SwitchingBits(revision: byte, line: byte)
    requires 16 <= line < 32
    ensures PhysicalControl(revision, (1 as bv16) << (line - 16)) & 0x0E != 0
       <==> (revision <= 5 && line in {17, 18, 19}) || (2 <= revision <= 5 && line == 21)
  {
  }

  // ----- The remap itself -----

  /** The first `n` address bits have reached their lines; the other lines still hold what
      masking the address left on them. */
  ghost predicate PartlyWired(bus: BusConfig, address: Word, n: nat, acc: Word) {
    var lines := bus.addressLines;
    var count := LineCount(lines);
    && n <= count
    && (forall i :: 0 <= i < n ==> (lines[i] as nat in acc <==> i in address))
    && (forall i :: n <= i < count ==> (lines[i] as nat in acc <==> lines[i] as nat in address))
    && acc <= LinesOf(lines, count)
  }

  lemma MaskedIsPartlyWired(bus: BusConfig, address: Word)
    requires DerivedBus(bus) && LineCount(bus.addressLines) > 0
    ensures PartlyWired(bus, address, bus.matchingLines, bus.addressMask * address)
  {
    var lines := bus.addressLines;
    forall i | 0 <= i < LineCount(lines)
      ensures lines[i] as nat in bus.addressMask
    {
    }
  }

  lemma DriveNextLine(bus: BusConfig, address: Word, n: nat, acc: Word)
    requires DerivedBus(bus) && n < LineCount(bus.addressLines) && PartlyWired(bus, address, n, acc)
    ensures var line := bus.addressLines[n] as nat;
            PartlyWired(bus, address, n + 1, if n in address then acc - {line} + {line} else acc - {line})
  {
    var lines := bus.addressLines;
    var count := LineCount(lines);
    assert forall i, j :: 0 <= i < j < count ==> lines[i] != lines[j];
  }

  lemma WiredLineIsHigh(bus: BusConfig, address: Word, acc: Word, b: nat)
    requires DerivedBus(bus) && LineCount(bus.addressLines) > 0 && b in Wired(bus, address)
    requires PartlyWired(bus, address, LineCount(bus.addressLines), acc)
    ensures b in acc
  {
    var i: nat :| i < Width(bus) && i in address && BusLineOf(bus, i) == b;
    assert bus.addressLines[i] as nat in acc;
  }

  lemma HighLineIsWired(bus: BusConfig, address: Word, acc: Word, b: nat)
    requires DerivedBus(bus) && LineCount(bus.addressLines) > 0 && b in acc
    requires PartlyWired(bus, address, LineCount(bus.addressLines), acc)
    ensures b in Wired(bus, address)
  {
    var lines := bus.addressLines;
    assert b in LinesOf(lines, LineCount(lines));
    var i: nat :| i < LineCount(lines) && lines[i] == b;
    assert lines[i] as nat in acc;
    assert BusLineOf(bus, i) == b;
  }

  lemma FullyWired(bus: BusConfig, address: Word, acc: Word)
    requires DerivedBus(bus) && LineCount(bus.addressLines) > 0
    requires PartlyWired(bus, address, LineCount(bus.addressLines), acc)
    ensures acc == Wired(bus, address)
  {
    forall b | b in acc
      ensures b in Wired(bus, address)
    {
      HighLineIsWired(bus, address, acc, b);
    }
    forall b | b in Wired(bus, address)
      ensures b in acc
    {
      WiredLineIsHigh(bus, address, acc, b);
    }
  }

  /** The shortcut remap returns the plain wiring of every address, for the bus configuration
      of every accepted frame. */
  method RemapAddressBus(bus: BusConfig, pins: byte, control: Control, address: Word, reading: bool)
    returns (word: Word)
    requires DerivedBus(bus)
    requires bus.readHighMask <= {bus.vppLine as nat}
    requires bus.readHighMask != {} ==> bus.vppLine != LINE_ABSENT
    ensures word == BusWord(bus, pins, control, address, reading)
  {
    var lines := bus.addressLines;
    word := bus.addressMask * address;
    if lines[0] != LINE_ABSENT {
      MaskedIsPartlyWired(bus, address);
      var i := bus.matchingLines;
      while i < ADDRESS_LINES && lines[i] != LINE_ABSENT
        invariant bus.matchingLines <= i <= LineCount(lines)
        invariant PartlyWired(bus, address, i, word)
      {
        var line := lines[i] as nat;
        DriveNextLine(bus, address, i, word);
        word := word - {line};
        if i in address {
          word := word + {line};
        }
        i := i + 1;
      }
      assert i == LineCount(lines);
      FullyWired(bus, address, word);
    } else {
      assert word == Wired(bus, address);
    }
    word := AddForced(bus, pins, control, reading, word);
  }

  lemma UnionOfParts(w: set<nat>, a: set<nat>, b: set<nat>, c: set<nat>, d: set<nat>)
    ensures w + a + b + c + d == w + (a + b + c + d)
  {
  }

  method AddForced(bus: BusConfig, pins: byte, control: Control, reading: bool, wired: Word) returns (word: Word)
    requires DerivedBus(bus)
    requires bus.readHighMask <= {bus.vppLine as nat}
    requires bus.readHighMask != {} ==> bus.vppLine != LINE_ABSENT
    ensures word == wired + Forced(bus, pins, control, reading)
  {
    word := wired;
    if bus.rwLine != LINE_ABSENT && reading {
      word := word + {bus.rwLine};
    }
    assert word == wired + RwPart(bus, reading);
    ghost var before := word;
    if bus.vppLine != LINE_ABSENT && !UsingP1AsVpp(pins, bus.vppLine) {
      word := word + {bus.vppLine};
    }
    assert word == before + VppPart(bus, pins);
    before := word;
    if reading && bus.readHighMask != {} && !ReadHighBlocked(bus, control) {
      word := word + bus.readHighMask;
    }
    assert word == before + ReadHighPart(bus, control, reading);
    word := word + bus.staticHighMask;
    UnionOfParts(wired, RwPart(bus, reading), VppPart(bus, pins), ReadHighPart(bus, control, reading), bus.staticHighMask);
  }

  // ----- Distinct addresses -----

  /** Every address of the device reaches the bus as a word of its own. */
  ghost predicate Distinguishes(bus: BusConfig, pins: byte, control: Control, reading: bool) {
    forall a: uint32, b: uint32 ::
      a < Pow2(Width(bus)) && b < Pow2(Width(bus))
      && BusWord(bus, pins, control, Lines(a), reading) == BusWord(bus, pins, control, Lines(b), reading)
      ==> a == b
  }

  lemma {:induction false} BusLineInjective(bus: BusConfig, i: nat, j: nat)
    requires DerivedBus(bus) && i < Width(bus) && j < Width(bus) && BusLineOf(bus, i) == BusLineOf(bus, j)
    ensures i == j
  {
    if LineCount(bus.addressLines) > 0 {
      var k, m := if i <= j then i else j, if i <= j then j else i;
      assert bus.addressLines[k] != LINE_ABSENT;
    }
  }

  lemma WiredBit(bus: BusConfig, address: Word, i: nat)
    requires DerivedBus(bus) && i < Width(bus)
    ensures BusLineOf(bus, i) in Wired(bus, address) <==> i in address
  {
    if BusLineOf(bus, i) in Wired(bus, address) {
      var j: nat :| j < Width(bus) && j in address && BusLineOf(bus, j) == BusLineOf(bus, i);
      BusLineInjective(bus, i, j);
    }
  }

  lemma WidthAtMostTwenty(bus: BusConfig)
    requires DerivedBus(bus)
    ensures Width(bus) <= 20 && Pow2(Width(bus)) <= 0x1_0000_0000
  {
    Pow2Of(Width(bus));
  }

  lemma NumberOfLines(a: uint32, n: nat)
    requires n < 32
    ensures n in Lines(a) <==> BitSet(a, n)
  {
  }

  lemma DisjointDistinguishes(bus: BusConfig, pins: byte, control: Control, reading: bool, a: uint32, b: uint32)
    requires DerivedBus(bus) && Forced(bus, pins, control, reading) !! AddressSide(bus)
    requires a < Pow2(Width(bus)) && b < Pow2(Width(bus))
    requires BusWord(bus, pins, control, Lines(a), reading) == BusWord(bus, pins, control, Lines(b), reading)
    ensures a == b
  {
    var word := BusWord(bus, pins, control, Lines(a), reading);
    WidthAtMostTwenty(bus);
    forall i: nat | i < Width(bus)
      ensures BitSet(a, i) <==> BitSet(b, i)
    {
      var line := BusLineOf(bus, i);
      assert line in AddressSide(bus) && line !in Forced(bus, pins, control, reading);
      WiredBit(bus, Lines(a), i);
      WiredBit(bus, Lines(b), i);
      assert line in word <==> line in Wired(bus, Lines(a));
      NumberOfLines(a, i);
      NumberOfLines(b, i);
    }
    BitsDetermine(a, b, Width(bus));
  }

  lemma LinesOfPow2(i: nat)
    requires i < 32 && Pow2(i) < 0x1_0000_0000
    ensures Lines(Pow2(i)) == {i} && Lines(0) == {}
  {
    forall n: nat | n < 32
      ensures (n in Lines(Pow2(i)) <==> n == i) && n !in Lines(0)
    {
      BitOfPow2(i, n);
      NoBitAbove(0, 0, n);
    }
  }

  lemma WiredOfOneLine(bus: BusConfig, i: nat)
    requires i < Width(bus) && i < 32
    ensures Wired(bus, {i}) == {BusLineOf(bus, i)} && Wired(bus, {}) == {}
  {
  }

  lemma AddingAMember(a: set<nat>, b: set<nat>)
    requires a <= b
    ensures a + b == {} + b
  {
  }

  /** A forced bit on an address line makes address 0 and one power of two collide. */
  lemma ForcedBitCollides(bus: BusConfig, pins: byte, control: Control, reading: bool, i: nat)
    requires DerivedBus(bus) && i < Width(bus) && BusLineOf(bus, i) in Forced(bus, pins, control, reading)
    ensures !Distinguishes(bus, pins, control, reading)
  {
    WidthAtMostTwenty(bus);
    Pow2Grows(i + 1, Width(bus));
    var a: uint32, b: uint32 := 0, Pow2(i);
    LinesOfPow2(i);
    WiredOfOneLine(bus, i);
    AddingAMember({BusLineOf(bus, i)}, Forced(bus, pins, control, reading));
    assert BusWord(bus, pins, control, Lines(a), reading) == BusWord(bus, pins, control, Lines(b), reading);
    assert a < b < Pow2(Width(bus));
  }

  /** The remap tells all addresses apart exactly when no forced line is an address line. */
  lemma DistinguishesIff(bus: BusConfig, pins: byte, control: Control, reading: bool)
    requires DerivedBus(bus)
    ensures Distinguishes(bus, pins, control, reading) <==> Forced(bus, pins, control, reading) !! AddressSide(bus)
  {
    if Forced(bus, pins, control, reading) !! AddressSide(bus) {
      forall a: uint32, b: uint32 |
        a < Pow2(Width(bus)) && b < Pow2(Width(bus))
        && BusWord(bus, pins, control, Lines(a), reading) == BusWord(bus, pins, control, Lines(b), reading)
        ensures a == b
      {
        DisjointDistinguishes(bus, pins, control, reading, a, b);
      }
    } else {
      var line :| line in Forced(bus, pins, control, reading) && line in AddressSide(bus);
      var i: nat :| i < Width(bus) && BusLineOf(bus, i) == line;
      ForcedBitCollides(bus, pins, control, reading, i);
    }
  }

  // ----- The hypothesis the decoder does not check -----

  /** A read of a two-byte 28-pin part whose read/write line is also its only address line. */
  function OverlapFields(): MemoryFields {
    seq(MEMORY_SIZE, i =>
      if i == 3 then 2
      else if i == 12 then 0x07
      else if i == 13 then 28
      else if i == 14 then 0x30
      else if i == 15 then 0xD4
      else if i == 19 then 100
      else if 33 <= i < 52 || i == 53 then LINE_ABSENT
      else 0)
  }

  lemma OverlapLines()
    ensures AddressLines(OverlapFields()) == [0] + seq(19, i => LINE_ABSENT)
    ensures RwLine(OverlapFields()) == 0 && VppLine(OverlapFields()) == LINE_ABSENT
    ensures GoodLines(AddressLines(OverlapFields())) && LineCount(AddressLines(OverlapFields())) == 1
  {
    var lines := AddressLines(OverlapFields());
    assert lines == [0] + seq(19, i => LINE_ABSENT);
    assert lines[1..][0] == LINE_ABSENT;
  }

  lemma OverlapChecks()
    ensures OtherVerdict(CMD_READ, OverlapFields()) == DECODE_OK
  {
    var p := OverlapFields();
    assert MemSize(p) == 2 && StartAddress(p) == 0 && StaticHigh(p) == 0;
  }

  /** The decoder accepts it, and a read then cannot tell address 0 from address 1. */
  lemma OverlapAccepted(bus: BusConfig, control: Control)
    requires DerivedBus(bus) && bus.addressLines == AddressLines(OverlapFields())
    requires bus.rwLine == RwLine(OverlapFields())
    ensures MemoryVerdict(CMD_READ, OverlapFields(), DECODE_OK)
    ensures !Distinguishes(bus, 28, control, true)
  {
    OverlapLines();
    OverlapChecks();
    assert BusLineOf(bus, 0) == 0;
    ForcedBitCollides(bus, 28, control, true, 0);
  }
}
