/** The firmware's batched program loop. It alternates a scan pass and a pulse pass over groups
    of the block, and is proved against the byte-by-byte algorithm of module EpromBlock. */
module EpromProgram {
  import opened Bytes
  import opened Wrappers
  import opened ControlRegister
  import opened EpromBlock
  import Transfer

  // ----- What happens on the bench -----

  /** What the firmware does to the board, in order: set or clear control bits, write an address,
      read or strobe the cell it selects, measure the rail, read the identity, pulse the erase. */
  datatype Event =
    | Set(bits: Control, on: bool)
    | Address(address: uint32, reading: bool)
    | ClearAddress
    | Read(address: uint32)
    | Strobe(address: uint32)
    | Measure
    | IdRead(address: uint32)
    | EraseStrobe

  /** What a history amounts to: the control register, the strobes and reads of every byte of
      the block, and whether every event was allowed. */
  datatype Board = Board(control: Control, strobed: seq<nat>, fetched: seq<nat>, kept: bool)

  /** One more at the byte of the block that address `a` selects. */
  function Bump(job: Job, counts: seq<nat>, a: nat): (r: seq<nat>)
    ensures |r| == |counts|
  {
    if job.address <= a < job.address + |counts| then
      counts[a - job.address := counts[a - job.address] + 1]
    else
      counts
  }

  predicate Follows(past: seq<Event>, e: Event) {
    past != [] && past[|past| - 1] == e
  }

  /** What the firmware is doing: initialising a write, or writing one block. */
  datatype Stage = Preparing | Writing

  predicate InBlock(job: Job, a: nat) {
    job.address <= a < job.address + |job.data|
  }

  /** The rail of a write: down, up, or up and switched onto the part. */
  predicate WriteLevel(part: Part, c: Control) {
    Hv(c) == 0 || Armed(part, c) || Raised(part, c)
  }

  /** Whether an event may follow a past that left control value `c`. A write addresses, reads
      and strobes nothing outside its block, and sets no high voltage but its own rail and
      switch. A read directly follows the write of its own address and finds the rail at its
      level and both switches off; a strobe likewise, with exactly the one switch the part uses.
      The rest belongs to the initialisation: the rail is measured with nothing switched on, the
      identity is read with 12 V on A9, and the erase pulse adds the part's switch; neither of
      these sees the dropped rail. */
  predicate Allowed(job: Job, stage: Stage, c: Control, past: seq<Event>, e: Event) {
    match e
    case Set(bits, on) => stage.Writing? ==> WriteLevel(job.part, SetBits(job.part, c, bits, on))
    case Address(a, _) => stage.Writing? ==> InBlock(job, a)
    case Read(a) => stage.Writing? && InBlock(job, a) && Follows(past, Address(a, true)) && Hv(c) == Level(job.part)
    case Strobe(a) =>
      stage.Writing? && InBlock(job, a) && Follows(past, Address(a, false))
      && Hv(c) == Level(job.part) | RouteBit(job.part)
    case ClearAddress => stage.Preparing?
    case Measure => stage.Preparing? && Hv(c) == RouteMask(job.part)
    case IdRead(a) =>
      stage.Preparing? && Follows(past, Address(a, true)) && Hv(c) == VPP_REGULATOR_ENABLE | VPP_A9_ENABLE
    case EraseStrobe =>
      stage.Preparing? && Hv(c) == VPP_REGULATOR_ENABLE | VPP_A9_ENABLE | RouteBit(job.part)
  }

  /** The board after a history that began with control register `start`. */
  function Replay(job: Job, stage: Stage, start: Control, history: seq<Event>): (b: Board)
    ensures |b.strobed| == |b.fetched| == |job.data|
    decreases |history|, 0
  {
    if history == [] then Board(start, seq(|job.data|, j => 0), seq(|job.data|, j => 0), true)
    else Next(job, stage, start, history[..|history| - 1], history[|history| - 1])
  }

  /** The board after one event more. */
  function Next(job: Job, stage: Stage, start: Control, past: seq<Event>, e: Event): (b: Board)
    ensures |b.strobed| == |b.fetched| == |job.data|
    decreases |past|, 1
  {
    var b := Replay(job, stage, start, past);
    var now := b.(kept := b.kept && Allowed(job, stage, b.control, past, e));
    match e
    case Set(bits, on) => now.(control := SetBits(job.part, b.control, bits, on))
    case Address(a, reading) => now.(control := Addressed(job.part, b.control, a, reading))
    case ClearAddress => now.(control := TopAddress(job.part, b.control, {}))
    case Read(a) => now.(fetched := Bump(job, b.fetched, a))
    case Strobe(a) => now.(strobed := Bump(job, b.strobed, a))
    case _ => now
  }

  lemma Extended(job: Job, stage: Stage, start: Control, past: seq<Event>, e: Event)
    ensures Replay(job, stage, start, past + [e]) == Next(job, stage, start, past, e)
  {
    assert (past + [e])[..|past|] == past;
  }

  lemma SetEntered(job: Job, stage: Stage, start: Control, past: seq<Event>, bits: Control, on: bool)
    requires var b := Replay(job, stage, start, past);
             b.kept && Allowed(job, stage, b.control, past, Set(bits, on))
    ensures var b := Replay(job, stage, start, past);
            Replay(job, stage, start, past + [Set(bits, on)]) == b.(control := SetBits(job.part, b.control, bits, on))
  {
    Extended(job, stage, start, past, Set(bits, on));
  }

  lemma AddressEntered(job: Job, stage: Stage, start: Control, past: seq<Event>, a: uint32, reading: bool)
    requires var b := Replay(job, stage, start, past);
             b.kept && Allowed(job, stage, b.control, past, Address(a, reading))
    ensures var b := Replay(job, stage, start, past);
            Replay(job, stage, start, past + [Address(a, reading)])
            == b.(control := Addressed(job.part, b.control, a, reading))
  {
    Extended(job, stage, start, past, Address(a, reading));
  }

  lemma ReadEntered(job: Job, stage: Stage, start: Control, past: seq<Event>, a: uint32)
    requires var b := Replay(job, stage, start, past);
             b.kept && Allowed(job, stage, b.control, past, Read(a))
    ensures var b := Replay(job, stage, start, past);
            Replay(job, stage, start, past + [Read(a)]) == b.(fetched := Bump(job, b.fetched, a))
  {
    Extended(job, stage, start, past, Read(a));
  }

  lemma StrobeEntered(job: Job, stage: Stage, start: Control, past: seq<Event>, a: uint32)
    requires var b := Replay(job, stage, start, past);
             b.kept && Allowed(job, stage, b.control, past, Strobe(a))
    ensures var b := Replay(job, stage, start, past);
            Replay(job, stage, start, past + [Strobe(a)]) == b.(strobed := Bump(job, b.strobed, a))
  {
    Extended(job, stage, start, past, Strobe(a));
  }

  lemma BumpAt(job: Job, counts: seq<nat>, j: nat)
    requires j < |counts|
    ensures Bump(job, counts, job.address + j) == counts[j := counts[j] + 1]
  {
  }

  /** Every event of a kept history was allowed on the board it found. */
  lemma {:induction false} EveryEventKept(job: Job, stage: Stage, start: Control, history: seq<Event>, k: nat)
    requires Replay(job, stage, start, history).kept && k < |history|
    ensures Replay(job, stage, start, history[..k]).kept
    ensures Allowed(job, stage, Replay(job, stage, start, history[..k]).control, history[..k], history[k])
    decreases |history|
  {
    var past := history[..|history| - 1];
    if k < |past| {
      EveryEventKept(job, stage, start, past, k);
      assert past[..k] == history[..k];
    }
  }

  /** How often an event occurs. */
  function Times(history: seq<Event>, e: Event): nat
    decreases |history|
  {
    if history == [] then 0
    else Times(history[..|history| - 1], e) + if history[|history| - 1] == e then 1 else 0
  }

  /** The counts of a board are the strobes and the reads of each address in the history. */
  lemma {:induction false} CountsAreTimes(job: Job, stage: Stage, start: Control, history: seq<Event>, j: nat)
    requires j < |job.data| && ValidJob(job)
    ensures Replay(job, stage, start, history).strobed[j] == Times(history, Strobe(job.address + j))
    ensures Replay(job, stage, start, history).fetched[j] == Times(history, Read(job.address + j))
    decreases |history|
  {
    if history != [] {
      CountsAreTimes(job, stage, start, history[..|history| - 1], j);
    }
  }

  /** A history that gives every byte of the block the pulses and the reads of its own loop,
      and one read more where the block is read back. */
  ghost predicate DoneIn(job: Job, history: seq<Event>) {
    ValidJob(job)
    && forall j :: 0 <= j < |job.data| ==>
      && Times(history, Strobe(job.address + j)) == PulsesOf(job, j)
      && Times(history, Read(job.address + j)) == ReadsOf(job, j) + if FinalPass(job) then 1 else 0
  }

  /** A control bit set or cleared, or an access to a byte of the block. */
  predicate Concerns(job: Job, e: Event) {
    match e
    case Set(_, _) => true
    case Address(a, _) => InBlock(job, a)
    case Read(a) => InBlock(job, a)
    case Strobe(a) => InBlock(job, a)
    case _ => false
  }

  /** Nothing outside the block was addressed, read or strobed, and nothing was measured,
      identified or erased. */
  ghost predicate OnlyBlock(job: Job, history: seq<Event>) {
    forall k :: 0 <= k < |history| ==> Concerns(job, history[k])
  }

  lemma KeptConcernsBlock(job: Job, start: Control, history: seq<Event>)
    requires Replay(job, Writing, start, history).kept
    ensures OnlyBlock(job, history)
  {
    forall k | 0 <= k < |history|
      ensures Concerns(job, history[k])
    {
      EveryEventKept(job, Writing, start, history, k);
    }
  }

  /** A history that touches nothing but the block and gives no byte of it more pulses or reads
      than its own loop and the read-back. */
  ghost predicate Confined(job: Job, history: seq<Event>) {
    && ValidJob(job) && OnlyBlock(job, history)
    && forall j :: 0 <= j < |job.data| ==>
      && Times(history, Strobe(job.address + j)) <= PulsesOf(job, j)
      && Times(history, Read(job.address + j)) <= ReadsOf(job, j) + if FinalPass(job) then 1 else 0
  }

  function StrobesOf(job: Job, history: seq<Event>, j: nat): nat
    requires ValidJob(job) && j < |job.data|
  {
    Times(history, Strobe(job.address + j))
  }

  /** With an energy cap, the strobes of no byte pass it by a whole pulse. */
  ghost predicate WithinEnergy(job: Job, history: seq<Event>)
    requires ValidJob(job)
  {
    job.part.row.energyCapUs != 0 ==>
      forall j :: 0 <= j < |job.data| ==>
        StrobesOf(job, history, j) * job.pulseDelay < job.part.row.energyCapUs + job.pulseDelay
  }

  lemma ConfinedWithinEnergy(job: Job, history: seq<Event>)
    requires Confined(job, history)
    ensures WithinEnergy(job, history)
  {
    if job.part.row.energyCapUs != 0 {
      forall j | 0 <= j < |job.data|
        ensures StrobesOf(job, history, j) * job.pulseDelay < job.part.row.energyCapUs + job.pulseDelay
      {
        EnergyBounded(job, j);
        assert Times(history, Strobe(job.address + j)) <= PulsesOf(job, j);
        FewerPulses(StrobesOf(job, history, j), PulsesOf(job, j), job.pulseDelay, job.part.row.energyCapUs);
      }
    }
  }

  lemma FewerPulses(t: nat, n: nat, width: nat, cap: nat)
    requires t <= n && 0 < width && 0 < cap && (n > 0 ==> (n - 1) * width < cap)
    ensures t * width < cap + width
  {
    if t > 0 {
      assert (t - 1) * width <= (n - 1) * width;
      assert t * width == (t - 1) * width + width;
    }
  }

  // ----- The initialisation of a write -----

  /** What the initialisation finds on the bench. */
  datatype Findings = Findings(
    badCalibration: bool, railTooHigh: bool,
    hasChipId: bool, wrongChipId: bool, force: bool,
    canErase: bool, skipErase: bool)

  predicate VppRefused(part: Part, f: Findings) {
    part.revision != REVISION_0 && (f.badCalibration || (f.railTooHigh && !f.force))
  }

  predicate IdRefused(f: Findings) {
    f.wrongChipId && !f.force
  }

  predicate InitRefused(part: Part, f: Findings) {
    VppRefused(part, f) || (f.hasChipId && IdRefused(f))
  }

  const ALL_OFF := Set(HV_ALL_OFF_MASK, false)

  /** The rail is up for the measurement only, and never when nothing is measured. */
  function VppEvents(part: Part, f: Findings): seq<Event> {
    if part.revision == REVISION_0 || f.badCalibration then [] else [Set(RouteMask(part), true), Measure, ALL_OFF]
  }

  const ID_EVENTS := [
    Set(VPP_REGULATOR_ENABLE, true), Set(VPP_A9_ENABLE, true),
    Address(0, true), IdRead(0), Address(1, true), IdRead(1), ALL_OFF]

  const ERASE_EVENTS := [
    Set(VPP_REGULATOR_ENABLE, true), ClearAddress, Set(VPP_A9_ENABLE | VPE_ENABLE, true), EraseStrobe, ALL_OFF]

  function InitEvents(part: Part, f: Findings): seq<Event> {
    VppEvents(part, f)
    + (if !VppRefused(part, f) && f.hasChipId then ID_EVENTS else [])
    + (if !InitRefused(part, f) && f.canErase && !f.skipErase then ERASE_EVENTS else [])
    + (if InitRefused(part, f) then [ALL_OFF] else [])
  }

  /** The programmer while one block is written: the control register, for every byte of the
      block the pulses and reads it has received, and everything that was done to the board. */
  class Bench {
    const job: Job
    var control: Control
    var pulseCount: seq<nat>
    var readCount: seq<nat>
    ghost const stage: Stage
    ghost const start: Control
    ghost var history: seq<Event>

    constructor (job: Job, ghost stage: Stage, control: Control)
      requires ValidJob(job)
      ensures this.job == job && this.stage == stage && this.control == control && start == control
      ensures Sound() && history == []
    {
      this.job := job;
      this.control := control;
      pulseCount := seq(|job.data|, j => 0);
      readCount := seq(|job.data|, j => 0);
      this.stage, start := stage, control;
      history := [];
    }

    ghost predicate Sized()
      reads this
    {
      |pulseCount| == |job.data| && |readCount| == |job.data| && ValidJob(job)
    }

    /** The control register and both counts are what the history makes them, and every event of
        it was allowed. */
    ghost predicate Sound()
      reads this
    {
      && Sized()
      && Replay(job, stage, start, history) == Board(control, pulseCount, readCount, true)
    }

    /** Enter an event that is happening. */
    ghost method Log(e: Event)
      modifies this`history
      ensures history == old(history) + [e]
    {
      history := history + [e];
    }

    method SetControlRegister(bits: Control, on: bool)
      requires Sound()
      requires stage.Writing? ==> WriteLevel(job.part, SetBits(job.part, control, bits, on))
      modifies this`control, this`history
      ensures Sound() && control == SetBits(job.part, old(control), bits, on)
      ensures history == old(history) + [Set(bits, on)]
    {
      SetEntered(job, stage, start, history, bits, on);
      Log(Set(bits, on));
      control := SetBits(job.part, control, bits, on);
    }

    /** The address write that every read and every strobe starts with. */
    method SetAddress(address: uint32, reading: bool)
      requires Sound() && (stage.Writing? ==> InBlock(job, address))
      modifies this`control, this`history
      ensures Sound() && control == Addressed(job.part, old(control), address, reading)
      ensures history == old(history) + [Address(address, reading)]
    {
      AddressEntered(job, stage, start, history, address, reading);
      Log(Address(address, reading));
      control := Addressed(job.part, control, address, reading);
    }

    method GetData(j: nat) returns (data: byte)
      requires stage.Writing? && Sound() && j < |job.data| && Armed(job.part, control)
      modifies this`control, this`readCount, this`history
      ensures Sound() && Armed(job.part, control)
      ensures data == Cell(job, j, pulseCount[j])
      ensures readCount == old(readCount)[j := old(readCount)[j] + 1]
      ensures history == old(history) + [Address(job.address + j, true), Read(job.address + j)]
    {
      ReadKeepsArmed(job.part, control, BusRemapWord(control, job.address + j, true));
      SetAddress(job.address + j, true);
      EnterRead(j);
      data := job.cell(job.address + j, pulseCount[j]);
    }

    method EnterRead(j: nat)
      requires stage.Writing? && Sound() && j < |job.data|
      requires Follows(history, Address(job.address + j, true)) && Hv(control) == Level(job.part)
      modifies this`readCount, this`history
      ensures Sound() && history == old(history) + [Read(job.address + j)]
      ensures readCount == old(readCount)[j := old(readCount)[j] + 1]
    {
      ReadEntered(job, stage, start, history, job.address + j);
      Log(Read(job.address + j));
      BumpAt(job, readCount, j);
      readCount := readCount[j := readCount[j] + 1];
    }

    method SetData(j: nat)
      requires stage.Writing? && Sound() && j < |job.data| && Raised(job.part, control)
      modifies this`control, this`pulseCount, this`history
      ensures Sound() && Raised(job.part, control)
      ensures pulseCount == old(pulseCount)[j := old(pulseCount)[j] + 1]
      ensures history == old(history) + [Address(job.address + j, false), Strobe(job.address + j)]
    {
      StrobeKeepsRaised(job.part, control, BusRemapWord(control, job.address + j, false));
      SetAddress(job.address + j, false);
      EnterStrobe(j);
    }

    method EnterStrobe(j: nat)
      requires stage.Writing? && Sound() && j < |job.data|
      requires Follows(history, Address(job.address + j, false))
      requires Hv(control) == Level(job.part) | RouteBit(job.part)
      modifies this`pulseCount, this`history
      ensures Sound() && history == old(history) + [Strobe(job.address + j)]
      ensures pulseCount == old(pulseCount)[j := old(pulseCount)[j] + 1]
    {
      StrobeEntered(job, stage, start, history, job.address + j);
      Log(Strobe(job.address + j));
      BumpAt(job, pulseCount, j);
      pulseCount := pulseCount[j := pulseCount[j] + 1];
    }

    ghost function BusRemapWord(c: Control, address: uint32, reading: bool): set<nat> {
      BusRemap.BusWord(job.part.bus, job.part.pins, c, BusLines.Lines(address), reading)
    }

    /** Bytes from `lo` on have had `n` passes; bytes before `mid` also the next scan. */
    ghost predicate Passed(lo: nat, mid: nat, hi: nat, n: nat)
      requires Sized() && lo <= mid <= hi <= |job.data|
      reads this
    {
      && (forall j :: lo <= j < hi ==> pulseCount[j] == Strobes(job, j, n))
      && (forall j :: lo <= j < mid ==> readCount[j] == ScanReads(job, j, n + 1))
      && (forall j :: mid <= j < hi ==> readCount[j] == ScanReads(job, j, n))
    }

    /** Outside the group nothing has moved. */
    twostate predicate OthersKept(lo: nat, hi: nat)
      requires old(Sized()) && Sized() && lo <= hi <= |job.data|
      reads this
    {
      forall j :: 0 <= j < |job.data| && !(lo <= j < hi) ==>
        pulseCount[j] == old(pulseCount)[j] && readCount[j] == old(readCount)[j]
    }

    /** Scan one byte: read it if it is still open and keep its flag up to date. */
    method ScanByte(pending: array<bool>, i: uint16, j: nat, passes: byte) returns (bad: bool)
      requires stage.Writing? && Sound() && j < |job.data| && i < pending.Length
      requires Armed(job.part, control)
      requires pulseCount[j] == Strobes(job, j, passes)
      requires pending[i] == (passes > 0 && Strobes(job, j, passes) == passes)
      modifies pending, this`control, this`readCount, this`history
      ensures Sound() && Armed(job.part, control)
      ensures bad == Unmet(job, j, passes)
      ensures pending[i] == bad
      ensures forall k :: 0 <= k < pending.Length && k != i ==> pending[k] == old(pending[k])
      ensures readCount == old(readCount)[j := old(readCount)[j] + ReadInPass(job, j, passes)]
    {
      var wasPending := pending[i];
      StrobesBounded(job, j, passes);
      if passes != 0 && !wasPending {
        return false;
      }
      var expected := job.data[j];
      if expected == 0xFF {
        return false;
      }
      var observed := GetData(j);
      if observed == expected {
        if wasPending {
          pending[i] := false;
        }
        return false;
      }
      if !wasPending {
        pending[i] := true;
      }
      return true;
    }

    /** `firstBad` is the address of the first flagged byte among the first `n` of the group. */
    ghost predicate FirstFlagged(pending: array<bool>, base: nat, n: nat, firstBad: nat)
      requires n <= pending.Length
      reads pending
    {
      exists m :: 0 <= m < n && firstBad == job.address + base + m && pending[m] && NoneFlagged(pending, m)
    }

    ghost predicate NoneFlagged(pending: array<bool>, n: nat)
      requires n <= pending.Length
      reads pending
    {
      forall k :: 0 <= k < n ==> !pending[k]
    }

    /** Scan byte `i` of a group, and count it and note its address if it is the first flagged
        one. */
    method ScanNext(pending: array<bool>, base: uint16, i: uint16, passes: byte, remaining: uint16, firstBad: nat)
      returns (more: uint16, first: nat)
      requires stage.Writing? && Sound() && base + i < |job.data| && i < pending.Length
      requires Armed(job.part, control) && remaining <= i < 0xFFFF
      requires pulseCount[base + i] == Strobes(job, base + i, passes)
      requires pending[i] == (passes > 0 && Strobes(job, base + i, passes) == passes)
      requires Noted(pending, base, i, remaining, firstBad)
      modifies pending, this`control, this`readCount, this`history
      ensures Sound() && Armed(job.part, control)
      ensures pending[i] == Unmet(job, base + i, passes)
      ensures forall k :: 0 <= k < pending.Length && k != i ==> pending[k] == old(pending[k])
      ensures readCount == old(readCount)[base + i := old(readCount)[base + i] + ReadInPass(job, base + i, passes)]
      ensures more <= i + 1 && Noted(pending, base, i + 1, more, first)
    {
      more, first := remaining, firstBad;
      var bad := ScanByte(pending, i, base + i, passes);
      if bad {
        if remaining == 0 {
          first := job.address + base + i;
        }
        more := remaining + 1;
      }
    }

    /** A scan adds one read to every byte still open. */
    lemma ScanAdds(before: seq<nat>, base: nat, len: nat, passes: nat)
      requires Sized() && |before| == |job.data| && base + len <= |job.data|
      requires forall j :: base <= j < base + len ==> pulseCount[j] == Strobes(job, j, passes)
      requires forall j :: base <= j < base + len ==> before[j] == ScanReads(job, j, passes)
      requires forall j :: base <= j < base + len ==> readCount[j] == before[j] + ReadInPass(job, j, passes)
      ensures Passed(base, base + len, base + len, passes)
    {
    }

    /** What the scan has noted of the first `n` bytes of the group. */
    ghost predicate Noted(pending: array<bool>, base: nat, n: nat, remaining: nat, firstBad: nat)
      requires n <= pending.Length
      reads pending
    {
      if remaining == 0 then NoneFlagged(pending, n) else FirstFlagged(pending, base, n, firstBad)
    }

    /** One scan pass over a group: read the bytes still open, flag the wrong ones and report
        how many there are and where the first one is. */
    method ScanPass(pending: array<bool>, base: uint16, len: uint16, passes: byte)
      returns (remaining: uint16, firstBad: nat)
      requires stage.Writing? && Sound() && base + len <= |job.data| && len <= pending.Length
      requires Armed(job.part, control)
      requires Passed(base, base, base + len, passes)
      requires FlagsBefore(pending, base, len, passes)
      modifies pending, this`control, this`readCount, this`history
      ensures Sound() && Armed(job.part, control)
      ensures Passed(base, base + len, base + len, passes)
      ensures OthersKept(base, base + len)
      ensures FlagsSet(pending, base, len, passes)
      ensures remaining == 0 ==> NoneFlagged(pending, len)
      ensures remaining > 0 ==> FirstFlagged(pending, base, len, firstBad)
    {
      ghost var before := readCount;
      remaining := 0;
      firstBad := job.address + base;
      var i: uint16 := 0;
      while i < len
        invariant remaining <= i <= len
        invariant Sound() && Armed(job.part, control)
        invariant forall j :: base <= j < base + i ==> readCount[j] == before[j] + ReadInPass(job, j, passes)
        invariant forall j :: 0 <= j < |job.data| && !(base <= j < base + i) ==> readCount[j] == before[j]
        invariant forall k :: 0 <= k < i ==> pending[k] == Unmet(job, base + k, passes)
        invariant forall k :: i <= k < len ==>
                    pending[k] == (passes > 0 && Strobes(job, base + k, passes) == passes)
        invariant Noted(pending, base, i, remaining, firstBad)
      {
        remaining, firstBad := ScanNext(pending, base, i, passes, remaining, firstBad);
        i := i + 1;
      }
      ScanAdds(before, base, len, passes);
    }

    /** One pulse pass: strobe every flagged byte once, with the route up for the whole pass. */
    method PulsePass(pending: array<bool>, base: uint16, len: uint16, passes: byte)
      requires stage.Writing? && Sound() && base + len <= |job.data| && len <= pending.Length
      requires Armed(job.part, control)
      requires Passed(base, base + len, base + len, passes)
      requires FlagsSet(pending, base, len, passes)
      modifies this`control, this`pulseCount, this`history
      ensures Sound() && Armed(job.part, control)
      ensures Passed(base, base, base + len, passes + 1)
      ensures OthersKept(base, base + len)
    {
      AssertRoute(job.part, control);
      SetControlRegister(VPE_ENABLE, true);
      ghost var before := pulseCount;
      StrobeFlagged(pending, base, len);
      PulseCounts(pending, before, base, len, passes);
      ClearRoute(job.part, control);
      SetControlRegister(VPE_ENABLE, false);
    }

    method StrobeFlagged(pending: array<bool>, base: uint16, len: uint16)
      requires stage.Writing? && Sound() && base + len <= |job.data| && len <= pending.Length
      requires Raised(job.part, control)
      modifies this`control, this`pulseCount, this`history
      ensures Sound() && Raised(job.part, control)
      ensures StrobedOnce(pending, old(pulseCount), base, len, len)
    {
      ghost var before := pulseCount;
      var i: uint16 := 0;
      while i < len
        invariant i <= len
        invariant Sound() && Raised(job.part, control)
        invariant StrobedOnce(pending, before, base, len, i)
      {
        if pending[i] {
          SetData(base + i);
        }
        i := i + 1;
      }
    }

    /** The flagged bytes among the first `n` of the group have one pulse more than `before`, and
        no other byte of the block has. */
    ghost predicate StrobedOnce(pending: array<bool>, before: seq<nat>, base: nat, len: nat, n: nat)
      requires Sized() && n <= len <= pending.Length && base + len <= |job.data|
      reads this, pending
    {
      && |before| == |job.data|
      && forall j :: 0 <= j < |job.data| ==>
           pulseCount[j] == before[j] + if base <= j < base + n && pending[j - base] then 1 else 0
    }

    lemma PulseCounts(pending: array<bool>, before: seq<nat>, base: nat, len: nat, passes: nat)
      requires Sized() && base + len <= |job.data| && len <= pending.Length
      requires StrobedOnce(pending, before, base, len, len) && FlagsSet(pending, base, len, passes)
      requires forall j :: base <= j < base + len ==> before[j] == Strobes(job, j, passes)
      ensures forall j :: base <= j < base + len ==> pulseCount[j] == Strobes(job, j, passes + 1)
    {
      forall j | base <= j < base + len
        ensures pulseCount[j] == Strobes(job, j, passes + 1)
      {
        assert pending[j - base] == Unmet(job, base + (j - base), passes);
        StrobesBounded(job, j, passes);
      }
    }

    /** Measure the rail before anything else. Rev 0 cannot, and an unusable calibration is
        refused before any high-voltage bit. */
    method CheckVpp(f: Findings) returns (error: bool)
      requires stage.Preparing? && Sound() && Hv(control) == 0
      modifies this`control, this`history
      ensures Sound() && Hv(control) == 0
      ensures history == old(history) + VppEvents(job.part, f)
      ensures error <==> VppRefused(job.part, f)
    {
      if job.part.revision == REVISION_0 {
        return false;
      }
      if f.badCalibration {
        return true;
      }
      AssertRail(job.part, control);
      SetControlRegister(RouteMask(job.part), true);
      MeasureRail();
      ArmedClears(job.part, control);
      SetControlRegister(HV_ALL_OFF_MASK, false);
      return f.railTooHigh && !f.force;
    }

    method MeasureRail()
      requires stage.Preparing? && Sound() && Hv(control) == RouteMask(job.part)
      modifies this`history
      ensures Sound() && history == old(history) + [Measure]
    {
      Extended(job, stage, start, history, Measure);
      Log(Measure);
    }

    /** One of the two identity reads. */
    method ReadId(address: uint32)
      requires stage.Preparing? && Sound() && Hv(control) == VPP_REGULATOR_ENABLE | VPP_A9_ENABLE
      modifies this`control, this`history
      ensures Sound() && Hv(control) == VPP_REGULATOR_ENABLE | VPP_A9_ENABLE
      ensures history == old(history) + [Address(address, true), IdRead(address)]
    {
      AddressWriteKeepsRoute(job.part, control, BusRemapWord(control, address, true));
      SetAddress(address, true);
      Extended(job, stage, start, history, IdRead(address));
      Log(IdRead(address));
    }

    method CheckChipId(f: Findings) returns (error: bool)
      requires stage.Preparing? && Sound() && Hv(control) == 0
      modifies this`control, this`history
      ensures Sound() && Hv(control) == 0
      ensures history == old(history) + ID_EVENTS
      ensures error <==> IdRefused(f)
    {
      RaiseA9(job.part, control);
      SetControlRegister(VPP_REGULATOR_ENABLE, true);
      SetControlRegister(VPP_A9_ENABLE, true);
      ReadId(0);
      ReadId(1);
      AllOffClears(job.part, control);
      SetControlRegister(HV_ALL_OFF_MASK, false);
      return f.wrongChipId && !f.force;
    }

    method Erase()
      requires stage.Preparing? && Sound() && Hv(control) == 0
      modifies this`control, this`history
      ensures Sound() && Hv(control) == 0
      ensures history == old(history) + ERASE_EVENTS
    {
      SwitchOnRegulator(job.part, control);
      SetControlRegister(VPP_REGULATOR_ENABLE, true);
      AddressWriteKeepsRoute(job.part, control, {});
      Extended(job, stage, start, history, ClearAddress);
      Log(ClearAddress);
      control := TopAddress(job.part, control, {});
      RaiseErase(job.part, control);
      SetControlRegister(VPP_A9_ENABLE | VPE_ENABLE, true);
      Extended(job, stage, start, history, EraseStrobe);
      Log(EraseStrobe);
      EraseClears(job.part, control);
      SetControlRegister(HV_ALL_OFF_MASK, false);
    }

    /** The initialisation of a write: every exit, error or not, leaves all five high-voltage
        bits clear. */
    method WriteInit(f: Findings) returns (error: bool)
      requires stage.Preparing? && Sound() && Hv(control) == 0
      modifies this`control, this`history
      ensures Sound() && Hv(control) == 0
      ensures history == old(history) + InitEvents(job.part, f)
      ensures error <==> InitRefused(job.part, f)
    {
      error := CheckVpp(f);
      if !error && f.hasChipId {
        error := CheckChipId(f);
      }
      if !error && f.canErase && !f.skipErase {
        Erase();
      }
      if error {
        OffStaysOff(job.part, control);
        SetControlRegister(HV_ALL_OFF_MASK, false);
      }
    }

    /** Report an exhausted budget: the route comes down first. */
    method ReportBudgetFailure(address: nat, passes: byte, limit: Limit) returns (outcome: Outcome)
      requires stage.Writing? && Sound() && Armed(job.part, control)
      modifies this`control, this`history
      ensures Sound() && Hv(control) == 0 && outcome == BudgetFailure(address, passes, limit)
    {
      ArmedClears(job.part, control);
      SetControlRegister(HV_ALL_OFF_MASK, false);
      return BudgetFailure(address, passes, limit);
    }

    /** Every byte of the range has what its own loop gives it. */
    ghost predicate Finished(lo: nat, hi: nat)
      requires Sized() && lo <= hi <= |job.data|
      reads this
    {
      forall j :: lo <= j < hi ==> pulseCount[j] == PulsesOf(job, j) && readCount[j] == ReadsOf(job, j)
    }

    /** No byte of the range has more pulses than its own loop gives it, or more reads than that
        loop and `extra`. */
    ghost predicate WithinOwnLoops(lo: nat, hi: nat, extra: nat)
      requires Sized() && lo <= hi <= |job.data|
      reads this
    {
      forall j :: lo <= j < hi ==> pulseCount[j] <= PulsesOf(job, j) && readCount[j] <= ReadsOf(job, j) + extra
    }

    ghost predicate Untouched(lo: nat)
      requires Sized() && lo <= |job.data|
      reads this
    {
      forall j :: lo <= j < |job.data| ==> pulseCount[j] == 0 && readCount[j] == 0
    }

    /** End a group whose budget has run out. */
    method FailGroup(
      ghost pending: array<bool>, ghost base: uint16, ghost len: uint16, passes: byte, firstBad: nat, limit: Limit)
      returns (outcome: Outcome)
      requires stage.Writing? && Sound() && base + len <= |job.data| && len <= pending.Length
      requires Armed(job.part, control) && WithinBudget(job, passes) && Spent(job, passes) == Some(limit)
      requires FlagsSet(pending, base, len, passes)
      requires FirstFlagged(pending, base, len, firstBad) && Passed(base, base + len, base + len, passes)
      modifies this`control, this`history
      ensures Sound() && Hv(control) == 0 && outcome == ProgramBytes(job, base)
      ensures !outcome.Programmed? && WithinOwnLoops(base, base + len, 0)
    {
      PassesWithinOwnLoops(base, len, passes);
      GroupExhausted(base, len, passes, pending, firstBad);
      outcome := ReportBudgetFailure(firstBad, passes, limit);
    }

    /** A pulse pass, and the flags as the next scan finds them. */
    method PulseFlagged(pending: array<bool>, base: uint16, len: uint16, passes: byte)
      requires stage.Writing? && Sound() && base + len <= |job.data| && len <= pending.Length
      requires Armed(job.part, control)
      requires Passed(base, base + len, base + len, passes)
      requires FlagsSet(pending, base, len, passes)
      modifies this`control, this`pulseCount, this`history
      ensures Sound() && Armed(job.part, control)
      ensures Passed(base, base, base + len, passes + 1)
      ensures OthersKept(base, base + len)
      ensures FlagsBefore(pending, base, len, passes + 1)
    {
      PulsePass(pending, base, len, passes);
      FlagsAfterPulse(base, len, passes + 1, pending);
    }

    /** The flags of a group before the scan that follows `passes` pulse passes. */
    ghost predicate FlagsBefore(pending: array<bool>, base: nat, len: nat, passes: nat)
      requires base + len <= |job.data| && len <= pending.Length
      reads pending
    {
      forall i :: 0 <= i < len ==> pending[i] == (passes > 0 && Strobes(job, base + i, passes) == passes)
    }

    /** The flags of a group behind that scan: exactly the bytes still wrong. */
    ghost predicate FlagsSet(pending: array<bool>, base: nat, len: nat, passes: nat)
      requires base + len <= |job.data| && len <= pending.Length
      reads pending
    {
      forall i :: 0 <= i < len ==> pending[i] == Unmet(job, base + i, passes)
    }

    /** One round of a group: a scan, and either the end of the group or a pulse pass. */
    method ProgramRound(pending: array<bool>, base: uint16, len: uint16, passes: byte, accumulated: uint32)
      returns (ended: bool, outcome: Outcome)
      requires stage.Writing? && Sound() && base + len <= |job.data| && len <= pending.Length
      requires Armed(job.part, control) && WithinBudget(job, passes) && accumulated == passes * job.pulseDelay
      requires Passed(base, base, base + len, passes) && FlagsBefore(pending, base, len, passes)
      modifies pending, this`control, this`pulseCount, this`readCount, this`history
      ensures Sound() && OthersKept(base, base + len)
      ensures !ended ==>
                && passes < job.part.row.maxPulses && WithinBudget(job, passes + 1) && Armed(job.part, control)
                && Passed(base, base, base + len, passes + 1) && FlagsBefore(pending, base, len, passes + 1)
      ensures ended ==> WithinOwnLoops(base, base + len, 0)
      ensures ended ==>
                if outcome.Programmed? then
                  && Armed(job.part, control) && Finished(base, base + len)
                  && ProgramBytes(job, base) == ProgramBytes(job, base + len)
                else
                  Hv(control) == 0 && outcome == ProgramBytes(job, base)
    {
      var remaining, firstBad := ScanPass(pending, base, len, passes);
      if remaining == 0 {
        PassesWithinOwnLoops(base, len, passes);
        GroupMet(base, len, passes, pending);
        return true, Programmed;
      }
      if passes >= job.part.row.maxPulses {
        outcome := FailGroup(pending, base, len, passes, firstBad, MaxPulses);
        return true, outcome;
      }
      if job.part.row.energyCapUs != 0 && accumulated >= job.part.row.energyCapUs {
        outcome := FailGroup(pending, base, len, passes, firstBad, EnergyCap);
        return true, outcome;
      }
      PulseFlagged(pending, base, len, passes);
      return false, Programmed;
    }

    /** Program one group with alternating scan and pulse passes. */
    method ProgramGroup(pending: array<bool>, base: uint16, len: uint16) returns (outcome: Outcome)
      requires stage.Writing? && Sound() && base + len <= |job.data| && len <= pending.Length
      requires Armed(job.part, control)
      requires NoneFlagged(pending, len) && Untouched(base)
      modifies pending, this`control, this`pulseCount, this`readCount, this`history
      ensures Sound() && OthersKept(base, base + len)
      ensures outcome.Programmed? ==> Armed(job.part, control) && Finished(base, base + len)
      ensures outcome.Programmed? ==> ProgramBytes(job, base) == ProgramBytes(job, base + len)
      ensures !outcome.Programmed? ==> Hv(control) == 0 && outcome == ProgramBytes(job, base)
      ensures WithinOwnLoops(base, base + len, 0)
    {
      var passes: byte := 0;
      var accumulated: uint32 := 0;
      while true
        invariant Sound() && Armed(job.part, control) && OthersKept(base, base + len)
        invariant passes <= job.part.row.maxPulses && accumulated == passes * job.pulseDelay
        invariant WithinBudget(job, passes)
        invariant Passed(base, base, base + len, passes) && FlagsBefore(pending, base, len, passes)
        decreases job.part.row.maxPulses - passes
      {
        var ended;
        ended, outcome := ProgramRound(pending, base, len, passes, accumulated);
        if ended {
          return;
        }
        AccumulatedFits(passes, job.pulseDelay);
        passes := passes + 1;
        accumulated := accumulated + job.pulseDelay;
      }
    }

    lemma PassesWithinOwnLoops(base: nat, len: nat, passes: nat)
      requires Sized() && base + len <= |job.data| && WithinBudget(job, passes)
      requires Passed(base, base + len, base + len, passes)
      ensures WithinOwnLoops(base, base + len, 0)
    {
      forall j | base <= j < base + len
        ensures pulseCount[j] <= PulsesOf(job, j) && readCount[j] <= ReadsOf(job, j)
      {
        StrobesWithinOwnLoop(job, j, passes);
        ReadsWithinOwnLoop(job, j, passes);
      }
    }

    lemma GroupMet(base: nat, len: nat, passes: nat, pending: array<bool>)
      requires Sized() && base + len <= |job.data| && len <= pending.Length && WithinBudget(job, passes)
      requires Passed(base, base + len, base + len, passes)
      requires FlagsSet(pending, base, len, passes)
      requires NoneFlagged(pending, len)
      ensures Finished(base, base + len)
      ensures ProgramBytes(job, base) == ProgramBytes(job, base + len)
    {
      forall j | base <= j < base + len
        ensures !Unmet(job, j, passes)
        ensures pulseCount[j] == PulsesOf(job, j) && readCount[j] == ReadsOf(job, j)
      {
        assert !pending[j - base];
        StrobesBounded(job, j, passes);
        if job.data[j] != 0xFF {
          MetMeansConverged(job, j, passes);
          ScanReadsCount(job, j, passes + 1);
        } else {
          NoReadsOfBlank(job, j, passes + 1);
        }
      }
      MetBytesPass(job, base, base + len, passes);
    }

    lemma GroupExhausted(base: nat, len: nat, passes: nat, pending: array<bool>, firstBad: nat)
      requires Sized() && base + len <= |job.data| && len <= pending.Length && WithinBudget(job, passes)
      requires FlagsSet(pending, base, len, passes)
      requires FirstFlagged(pending, base, len, firstBad) && Spent(job, passes).Some?
      ensures ProgramBytes(job, base) == BudgetFailure(firstBad, passes, Spent(job, passes).value)
    {
      var m :| 0 <= m < len && firstBad == job.address + base + m && pending[m] && NoneFlagged(pending, m);
      forall j | base <= j < base + m
        ensures !Unmet(job, j, passes)
      {
        assert !pending[j - base];
      }
      MetBytesPass(job, base, base + m, passes);
      UnmetMeansExhausted(job, base + m, passes);
    }

    lemma FlagsAfterPulse(base: nat, len: nat, passes: nat, pending: array<bool>)
      requires Sized() && base + len <= |job.data| && len <= pending.Length && passes > 0
      requires forall i :: 0 <= i < len ==> pending[i] == Unmet(job, base + i, passes - 1)
      ensures forall i :: 0 <= i < len ==> pending[i] == (Strobes(job, base + i, passes) == passes)
    {
      forall i | 0 <= i < len
        ensures pending[i] == (Strobes(job, base + i, passes) == passes)
      {
        StrobesBounded(job, base + i, passes - 1);
      }
    }

    /** The read-back of byte `i` in the final pass. */
    method VerifyByte(i: uint32) returns (failed: bool, failure: Outcome)
      requires stage.Writing? && Sound() && i < |job.data| && Armed(job.part, control)
      requires pulseCount[i] == PulsesOf(job, i)
      modifies this`control, this`readCount, this`history
      ensures Sound() && Armed(job.part, control)
      ensures failed ==> FinalVerify(job, i) == failure && !failure.Programmed?
      ensures !failed ==> FinalVerify(job, i) == FinalVerify(job, i + 1)
      ensures readCount == old(readCount)[i := old(readCount)[i] + 1]
    {
      var observed := GetData(i);
      return observed != job.data[i], VerifyFailure(job.address + i, observed);
    }

    /** The final pass over the whole block, which refuses one that does not fit the buffer or
        the device. */
    method VerifyExecute() returns (outcome: Outcome)
      requires stage.Writing? && Sound() && Armed(job.part, control)
      requires forall j :: 0 <= j < |job.data| ==> pulseCount[j] == PulsesOf(job, j)
      modifies this`control, this`readCount, this`history
      ensures Sound() && Armed(job.part, control)
      ensures outcome == if VerifyInRange(job) then FinalVerify(job, 0) else VerifyOutOfRange
      ensures outcome.Programmed? ==> forall j :: 0 <= j < |job.data| ==> readCount[j] == old(readCount)[j] + 1
      ensures forall j :: 0 <= j < |job.data| ==> readCount[j] <= old(readCount)[j] + 1
    {
      if |job.data| > job.part.bufferSize || !Transfer.RangeFits(job.address, |job.data|, job.part.memSize) {
        return VerifyOutOfRange;
      }
      ghost var before := readCount;
      var i: uint32 := 0;
      while i < |job.data|
        invariant i <= |job.data|
        invariant Sound() && Armed(job.part, control)
        invariant FinalVerify(job, 0) == FinalVerify(job, i)
        invariant forall j :: 0 <= j < i ==> readCount[j] == before[j] + 1
        invariant forall j :: i <= j < |job.data| ==> readCount[j] == before[j]
      {
        var failed, failure := VerifyByte(i);
        if failed {
          return failure;
        }
        i := i + 1;
      }
      return Programmed;
    }

    /** Program the next group, with all of its flags cleared. */
    method ProgramNext(pending: array<bool>, base: uint16, len: uint16) returns (outcome: Outcome)
      requires stage.Writing? && Sound() && base + len <= |job.data| && len <= pending.Length
      requires Armed(job.part, control) && Finished(0, base) && Untouched(base)
      modifies pending, this`control, this`pulseCount, this`readCount, this`history
      ensures Sound()
      ensures if outcome.Programmed? then
                && Armed(job.part, control) && Finished(0, base + len) && Untouched(base + len)
                && ProgramBytes(job, base) == ProgramBytes(job, base + len)
              else
                Hv(control) == 0 && WithinOwnLoops(0, |job.data|, 0) && outcome == ProgramBytes(job, base)
    {
      forall i | 0 <= i < pending.Length {
        pending[i] := false;
      }
      outcome := ProgramGroup(pending, base, len);
    }

    /** Program every group of the block in turn. */
    method ProgramGroups(group: uint16) returns (outcome: Outcome)
      requires 0 < group && |job.data| + group <= 0x1_0000
      requires stage.Writing? && Sound() && Armed(job.part, control) && Untouched(0)
      modifies this`control, this`pulseCount, this`readCount, this`history
      ensures Sound() && WithinOwnLoops(0, |job.data|, 0)
      ensures outcome == ProgramBytes(job, 0)
      ensures outcome.Programmed? ==> Armed(job.part, control) && Finished(0, |job.data|)
      ensures !outcome.Programmed? ==> Hv(control) == 0
    {
      var blockLen: uint16 := |job.data|;
      var pending := new bool[group];
      var base: uint16 := 0;
      ghost var done: nat := 0;
      while base < blockLen
        invariant done == if base < blockLen then base else blockLen
        invariant Sound() && Armed(job.part, control)
        invariant ProgramBytes(job, 0) == ProgramBytes(job, done)
        invariant Finished(0, done) && Untouched(done)
      {
        var len: uint16 := if blockLen - base < group then blockLen - base else group;
        outcome := ProgramNext(pending, base, len);
        if !outcome.Programmed? {
          return;
        }
        base, done := base + group, done + len;
      }
      return Programmed;
    }

    /** The body of the write: bring the rail up once for the block, program the groups, and
        read the block back where the row asks for it. */
    method WriteExecuteBody(group: uint16) returns (outcome: Outcome)
      requires 0 < group && |job.data| + group <= 0x1_0000
      requires stage.Writing? && Sound() && history == []
      requires Hv(control) == 0 || Armed(job.part, control)
      modifies this`control, this`pulseCount, this`readCount, this`history
      ensures Sound() && WithinOwnLoops(0, |job.data|, if FinalPass(job) then 1 else 0)
      ensures outcome == BlockOutcome(job)
      ensures Hv(control) == 0 || Armed(job.part, control)
      ensures outcome.Programmed? ==> Armed(job.part, control)
      ensures outcome.Programmed? ==> forall j :: 0 <= j < |job.data| ==>
                pulseCount[j] == PulsesOf(job, j)
                && readCount[j] == ReadsOf(job, j) + if FinalPass(job) then 1 else 0
    {
      RegulatorTellsArmed(job.part, control);
      if control & VPP_REGULATOR_ENABLE == 0 {
        AssertRail(job.part, control);
        SetControlRegister(RouteMask(job.part), true);
      }
      outcome := ProgramGroups(group);
      if !outcome.Programmed? {
        return;
      }
      if job.part.row.verifyMode.PerPulsePlusFinal? && !job.skipFinalVerify {
        outcome := VerifyExecute();
      }
    }

    /** The write of one block. The batched loop has the outcome of the byte-by-byte algorithm
        and, on success, its pulses and its reads, each of them an event of a history that kept
        the route; an error leaves every high-voltage bit off. */
    method WriteExecute(group: uint16) returns (outcome: Outcome)
      requires 0 < group && |job.data| + group <= 0x1_0000
      requires stage.Writing? && Sound() && history == []
      requires Hv(control) == 0 || Armed(job.part, control)
      modifies this`control, this`pulseCount, this`readCount, this`history
      ensures Sound() && Confined(job, history) && WithinEnergy(job, history)
      ensures outcome == BlockOutcome(job)
      ensures if outcome.Programmed? then Armed(job.part, control) else Hv(control) == 0
      ensures outcome.Programmed? ==> DoneIn(job, history)
    {
      outcome := WriteExecuteBody(group);
      if outcome.Programmed? {
        CountsDone();
      } else {
        if Hv(control) == 0 {
          OffStaysOff(job.part, control);
        } else {
          ArmedClears(job.part, control);
        }
        SetControlRegister(HV_ALL_OFF_MASK, false);
      }
      CountsConfined();
      ConfinedWithinEnergy(job, history);
    }

    lemma CountsConfined()
      requires stage.Writing? && Sound() && WithinOwnLoops(0, |job.data|, if FinalPass(job) then 1 else 0)
      ensures Confined(job, history)
    {
      KeptConcernsBlock(job, start, history);
      forall j | 0 <= j < |job.data|
        ensures Times(history, Strobe(job.address + j)) <= PulsesOf(job, j)
        ensures Times(history, Read(job.address + j)) <= ReadsOf(job, j) + if FinalPass(job) then 1 else 0
      {
        CountsAreTimes(job, stage, start, history, j);
      }
    }

    lemma CountsDone()
      requires stage.Writing? && Sound()
      requires forall j :: 0 <= j < |job.data| ==>
                 pulseCount[j] == PulsesOf(job, j)
                 && readCount[j] == ReadsOf(job, j) + if FinalPass(job) then 1 else 0
      ensures DoneIn(job, history)
    {
      forall j | 0 <= j < |job.data|
        ensures Times(history, Strobe(job.address + j)) == PulsesOf(job, j)
        ensures Times(history, Read(job.address + j)) == ReadsOf(job, j) + if FinalPass(job) then 1 else 0
      {
        CountsAreTimes(job, stage, start, history, j);
      }
    }
  }

  // ----- A whole write -----

  /** The control register after one run for each block, each run from where the last left it. */
  function EndOf(blocks: seq<Job>, start: Control, runs: seq<seq<Event>>): Control
    requires |runs| <= |blocks|
    decreases |runs|
  {
    var n := |runs| - 1;
    if runs == [] then start else Replay(blocks[n], Writing, EndOf(blocks, start, runs[..n]), runs[n]).control
  }

  /** Every run kept the route and was confined to its block. */
  ghost predicate RunsKept(blocks: seq<Job>, start: Control, runs: seq<seq<Event>>)
    requires |runs| <= |blocks|
    decreases |runs|
  {
    var n := |runs| - 1;
    runs != [] ==>
      && Replay(blocks[n], Writing, EndOf(blocks, start, runs[..n]), runs[n]).kept
      && Confined(blocks[n], runs[n])
      && RunsKept(blocks, start, runs[..n])
  }

  /** Every run of a whole write, failed or not, was allowed event by event and confined to its
      own block. */
  lemma {:induction false} EachRunKept(blocks: seq<Job>, start: Control, runs: seq<seq<Event>>, k: nat)
    requires k < |runs| <= |blocks| && RunsKept(blocks, start, runs)
    ensures Replay(blocks[k], Writing, EndOf(blocks, start, runs[..k]), runs[k]).kept
    ensures Confined(blocks[k], runs[k]) && WithinEnergy(blocks[k], runs[k])
    decreases |runs|
  {
    var n := |runs| - 1;
    if k < n {
      EachRunKept(blocks, start, runs[..n], k);
      assert runs[..n][..k] == runs[..k];
    } else {
      assert runs[..n] == runs[..k];
      ConfinedWithinEnergy(blocks[k], runs[k]);
    }
  }

  /** The report of a write: the first block that fails decides it. */
  function BlocksOutcome(blocks: seq<Job>, i: nat): Outcome
    requires i <= |blocks|
    decreases |blocks| - i
  {
    if i == |blocks| then Programmed
    else
      var outcome := BlockOutcome(blocks[i]);
      if outcome.Programmed? then BlocksOutcome(blocks, i + 1) else outcome
  }

  predicate Writable(part: Part, group: uint16, block: Job) {
    ValidJob(block) && block.part == part && |block.data| + group <= 0x1_0000
  }

  /** What the initialisation works on: the part, before any block has arrived. */
  function NoBlock(part: Part): Job {
    Job(0, [], part, 1, false, (a, p) => 0)
  }

  datatype Report = Refused | Ended(outcome: Outcome)

  lemma RunAdded(blocks: seq<Job>, start: Control, runs: seq<seq<Event>>, run: seq<Event>)
    requires |runs| < |blocks| && RunsKept(blocks, start, runs)
    requires Replay(blocks[|runs|], Writing, EndOf(blocks, start, runs), run).kept && Confined(blocks[|runs|], run)
    ensures RunsKept(blocks, start, runs + [run])
    ensures EndOf(blocks, start, runs + [run]) == Replay(blocks[|runs|], Writing, EndOf(blocks, start, runs), run).control
    ensures AllDone(blocks, runs) && DoneIn(blocks[|runs|], run) ==> AllDone(blocks, runs + [run])
  {
    assert (runs + [run])[..|runs|] == runs;
  }

  /** One block of a write, from where the last run left the control register. */
  method WriteBlock(part: Part, group: uint16, block: Job, control: Control)
    returns (outcome: Outcome, left: Control, ghost run: seq<Event>)
    requires 0 < group && Writable(part, group, block)
    requires Hv(control) == 0 || Armed(part, control)
    ensures outcome == BlockOutcome(block)
    ensures Replay(block, Writing, control, run).kept && left == Replay(block, Writing, control, run).control
    ensures if outcome.Programmed? then Armed(part, left) else Hv(left) == 0
    ensures Confined(block, run)
    ensures outcome.Programmed? ==> DoneIn(block, run)
  {
    var bench := new Bench(block, Writing, control);
    outcome := bench.WriteExecute(group);
    left, run := bench.control, bench.history;
  }

  /** The initialisation of a write, before any block has arrived. */
  method Prepare(part: Part, f: Findings, start: Control)
    returns (refused: bool, control: Control, ghost init: seq<Event>)
    requires Hv(start) == 0
    ensures init == InitEvents(part, f) && refused == InitRefused(part, f)
    ensures Replay(NoBlock(part), Preparing, start, init).kept
    ensures control == Replay(NoBlock(part), Preparing, start, init).control
    ensures Hv(control) == 0
  {
    var bench := new Bench(NoBlock(part), Preparing, start);
    refused := bench.WriteInit(f);
    control, init := bench.control, bench.history;
  }

  ghost predicate AllDone(blocks: seq<Job>, runs: seq<seq<Event>>)
    requires |runs| <= |blocks|
    decreases |runs|
  {
    var n := |runs| - 1;
    runs != [] ==> DoneIn(blocks[n], runs[n]) && AllDone(blocks, runs[..n])
  }

  lemma {:induction false} EachDone(blocks: seq<Job>, runs: seq<seq<Event>>, k: nat)
    requires k < |runs| <= |blocks| && AllDone(blocks, runs)
    ensures DoneIn(blocks[k], runs[k])
    decreases |runs|
  {
    if k < |runs| - 1 {
      EachDone(blocks, runs[..|runs| - 1], k);
    }
  }

  /** A whole write: the initialisation and any number of blocks of one part. Every event of it
      keeps the route, no run touches anything but its block or gives a byte more pulses than the
      byte-by-byte algorithm, the first failing block decides the report, on success every block
      has exactly the pulses and reads of that algorithm, and every failure leaves all
      high-voltage bits off. */
  method WriteAll(part: Part, f: Findings, blocks: seq<Job>, group: uint16, start: Control)
    returns (report: Report, control: Control, ghost init: seq<Event>, ghost runs: seq<seq<Event>>)
    requires 0 < group && Hv(start) == 0
    requires forall i :: 0 <= i < |blocks| ==> Writable(part, group, blocks[i])
    ensures init == InitEvents(part, f) && Replay(NoBlock(part), Preparing, start, init).kept
    ensures report == if InitRefused(part, f) then Refused else Ended(BlocksOutcome(blocks, 0))
    ensures report.Refused? ==> runs == []
    ensures var ready := Replay(NoBlock(part), Preparing, start, init).control;
            && Hv(ready) == 0 && |runs| <= |blocks|
            && RunsKept(blocks, ready, runs) && control == EndOf(blocks, ready, runs)
    ensures report != Ended(Programmed) ==> Hv(control) == 0
    ensures report == Ended(Programmed) ==> |runs| == |blocks| && AllDone(blocks, runs)
  {
    var refused: bool;
    refused, control, init := Prepare(part, f, start);
    runs := [];
    if refused {
      return Refused, control, init, runs;
    }
    var outcome;
    outcome, control, runs := WriteBlocks(part, group, blocks, control);
    report := Ended(outcome);
  }

  method WriteBlocks(part: Part, group: uint16, blocks: seq<Job>, ready: Control)
    returns (outcome: Outcome, control: Control, ghost runs: seq<seq<Event>>)
    requires 0 < group && Hv(ready) == 0
    requires forall i :: 0 <= i < |blocks| ==> Writable(part, group, blocks[i])
    ensures outcome == BlocksOutcome(blocks, 0)
    ensures |runs| <= |blocks| && RunsKept(blocks, ready, runs) && control == EndOf(blocks, ready, runs)
    ensures if outcome.Programmed? then |runs| == |blocks| && AllDone(blocks, runs) else Hv(control) == 0
  {
    control, runs := ready, [];
    var i := 0;
    while i < |blocks|
      invariant i == |runs| <= |blocks|
      invariant RunsKept(blocks, ready, runs) && control == EndOf(blocks, ready, runs)
      invariant Hv(control) == 0 || Armed(part, control)
      invariant BlocksOutcome(blocks, 0) == BlocksOutcome(blocks, i)
      invariant AllDone(blocks, runs)
    {
      ghost var run;
      outcome, control, run := WriteBlock(part, group, blocks[i], control);
      RunAdded(blocks, ready, runs, run);
      runs := runs + [run];
      if !outcome.Programmed? {
        return;
      }
      i := i + 1;
    }
    outcome := Programmed;
  }

  lemma AccumulatedFits(passes: byte, delay: uint32)
    requires passes < 0xFF && delay <= PULSE_MAX_US
    ensures (passes + 1) * delay == passes * delay + delay < 0x1_0000_0000
  {
    assert passes * delay <= 0xFF * PULSE_MAX_US;
  }
}
