/** One block write to a 27C EPROM on values: the parameter rows, the program budget, the
    byte-by-byte programming algorithm and the high-voltage route. Module EpromProgram proves
    the batched loop of the firmware against this module. */
module EpromBlock {
  import opened Bytes
  import opened Wrappers
  import opened BusLines
  import opened CommandDecoder
  import opened ControlRegister
  import opened BusRemap
  import Transfer
  import MessageParser

  // ----- Parameter rows -----

  datatype VerifyMode = PerPulse | PerPulsePlusFinal
  datatype VppPath = DropResistor | DirectVpe

  datatype Row = Row(energyCapUs: uint32, maxPulses: byte, verifyMode: VerifyMode, vppPath: VppPath)

  const PROTO_EPROM_28PIN: byte := 0x07
  const PROTO_EPROM_32PIN: byte := 0x08
  const PROTO_EPROM_24PIN: byte := 0x0B

  function RowFor(protocol: byte): Option<Row> {
    if protocol == PROTO_EPROM_28PIN then Some(Row(0, 25, PerPulsePlusFinal, DropResistor))
    else if protocol == PROTO_EPROM_32PIN then Some(Row(0, 25, PerPulsePlusFinal, DropResistor))
    else if protocol == PROTO_EPROM_24PIN then Some(Row(50000, 255, PerPulse, DirectVpe))
    else None
  }

  /** The part and the board: what all blocks of one write share. */
  datatype Part = Part(
    row: Row, bus: BusConfig, pins: byte, memSize: uint32, vppMv: uint16, revision: byte,
    vpeAsVpp: bool, bufferSize: nat)

  /** Everything the write of one block reads and does not change. `cell(a, p)` is the value
      that the chip returns at address `a` after `p` program pulses on that address. */
  datatype Job = Job(
    address: uint32, data: seq<byte>, part: Part, pulseDelay: uint32, skipFinalVerify: bool,
    cell: (nat, nat) -> byte)

  const PULSE_MAX_US := 65535

  predicate ValidJob(job: Job) {
    && job.address + |job.data| < 0x1_0000_0000
    && 0 < job.pulseDelay <= PULSE_MAX_US
  }

  // ----- Admission -----

  /** The pulse width in force: the row's default when the host sends none. */
  function ResolvedPulse(protocol: byte, requested: uint32): uint32 {
    if requested != 0 then requested
    else if protocol == PROTO_EPROM_32PIN then 100
    else if protocol == PROTO_EPROM_24PIN then 500
    else 1000
  }

  /** The row and the pulse width of a write, or a refusal before any high voltage: an unknown
      protocol, or a pulse wider than the limit or than the row's energy cap. */
  function Admit(protocol: byte, requested: uint32): Option<(Row, uint32)> {
    var pulse := ResolvedPulse(protocol, requested);
    match RowFor(protocol)
    case None => None
    case Some(row) =>
      if pulse > PULSE_MAX_US || (row.energyCapUs > 0 && pulse > row.energyCapUs) then None else Some((row, pulse))
  }

  /** An admitted write gives every byte room for at least one pulse before either budget. */
  lemma AdmittedHasRoom(protocol: byte, requested: uint32, job: Job)
    requires Admit(protocol, requested).Some?
    requires (job.part.row, job.pulseDelay) == Admit(protocol, requested).value
    ensures 0 < job.pulseDelay <= PULSE_MAX_US && Spent(job, 0).None?
  {
  }

  // ----- The byte-by-byte algorithm -----

  /** The value of byte `j` of the block after `p` pulses on it. */
  function Cell(job: Job, j: nat, p: nat): byte {
    job.cell(job.address + j, p)
  }

  datatype Limit = MaxPulses | EnergyCap

  /** The budget that a byte still wrong after `p` pulses has used up. A cap of 0 is no cap. */
  function Spent(job: Job, p: nat): Option<Limit> {
    if p >= job.part.row.maxPulses then Some(MaxPulses)
    else if job.part.row.energyCapUs != 0 && p * job.pulseDelay >= job.part.row.energyCapUs then Some(EnergyCap)
    else None
  }

  datatype ByteResult = Converged(pulses: nat) | Exhausted(pulses: nat, limit: Limit)

  /** Program one byte on its own: read it, and while it is wrong check the budget, pulse it
      and read it again. `p` pulses have been given. */
  function ProgramByte(job: Job, j: nat, p: nat): ByteResult
    requires j < |job.data|
    decreases job.part.row.maxPulses - p
  {
    if Cell(job, j, p) == job.data[j] then Converged(p)
    else match Spent(job, p)
      case Some(limit) => Exhausted(p, limit)
      case None => ProgramByte(job, j, p + 1)
  }

  datatype Outcome =
    | Programmed
    | BudgetFailure(address: nat, pulses: nat, limit: Limit)
    | VerifyFailure(address: nat, observed: byte)
    | VerifyOutOfRange

  /** Program the block from byte `j` on, one byte after the other. A 0xFF target is skipped
      without a read; the first byte that exhausts its budget ends the write. */
  function ProgramBytes(job: Job, j: nat): Outcome
    requires j <= |job.data|
    decreases |job.data| - j
  {
    if j == |job.data| then Programmed
    else if job.data[j] == 0xFF then ProgramBytes(job, j + 1)
    else match ProgramByte(job, j, 0)
      case Converged(_) => ProgramBytes(job, j + 1)
      case Exhausted(p, limit) => BudgetFailure(job.address + j, p, limit)
  }

  /** The pulses that the byte-by-byte algorithm gives byte `j`, if it gets that far. */
  function PulsesOf(job: Job, j: nat): nat
    requires j < |job.data|
  {
    if job.data[j] == 0xFF then 0 else ProgramByte(job, j, 0).pulses
  }

  /** The reads of byte `j`: one before any pulse and one after each pulse. */
  function ReadsOf(job: Job, j: nat): nat
    requires j < |job.data|
  {
    if job.data[j] == 0xFF then 0 else PulsesOf(job, j) + 1
  }

  lemma {:induction false} PulsesWithinBudget(job: Job, j: nat, p: nat)
    requires j < |job.data| && p <= job.part.row.maxPulses
    ensures p <= ProgramByte(job, j, p).pulses <= job.part.row.maxPulses
    decreases job.part.row.maxPulses - p
  {
    if Cell(job, j, p) != job.data[j] && Spent(job, p).None? {
      PulsesWithinBudget(job, j, p + 1);
    }
  }

  /** Every byte behind a fully programmed stretch holds its value after its own pulses. */
  lemma {:induction false} ProgrammedBytesMatch(job: Job, j: nat, k: nat)
    requires j <= k < |job.data| && ProgramBytes(job, j).Programmed? && job.data[k] != 0xFF
    ensures ProgramByte(job, k, 0).Converged? && Cell(job, k, PulsesOf(job, k)) == job.data[k]
    decreases |job.data| - j
  {
    if j < k {
      ProgrammedBytesMatch(job, j + 1, k);
    } else {
      ConvergedMatches(job, k, 0);
    }
  }

  lemma {:induction false} ConvergedMatches(job: Job, j: nat, p: nat)
    requires j < |job.data| && ProgramByte(job, j, p).Converged?
    ensures Cell(job, j, ProgramByte(job, j, p).pulses) == job.data[j]
    decreases job.part.row.maxPulses - p
  {
    if Cell(job, j, p) != job.data[j] {
      ConvergedMatches(job, j, p + 1);
    }
  }

  /** The read-back of the whole block from byte `j` on, after every byte has had its pulses. */
  function FinalVerify(job: Job, j: nat): Outcome
    requires j <= |job.data|
    decreases |job.data| - j
  {
    if j == |job.data| then Programmed
    else
      var observed := Cell(job, j, PulsesOf(job, j));
      if observed != job.data[j] then VerifyFailure(job.address + j, observed) else FinalVerify(job, j + 1)
  }

  predicate FinalPass(job: Job) {
    job.part.row.verifyMode.PerPulsePlusFinal? && !job.skipFinalVerify
  }

  /** The block fits the buffer and lies inside the device. */
  predicate VerifyInRange(job: Job) {
    |job.data| <= job.part.bufferSize && Transfer.RangeFits(job.address, |job.data|, job.part.memSize)
  }

  /** What the write of the block must report. */
  function BlockOutcome(job: Job): Outcome {
    var outcome := ProgramBytes(job, 0);
    if !outcome.Programmed? || !FinalPass(job) then outcome
    else if !VerifyInRange(job) then VerifyOutOfRange
    else FinalVerify(job, 0)
  }

  /** A chunk that the write transfer hands over never meets the range refusal of the final
      pass. */
  lemma HandedOverIsInRange(job: Job, c: Transfer.Cursor, bytes: seq<byte>, ok: bool)
    requires c.memSize == job.part.memSize && c.address == job.address && bytes == job.data
    requires Transfer.Incoming(c, Some(MessageParser.Data(bytes)), ok, job.part.bufferSize).1
             in {Transfer.Moved, Transfer.HandlerFailed}
    ensures VerifyInRange(job)
  {
  }

  /** After a successful program loop the read-back can only fail on a 0xFF target, which the
      loop never reads. */
  lemma {:induction false} VerifyFailsOnlyOnBlank(job: Job, j: nat)
    requires j <= |job.data| && ProgramBytes(job, 0).Programmed?
    ensures match FinalVerify(job, j)
            case Programmed => true
            case VerifyFailure(a, v) => job.address + j <= a < job.address + |job.data|
                                        && job.data[a - job.address] == 0xFF != v
            case _ => false
    decreases |job.data| - j
  {
    if j < |job.data| {
      if job.data[j] != 0xFF {
        ProgrammedBytesMatch(job, 0, j);
      }
      VerifyFailsOnlyOnBlank(job, j + 1);
    }
  }

  // ----- What the byte-by-byte algorithm amounts to -----

  /** Byte `j` reads wrong before any pulse and after each of the first `p` pulses. */
  ghost predicate WrongThrough(job: Job, j: nat, p: nat)
    requires j < |job.data|
  {
    forall q :: 0 <= q <= p ==> Cell(job, j, q) != job.data[j]
  }

  predicate CapReached(job: Job, p: nat) {
    job.part.row.energyCapUs != 0 && p * job.pulseDelay >= job.part.row.energyCapUs
  }

  /** Both budgets allow each of the first `p` pulses. */
  ghost predicate Affordable(job: Job, p: nat) {
    p <= job.part.row.maxPulses && forall q :: 0 <= q < p ==> !CapReached(job, q)
  }

  lemma {:induction false} OwnLoopGoesOn(job: Job, j: nat, p: nat, n: nat)
    requires j < |job.data| && p <= n && Affordable(job, n)
    requires forall q :: p <= q < n ==> Cell(job, j, q) != job.data[j]
    ensures ProgramByte(job, j, p) == ProgramByte(job, j, n)
    decreases n - p
  {
    if p < n {
      assert !CapReached(job, p);
      OwnLoopGoesOn(job, j, p + 1, n);
    }
  }

  /** The result of a byte, as far as its loop got: it was wrong through every earlier count, and
      both budgets allowed every pulse it was given. */
  lemma {:induction false} ResultMeans(job: Job, j: nat, p: nat)
    requires j < |job.data| && Affordable(job, p)
    requires forall q :: 0 <= q < p ==> Cell(job, j, q) != job.data[j]
    ensures var r := ProgramByte(job, j, p);
            && Affordable(job, r.pulses)
            && match r
               case Converged(n) =>
                 Cell(job, j, n) == job.data[j] && forall q :: 0 <= q < n ==> Cell(job, j, q) != job.data[j]
               case Exhausted(n, limit) =>
                 && WrongThrough(job, j, n)
                 && if limit == MaxPulses then n == job.part.row.maxPulses
                    else n < job.part.row.maxPulses && CapReached(job, n)
    decreases job.part.row.maxPulses - p
  {
    if Cell(job, j, p) != job.data[j] && p < job.part.row.maxPulses && !CapReached(job, p) {
      ResultMeans(job, j, p + 1);
    }
  }

  /** A byte converges after n pulses exactly when n is the first count at which it reads right
      and both budgets allow n pulses. */
  lemma ConvergedIff(job: Job, j: nat, n: nat)
    requires j < |job.data|
    ensures ProgramByte(job, j, 0) == Converged(n)
       <==> Cell(job, j, n) == job.data[j] && Affordable(job, n)
            && forall q :: 0 <= q < n ==> Cell(job, j, q) != job.data[j]
  {
    ResultMeans(job, j, 0);
    if Affordable(job, n) && forall q :: 0 <= q < n ==> Cell(job, j, q) != job.data[j] {
      OwnLoopGoesOn(job, j, 0, n);
    }
  }

  /** A byte fails on the energy cap after n pulses exactly when it is wrong through all of them,
      pulses are left, and n pulses have reached the cap that fewer had not. */
  lemma EnergyCapIff(job: Job, j: nat, n: nat)
    requires j < |job.data|
    ensures ProgramByte(job, j, 0) == Exhausted(n, EnergyCap)
       <==> WrongThrough(job, j, n) && Affordable(job, n) && n < job.part.row.maxPulses && CapReached(job, n)
  {
    ResultMeans(job, j, 0);
    if WrongThrough(job, j, n) && Affordable(job, n) {
      OwnLoopGoesOn(job, j, 0, n);
    }
  }

  /** A byte fails on the pulse limit exactly when it is wrong through all of its pulses and the
      cap allows them all. */
  lemma MaxPulsesIff(job: Job, j: nat, n: nat)
    requires j < |job.data|
    ensures ProgramByte(job, j, 0) == Exhausted(n, MaxPulses)
       <==> WrongThrough(job, j, n) && Affordable(job, n) && n == job.part.row.maxPulses
  {
    ResultMeans(job, j, 0);
    if WrongThrough(job, j, n) && Affordable(job, n) {
      OwnLoopGoesOn(job, j, 0, n);
    }
  }

  /** With a cap, all pulses of a byte but its last stay below it. */
  lemma EnergyBounded(job: Job, j: nat)
    requires j < |job.data| && job.part.row.energyCapUs != 0
    ensures PulsesOf(job, j) > 0 ==> (PulsesOf(job, j) - 1) * job.pulseDelay < job.part.row.energyCapUs
  {
    ResultMeans(job, j, 0);
    var n := PulsesOf(job, j);
    if n > 0 {
      assert !CapReached(job, n - 1);
    }
  }

  /** The program energy of an admitted part: at most 25 pulses on 28-pin and 32-pin parts; on
      24-pin parts less than twice the cap of 50 ms, whatever the pulse width. */
  lemma AdmittedEnergy(protocol: byte, requested: uint32, job: Job, j: nat)
    requires Admit(protocol, requested).Some? && j < |job.data|
    requires (job.part.row, job.pulseDelay) == Admit(protocol, requested).value
    ensures protocol in {PROTO_EPROM_28PIN, PROTO_EPROM_32PIN, PROTO_EPROM_24PIN}
    ensures protocol == PROTO_EPROM_24PIN ==> PulsesOf(job, j) * job.pulseDelay < 100000
    ensures protocol != PROTO_EPROM_24PIN ==> PulsesOf(job, j) <= 25
  {
    ResultMeans(job, j, 0);
    if protocol == PROTO_EPROM_24PIN {
      EnergyBounded(job, j);
      OneMoreWidth(PulsesOf(job, j), job.pulseDelay, 50000);
    }
  }

  lemma OneMoreWidth(n: nat, width: nat, cap: nat)
    requires n > 0 ==> (n - 1) * width < cap
    requires 0 < cap && width <= cap
    ensures n * width < 2 * cap
  {
    if n > 0 {
      assert n * width == (n - 1) * width + width;
    }
  }

  /** A blank target is neither pulsed nor read; any other byte is read once more than pulsed. */
  lemma BlankUntouched(job: Job, j: nat)
    requires j < |job.data|
    ensures job.data[j] == 0xFF ==> PulsesOf(job, j) == 0 && ReadsOf(job, j) == 0
    ensures job.data[j] != 0xFF ==> ReadsOf(job, j) == PulsesOf(job, j) + 1
  {
  }

  /** The program loop succeeds exactly when every byte that is not blank converges, and
      otherwise reports the first one that does not. */
  lemma {:induction false} ProgramBytesMeans(job: Job, j: nat)
    requires j <= |job.data|
    ensures match ProgramBytes(job, j)
            case Programmed => forall k :: j <= k < |job.data| && job.data[k] != 0xFF ==> ProgramByte(job, k, 0).Converged?
            case BudgetFailure(a, n, limit) =>
              && job.address + j <= a < job.address + |job.data|
              && job.data[a - job.address] != 0xFF
              && ProgramByte(job, a - job.address, 0) == Exhausted(n, limit)
              && forall k :: j <= k < a - job.address && job.data[k] != 0xFF ==> ProgramByte(job, k, 0).Converged?
            case _ => false
    decreases |job.data| - j
  {
    if j < |job.data| && (job.data[j] == 0xFF || ProgramByte(job, j, 0).Converged?) {
      ProgramBytesMeans(job, j + 1);
    }
  }

  /** The read-back succeeds exactly when every byte reads right, blank ones included, and
      otherwise reports the first wrong one and what it read. */
  lemma {:induction false} FinalVerifyMeans(job: Job, j: nat)
    requires j <= |job.data|
    ensures match FinalVerify(job, j)
            case Programmed => forall k :: j <= k < |job.data| ==> Cell(job, k, PulsesOf(job, k)) == job.data[k]
            case VerifyFailure(a, v) =>
              && job.address + j <= a < job.address + |job.data|
              && Cell(job, a - job.address, PulsesOf(job, a - job.address)) == v != job.data[a - job.address]
              && forall k :: j <= k < a - job.address ==> Cell(job, k, PulsesOf(job, k)) == job.data[k]
            case _ => false
    decreases |job.data| - j
  {
    if j < |job.data| && Cell(job, j, PulsesOf(job, j)) == job.data[j] {
      FinalVerifyMeans(job, j + 1);
    }
  }

  /** What a success promises of the chip: every byte that is not blank holds its target, and on
      28-pin and 32-pin parts, unless the host skips the read-back, the blank ones do too. */
  lemma SuccessMeans(protocol: byte, job: Job, k: nat)
    requires k < |job.data| && BlockOutcome(job).Programmed? && RowFor(protocol) == Some(job.part.row)
    ensures job.data[k] != 0xFF ==> Cell(job, k, PulsesOf(job, k)) == job.data[k]
    ensures protocol != PROTO_EPROM_24PIN && !job.skipFinalVerify ==> Cell(job, k, PulsesOf(job, k)) == job.data[k]
  {
    ProgramBytesMeans(job, 0);
    FinalVerifyMeans(job, 0);
    ResultMeans(job, k, 0);
  }

  // ----- Passes -----

  /** The pulses byte `j` has received after `n` pulse passes that each strobe exactly the
      bytes still wrong. */
  function Strobes(job: Job, j: nat, n: nat): nat
    requires j < |job.data|
    decreases n, 0
  {
    if n == 0 then 0
    else if Unmet(job, j, n - 1) then n
    else Strobes(job, j, n - 1)
  }

  /** Byte `j` was strobed in every one of `n` passes and is still wrong. */
  predicate Unmet(job: Job, j: nat, n: nat)
    requires j < |job.data|
    decreases n, 1
  {
    job.data[j] != 0xFF && Strobes(job, j, n) == n && Cell(job, j, n) != job.data[j]
  }

  lemma {:induction false} StrobesBounded(job: Job, j: nat, n: nat)
    requires j < |job.data|
    ensures Strobes(job, j, n) <= n
    ensures job.data[j] == 0xFF ==> Strobes(job, j, n) == 0
  {
    if n > 0 {
      StrobesBounded(job, j, n - 1);
    }
  }

  /** The reads of byte `j` in the scan pass after `n` pulse passes: one while it is open. */
  function ReadInPass(job: Job, j: nat, n: nat): nat
    requires j < |job.data|
  {
    if job.data[j] != 0xFF && Strobes(job, j, n) == n then 1 else 0
  }

  /** The reads of byte `j` in the first `n` scan passes. */
  function ScanReads(job: Job, j: nat, n: nat): nat
    requires j < |job.data|
  {
    if n == 0 then 0
    else ScanReads(job, j, n - 1) + ReadInPass(job, j, n - 1)
  }

  lemma {:induction false} ScanReadsCount(job: Job, j: nat, n: nat)
    requires j < |job.data| && job.data[j] != 0xFF
    ensures ScanReads(job, j, n) == if Strobes(job, j, n) == n then n else Strobes(job, j, n) + 1
  {
    if n > 0 {
      ScanReadsCount(job, j, n - 1);
      StrobesBounded(job, j, n - 1);
    }
  }

  /** No budget ran out in the first `n` passes. */
  predicate WithinBudget(job: Job, n: nat) {
    forall q :: 0 <= q < n ==> Spent(job, q).None?
  }

  /** A byte strobed in every one of `n` passes is where its own loop is after `n` pulses. */
  lemma {:induction false} OwnLoopReached(job: Job, j: nat, n: nat)
    requires j < |job.data| && WithinBudget(job, n)
    requires job.data[j] != 0xFF && Strobes(job, j, n) == n
    ensures ProgramByte(job, j, 0) == ProgramByte(job, j, n)
  {
    if n > 0 {
      StrobesBounded(job, j, n - 1);
      OwnLoopReached(job, j, n - 1);
      assert Spent(job, n - 1).None?;
    }
  }

  /** A byte no longer wrong after `n` passes has converged in its own loop, with the same
      pulses and the same reads. */
  lemma {:induction false} MetMeansConverged(job: Job, j: nat, n: nat)
    requires j < |job.data| && WithinBudget(job, n)
    requires job.data[j] != 0xFF && !Unmet(job, j, n)
    ensures ProgramByte(job, j, 0) == Converged(Strobes(job, j, n))
  {
    StrobesBounded(job, j, n);
    if Strobes(job, j, n) == n {
      OwnLoopReached(job, j, n);
    } else {
      MetMeansConverged(job, j, n - 1);
    }
  }

  /** A byte still wrong when a budget runs out is exhausted in its own loop, at the same
      count and for the same reason. */
  lemma UnmetMeansExhausted(job: Job, j: nat, n: nat)
    requires j < |job.data| && WithinBudget(job, n) && Unmet(job, j, n) && Spent(job, n).Some?
    ensures ProgramByte(job, j, 0) == Exhausted(n, Spent(job, n).value)
  {
    OwnLoopReached(job, j, n);
  }

  /** Met bytes do not stop the byte-by-byte write. */
  lemma {:induction false} MetBytesPass(job: Job, j: nat, k: nat, n: nat)
    requires j <= k <= |job.data| && WithinBudget(job, n)
    requires forall i :: j <= i < k ==> !Unmet(job, i, n)
    ensures ProgramBytes(job, j) == ProgramBytes(job, k)
    decreases k - j
  {
    if j < k {
      if job.data[j] != 0xFF {
        MetMeansConverged(job, j, n);
      }
      MetBytesPass(job, j + 1, k, n);
    }
  }

  /** The strobes of a byte never pass the pulses of its own loop. */
  lemma {:induction false} StrobesWithinOwnLoop(job: Job, j: nat, n: nat)
    requires j < |job.data| && WithinBudget(job, n)
    ensures Strobes(job, j, n) <= PulsesOf(job, j)
  {
    StrobesBounded(job, j, n);
    if job.data[j] != 0xFF {
      if n > 0 && !Unmet(job, j, n - 1) {
        StrobesWithinOwnLoop(job, j, n - 1);
      } else {
        OwnLoopReached(job, j, n);
        assert n > 0 ==> Spent(job, n - 1).None?;
        PulsesWithinBudget(job, j, n);
      }
    }
  }

  /** The reads of a byte in the passes never pass those of its own loop. */
  lemma ReadsWithinOwnLoop(job: Job, j: nat, n: nat)
    requires j < |job.data| && WithinBudget(job, n)
    ensures ScanReads(job, j, n + 1) <= ReadsOf(job, j)
  {
    if job.data[j] == 0xFF {
      NoReadsOfBlank(job, j, n + 1);
    } else {
      ScanReadsCount(job, j, n + 1);
      StrobesBounded(job, j, n);
      StrobesWithinOwnLoop(job, j, n);
    }
  }

  lemma {:induction false} NoReadsOfBlank(job: Job, j: nat, n: nat)
    requires j < |job.data| && job.data[j] == 0xFF
    ensures ScanReads(job, j, n) == 0
  {
    if n > 0 {
      NoReadsOfBlank(job, j, n - 1);
    }
  }

  // ----- The high-voltage route -----

  const DROP_PATH_MAX_MV := 17380

  /** The rail of the part: the regulator alone, or dropped through the resistor. */
  function RouteMask(part: Part): Control {
    if part.vpeAsVpp then VPP_REGULATOR_ENABLE
    else if part.row.vppPath.DirectVpe? then VPP_REGULATOR_ENABLE
    else if part.vppMv > DROP_PATH_MAX_MV then VPP_REGULATOR_ENABLE
    else HV_ROUTE_MASK
  }

  predicate P1Part(part: Part) {
    UsingP1AsVpp(part.pins, part.bus.vppLine)
  }

  /** The switch that puts the rail on this part. */
  function RouteBit(part: Part): Control {
    if P1Part(part) then VPP_P1_ENABLE else VPE_ENABLE
  }

  /** The bits the part uses: P1 wherever the caller names VPE, on a P1 part. */
  function Named(part: Part, bits: Control): Control {
    if bits & VPE_ENABLE != 0 && P1Part(part) then (bits & !VPE_ENABLE) | VPP_P1_ENABLE else bits
  }

  /** Setting or clearing control bits. */
  function SetBits(part: Part, control: Control, bits: Control, on: bool): Control {
    if on then control | Named(part, bits) else control & !Named(part, bits)
  }

  /** Whether an address write keeps the drop bit. */
  predicate KeepsDrop(part: Part) {
    part.pins < 32 || Rev2Class(part.revision)
  }

  /** The control register after the address write of a bus word. */
  function TopAddress(part: Part, control: Control, word: set<nat>): Control {
    var kept := VPP_A9_ENABLE | VPE_ENABLE | VPP_P1_ENABLE | VPP_REGULATOR_ENABLE
                | if KeepsDrop(part) then VPP_VPE_DROP_ENABLE else 0;
    (if 16 in word then ADDRESS_LINE_16 else 0)
    | (if 20 in word then ADDRESS_LINE_17 else 0)
    | (if 21 in word then ADDRESS_LINE_18 else 0)
    | (if 22 in word then READ_WRITE else 0)
    | (control & kept)
    | (if part.pins == 28 then ADDRESS_LINE_17 else 0)
  }

  function Addressed(part: Part, control: Control, address: uint32, reading: bool): Control {
    TopAddress(part, control, BusWord(part.bus, part.pins, control, Lines(address), reading))
  }

  /** The high-voltage part of a control value. */
  function Hv(control: Control): Control {
    control & HIGH_VOLTAGE
  }

  /** The rail that is left once an address has been written. */
  function Level(part: Part): Control {
    if KeepsDrop(part) then RouteMask(part) else VPP_REGULATOR_ENABLE
  }

  /** The rail is up and no route is on. */
  predicate Armed(part: Part, control: Control) {
    Hv(control) == RouteMask(part) || Hv(control) == Level(part)
  }

  /** The rail is up and switched onto the part. */
  predicate Raised(part: Part, control: Control) {
    Hv(control) == RouteMask(part) | RouteBit(part) || Hv(control) == Level(part) | RouteBit(part)
  }

  /** An address write keeps every high-voltage bit, except that it strips the drop bit on a
      board where that bit would hold A16 high. */
  lemma AddressWriteKeepsRoute(part: Part, control: Control, word: set<nat>)
    ensures Hv(TopAddress(part, control, word))
         == Hv(control) & if KeepsDrop(part) then HIGH_VOLTAGE else !VPP_VPE_DROP_ENABLE
  {
  }

  lemma ReadKeepsArmed(part: Part, control: Control, word: set<nat>)
    requires Armed(part, control)
    ensures Hv(TopAddress(part, control, word)) == Level(part)
  {
    AddressWriteKeepsRoute(part, control, word);
  }

  lemma StrobeKeepsRaised(part: Part, control: Control, word: set<nat>)
    requires Raised(part, control)
    ensures Hv(TopAddress(part, control, word)) == Level(part) | RouteBit(part)
  {
    AddressWriteKeepsRoute(part, control, word);
  }

  lemma SwitchOn(c: Control, bit: Control)
    requires bit == VPE_ENABLE || bit == VPP_P1_ENABLE
    ensures Hv(c | bit) == Hv(c) | bit
  {
  }

  lemma SwitchOff(c: Control, rail: Control, bit: Control)
    requires bit == VPE_ENABLE || bit == VPP_P1_ENABLE
    requires rail == HV_ROUTE_MASK || rail == VPP_REGULATOR_ENABLE
    requires Hv(c) == rail | bit
    ensures Hv(c & !bit) == rail
  {
  }

  lemma SwitchOfPart(part: Part)
    ensures RouteBit(part) == VPE_ENABLE || RouteBit(part) == VPP_P1_ENABLE
    ensures Named(part, VPE_ENABLE) == RouteBit(part)
  {
  }

  lemma RailOfBlock(part: Part)
    ensures RouteMask(part) == HV_ROUTE_MASK || RouteMask(part) == VPP_REGULATOR_ENABLE
    ensures Level(part) == HV_ROUTE_MASK || Level(part) == VPP_REGULATOR_ENABLE
  {
  }

  lemma AssertRail(part: Part, control: Control)
    requires Hv(control) == 0
    ensures Armed(part, SetBits(part, control, RouteMask(part), true))
  {
  }

  lemma RegulatorTellsArmed(part: Part, control: Control)
    requires Hv(control) == 0 || Armed(part, control)
    ensures control & VPP_REGULATOR_ENABLE == 0 <==> Hv(control) == 0
  {
  }

  lemma AssertRoute(part: Part, control: Control)
    requires Armed(part, control)
    ensures Raised(part, SetBits(part, control, VPE_ENABLE, true))
  {
    SwitchOfPart(part);
    SwitchOn(control, RouteBit(part));
  }

  lemma ClearRoute(part: Part, control: Control)
    requires Raised(part, control)
    ensures Armed(part, SetBits(part, control, VPE_ENABLE, false))
  {
    SwitchOfPart(part);
    RailOfBlock(part);
    if Hv(control) == RouteMask(part) | RouteBit(part) {
      SwitchOff(control, RouteMask(part), RouteBit(part));
    } else {
      SwitchOff(control, Level(part), RouteBit(part));
    }
  }

  /** The all-off mask names only VPE, and still leaves all five bits clear: a P1 part has P1
      cleared in place of a VPE bit it never sets. */
  lemma AllOffClears(part: Part, control: Control)
    requires Hv(control) & (VPE_ENABLE | VPP_P1_ENABLE) & !RouteBit(part) == 0
    ensures Hv(SetBits(part, control, HV_ALL_OFF_MASK, false)) == 0
  {
  }

  lemma ArmedClears(part: Part, control: Control)
    requires Armed(part, control)
    ensures Hv(SetBits(part, control, HV_ALL_OFF_MASK, false)) == 0
  {
    RailOfBlock(part);
    AllOffClears(part, control);
  }

  lemma OffStaysOff(part: Part, control: Control)
    requires Hv(control) == 0
    ensures Hv(SetBits(part, control, HV_ALL_OFF_MASK, false)) == 0
  {
    AllOffClears(part, control);
  }

  lemma SwitchOnRegulator(part: Part, c: Control)
    requires Hv(c) == 0
    ensures Hv(SetBits(part, c, VPP_REGULATOR_ENABLE, true)) == VPP_REGULATOR_ENABLE
  {
  }

  lemma RaiseA9(part: Part, c: Control)
    requires Hv(c) == 0
    ensures Hv(SetBits(part, SetBits(part, c, VPP_REGULATOR_ENABLE, true), VPP_A9_ENABLE, true))
         == VPP_REGULATOR_ENABLE | VPP_A9_ENABLE
  {
  }

  lemma RaiseErase(part: Part, c: Control)
    requires Hv(c) == VPP_REGULATOR_ENABLE
    ensures Hv(SetBits(part, c, VPP_A9_ENABLE | VPE_ENABLE, true))
         == VPP_REGULATOR_ENABLE | VPP_A9_ENABLE | RouteBit(part)
  {
  }

  lemma EraseClears(part: Part, c: Control)
    requires Hv(c) == VPP_REGULATOR_ENABLE | VPP_A9_ENABLE | RouteBit(part)
    ensures Hv(SetBits(part, c, HV_ALL_OFF_MASK, false)) == 0
  {
    SwitchOfPart(part);
    AllOffClears(part, c);
  }

  /** With the other part's switch on, the all-off mask would leave it on. */
  lemma AllOffMissesOtherSwitch(part: Part, control: Control)
    requires Hv(control) & (VPE_ENABLE | VPP_P1_ENABLE) & !RouteBit(part) != 0
    ensures Hv(SetBits(part, control, HV_ALL_OFF_MASK, false)) != 0
  {
  }
}
