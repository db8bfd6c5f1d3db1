/** The eliding register cache, and the command lifecycle that keeps it in step with the
    latches while the board revision changes underneath. */
module Registers {
  import opened Bytes
  import opened ControlRegister

  datatype RegisterId = LeastSignificant | MostSignificant | ControlReg

  /** The cached register values, the physical latches, and the revision in force. */
  datatype Shield = Shield(
    lsb: bv8, msb: bv8, control: Control,
    lsbLatch: bv8, msbLatch: bv8, controlLatch: bv8,
    physicalRevision: byte, overrideRevision: byte)

  /** A stored override wins over the detected revision. */
  function Revision(s: Shield): byte {
    if s.overrideRevision < 0xFF then s.overrideRevision else s.physicalRevision
  }

  function LowByte(data: Control): bv8 {
    (data & 0xFF) as bv8
  }

  /** A register write that skips the latch when the cached value is already right. */
  function Write(s: Shield, reg: RegisterId, data: Control): Shield {
    match reg
    case LeastSignificant => if s.lsb == LowByte(data) then s else s.(lsb := LowByte(data), lsbLatch := LowByte(data))
    case MostSignificant => if s.msb == LowByte(data) then s else s.(msb := LowByte(data), msbLatch := LowByte(data))
    case ControlReg =>
      if s.control == data then s
      else s.(control := data, controlLatch := PhysicalControl(Revision(s), data))
  }

  /** The write without the shortcut: every call strobes the latch. */
  function PlainWrite(s: Shield, reg: RegisterId, data: Control): Shield {
    match reg
    case LeastSignificant => s.(lsb := LowByte(data), lsbLatch := LowByte(data))
    case MostSignificant => s.(msb := LowByte(data), msbLatch := LowByte(data))
    case ControlReg => s.(control := data, controlLatch := PhysicalControl(Revision(s), data))
  }

  /** The latches hold what the cache says. */
  predicate Coherent(s: Shield) {
    && s.lsbLatch == s.lsb
    && s.msbLatch == s.msb
    && s.controlLatch == PhysicalControl(Revision(s), s.control)
  }

  /** On a coherent cache, skipping a write cannot be told from making it. */
  lemma ElisionIsInvisible(s: Shield, reg: RegisterId, data: Control)
    requires Coherent(s)
    ensures Write(s, reg, data) == PlainWrite(s, reg, data)
    ensures Coherent(Write(s, reg, data))
  {
  }

  /** No revision drives a physical bit when the logical register is 0. */
  lemma PhysicalZero(revision: byte)
    ensures PhysicalControl(revision, 0) == 0
  {
  }

  /** An elided write to an incoherent cache leaves the latch wrong: coherence is needed. */
  lemma ElisionNeedsCoherence(s: Shield)
    requires s.control != 0 && PhysicalControl(Revision(s), s.control) != s.controlLatch
    ensures Write(s, ControlReg, s.control).controlLatch != PlainWrite(s, ControlReg, s.control).controlLatch
  {
  }

  // ----- The command lifecycle -----

  const CMD_IDLE: byte := 0

  datatype BusAction = WriteRegister(reg: RegisterId, data: Control) | SetChipEnable(high: bool)

  datatype Firmware = Firmware(shield: Shield, chipEnableHigh: bool, cmd: byte)

  function Act(f: Firmware, a: BusAction): Firmware {
    match a
    case WriteRegister(reg, data) => f.(shield := Write(f.shield, reg, data))
    case SetChipEnable(high) => f.(chipEnableHigh := high)
  }

  function ActAll(f: Firmware, actions: seq<BusAction>): Firmware
    decreases |actions|
  {
    if actions == [] then f else ActAll(Act(f, actions[0]), actions[1..])
  }

  function AllZero(s: Shield): Shield {
    Write(Write(Write(s, ControlReg, 0), LeastSignificant, 0), MostSignificant, 0)
  }

  /** Every command ends here. */
  function CommandDone(f: Firmware): Firmware {
    Firmware(AllZero(f.shield), true, CMD_IDLE)
  }

  /** Power-on: board setup runs on a cache of ones and unknown latches, then the stored
      configuration and the detection set the revision. */
  function Setup(latches: (bv8, bv8, bv8), storedOverride: byte, detected: byte): Firmware {
    var cold := Shield(0xFF, 0xFF, 0x00FF, latches.0, latches.1, latches.2, 0xFF, 0xFF);
    var off := Write(Write(Write(cold, LeastSignificant, 0), MostSignificant, 0), ControlReg, 0);
    Firmware(off.(overrideRevision := storedOverride, physicalRevision := detected), true, CMD_IDLE)
  }

  /** What a received command frame leads to. `Refused` covers a decoder refusal, a rejected
      configuration and a failed memory setup; the last may already have touched the bus. */
  datatype Frame =
    | Refused(setup: seq<BusAction>)
    | MemoryCommand(cmd: byte, setup: seq<BusAction>)
    | ConfigCommand(cmd: byte, newOverride: byte)
    | OtherCommand(cmd: byte)

  /** One pass of the main loop: the watchdog verdict, a frame if one is waiting, what the
      running operation does to the bus and whether it finished. */
  datatype Pass = Pass(expired: bool, frame: seq<Frame>, work: seq<BusAction>, finished: bool)

  function Accept(f: Firmware, frame: Frame): Firmware {
    match frame
    case Refused(setup) => CommandDone(ActAll(f, setup))
    case MemoryCommand(cmd, setup) => ActAll(f.(cmd := cmd), setup)
    case ConfigCommand(cmd, newOverride) => f.(cmd := cmd, shield := f.shield.(overrideRevision := newOverride))
    case OtherCommand(cmd) => f.(cmd := cmd)
  }

  function Loop(f: Firmware, p: Pass): Firmware {
    if f.cmd != CMD_IDLE && p.expired then
      CommandDone(f)
    else if f.cmd == CMD_IDLE then
      if p.frame == [] then f else Accept(f, p.frame[0])
    else
      var g := ActAll(f, p.work);
      if p.finished then CommandDone(g) else g
  }

  function Run(f: Firmware, passes: seq<Pass>): Firmware
    decreases |passes|
  {
    if passes == [] then f else Run(Loop(f, passes[0]), passes[1..])
  }

  /** A memory command is never the idle command. */
  predicate PassOk(p: Pass) {
    forall fr :: fr in p.frame && fr.MemoryCommand? ==> fr.cmd != CMD_IDLE
  }

  predicate Quiet(f: Firmware) {
    && f.shield.lsbLatch == 0 && f.shield.msbLatch == 0 && f.shield.controlLatch == 0
    && f.shield.lsb == 0 && f.shield.msb == 0 && f.shield.control == 0
    && f.chipEnableHigh
  }

  predicate Safe(f: Firmware) {
    Coherent(f.shield) && (f.cmd == CMD_IDLE ==> Quiet(f))
  }

  lemma {:induction false} ActAllCoherent(f: Firmware, actions: seq<BusAction>)
    requires Coherent(f.shield)
    ensures Coherent(ActAll(f, actions).shield) && ActAll(f, actions).cmd == f.cmd
    decreases |actions|
  {
    if actions != [] {
      if actions[0].WriteRegister? {
        ElisionIsInvisible(f.shield, actions[0].reg, actions[0].data);
      }
      ActAllCoherent(Act(f, actions[0]), actions[1..]);
    }
  }

  lemma CommandDoneSafe(f: Firmware)
    requires Coherent(f.shield)
    ensures Safe(CommandDone(f))
  {
    PhysicalZero(Revision(f.shield));
  }

  lemma LoopSafe(f: Firmware, p: Pass)
    requires Safe(f) && PassOk(p)
    ensures Safe(Loop(f, p))
  {
    if f.cmd == CMD_IDLE {
      if p.frame != [] {
        match p.frame[0]
        case Refused(setup) =>
          ActAllCoherent(f, setup);
          CommandDoneSafe(ActAll(f, setup));
        case MemoryCommand(cmd, setup) =>
          ActAllCoherent(f.(cmd := cmd), setup);
        case ConfigCommand(cmd, newOverride) =>
          PhysicalZero(newOverride);
          PhysicalZero(f.shield.physicalRevision);
        case OtherCommand(cmd) =>
      }
    } else if p.expired {
      CommandDoneSafe(f);
    } else {
      ActAllCoherent(f, p.work);
      CommandDoneSafe(ActAll(f, p.work));
    }
  }

  /** A pass that finds the running command expired or finished leaves the board idle and quiet;
      any other pass of a running command keeps it running. */
  lemma PassEnds(f: Firmware, p: Pass)
    requires Safe(f) && PassOk(p) && f.cmd != CMD_IDLE
    ensures var g := Loop(f, p);
            if p.expired || p.finished then g.cmd == CMD_IDLE && Quiet(g) else g.cmd == f.cmd
  {
    LoopSafe(f, p);
    ActAllCoherent(f, p.work);
  }

  /** An idle board waits for a frame and takes its command; after a refusal it is idle and quiet
      again. A configuration command puts its revision in force for the writes behind it. */
  lemma FrameTaken(f: Firmware, p: Pass)
    requires Safe(f) && PassOk(p) && f.cmd == CMD_IDLE
    ensures var g := Loop(f, p);
            && (p.frame == [] ==> g == f)
            && (p.frame != [] && p.frame[0].Refused? ==> g.cmd == CMD_IDLE && Quiet(g))
            && (p.frame != [] && !p.frame[0].Refused? ==> g.cmd == p.frame[0].cmd)
            && (p.frame != [] && p.frame[0].ConfigCommand? && p.frame[0].newOverride < 0xFF ==>
                  Revision(g.shield) == p.frame[0].newOverride)
  {
    LoopSafe(f, p);
    if p.frame != [] && p.frame[0].MemoryCommand? {
      ActAllCoherent(f.(cmd := p.frame[0].cmd), p.frame[0].setup);
    }
  }

  lemma SetupSafe(latches: (bv8, bv8, bv8), storedOverride: byte, detected: byte)
    ensures Safe(Setup(latches, storedOverride, detected))
  {
    PhysicalZero(0xFF);
    PhysicalZero(storedOverride);
    PhysicalZero(detected);
  }

  lemma {:induction false} RunSafe(f: Firmware, passes: seq<Pass>)
    requires Safe(f) && forall p :: p in passes ==> PassOk(p)
    ensures Safe(Run(f, passes))
    decreases |passes|
  {
    if passes != [] {
      LoopSafe(f, passes[0]);
      RunSafe(Loop(f, passes[0]), passes[1..]);
    }
  }

  /** In every state a run from power-on can reach, the latches agree with the cache, and
      between commands every latch is 0 and the chip is deselected, whatever revision each
      configuration command selected. */
  lemma LatchesFollowCache(latches: (bv8, bv8, bv8), storedOverride: byte, detected: byte, passes: seq<Pass>)
    requires forall p :: p in passes ==> PassOk(p)
    ensures Safe(Run(Setup(latches, storedOverride, detected), passes))
  {
    SetupSafe(latches, storedOverride, detected);
    RunSafe(Setup(latches, storedOverride, detected), passes);
  }

  // ----- The firmware's own form -----

  /** The cached registers, the latches behind them and the command in progress. */
  class Board {
    var shield: Shield
    var chipEnableHigh: bool
    var cmd: byte

    ghost function State(): Firmware
      reads this
    {
      Firmware(shield, chipEnableHigh, cmd)
    }

    constructor (latches: (bv8, bv8, bv8), storedOverride: byte, detected: byte)
      ensures State() == Setup(latches, storedOverride, detected)
    {
      shield := Shield(0xFF, 0xFF, 0x00FF, latches.0, latches.1, latches.2, 0xFF, 0xFF);
      cmd := CMD_IDLE;
      chipEnableHigh := true;
      new;
      WriteToRegister(LeastSignificant, 0);
      WriteToRegister(MostSignificant, 0);
      WriteToRegister(ControlReg, 0);
      shield := shield.(overrideRevision := storedOverride);
      shield := shield.(physicalRevision := detected);
    }

    method WriteToRegister(reg: RegisterId, data: Control)
      modifies this`shield
      ensures shield == Write(old(shield), reg, data)
    {
      match reg {
        case LeastSignificant =>
          if shield.lsb == LowByte(data) {
            return;
          }
          shield := shield.(lsb := LowByte(data));
          shield := shield.(lsbLatch := LowByte(data));
        case MostSignificant =>
          if shield.msb == LowByte(data) {
            return;
          }
          shield := shield.(msb := LowByte(data));
          shield := shield.(msbLatch := LowByte(data));
        case ControlReg =>
          if shield.control == data {
            return;
          }
          shield := shield.(control := data);
          shield := shield.(controlLatch := PhysicalControl(Revision(shield), data));
      }
    }

    method FinishCommand()
      modifies this
      ensures State() == CommandDone(old(State()))
    {
      chipEnableHigh := true;
      WriteToRegister(ControlReg, 0x00);
      WriteToRegister(LeastSignificant, 0x00);
      WriteToRegister(MostSignificant, 0x00);
      cmd := CMD_IDLE;
    }

    method Perform(actions: seq<BusAction>)
      modifies this
      ensures State() == ActAll(old(State()), actions)
    {
      var rest := actions;
      while rest != []
        invariant ActAll(State(), rest) == ActAll(old(State()), actions)
        decreases |rest|
      {
        match rest[0] {
          case WriteRegister(reg, data) => WriteToRegister(reg, data);
          case SetChipEnable(high) => chipEnableHigh := high;
        }
        rest := rest[1..];
      }
    }

    method LoopOnce(p: Pass)
      modifies this
      ensures State() == Loop(old(State()), p)
    {
      if cmd != CMD_IDLE && p.expired {
        FinishCommand();
      } else if cmd == CMD_IDLE {
        if p.frame != [] {
          match p.frame[0] {
            case Refused(setup) =>
              Perform(setup);
              FinishCommand();
            case MemoryCommand(newCmd, setup) =>
              cmd := newCmd;
              Perform(setup);
            case ConfigCommand(newCmd, newOverride) =>
              cmd := newCmd;
              shield := shield.(overrideRevision := newOverride);
            case OtherCommand(newCmd) =>
              cmd := newCmd;
          }
        }
      } else {
        Perform(p.work);
        if p.finished {
          FinishCommand();
        }
      }
    }
  }
}
