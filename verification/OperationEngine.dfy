/** The INIT, MAIN and END engine: six phase bits and two flag bits in one byte, a handshake in
    front of every phase, and handlers that may fail or ask to be called again. */
module OperationEngine {
  import opened Bytes
  import opened SerialFrames
  import opened MessageParser

  const INIT: bv8 := 1
  const MAIN: bv8 := 3
  const END: bv8 := 5
  const ENDED: bv8 := 6
  const IN_PROGRESS: bv8 := 0x40
  const FLAGS: bv8 := 0xC0

  function Phase(state: bv8): bv8 {
    state & 0x3F
  }

  /** Set the phase bits and keep the flags. */
  function WithPhase(state: bv8, phase: bv8): bv8 {
    (state & FLAGS) | phase
  }

  /** Advance the phase bits by one and keep the flags. */
  function PhaseDone(state: bv8): bv8 {
    (state & FLAGS) | ((state & 0x3F) + 1)
  }

  /** Below phase 63 the increment leaves both flag bits alone, and at 63 it corrupts one. */
  lemma IncrementKeepsFlags(state: bv8)
    ensures Phase(state) != 0x3F <==> PhaseDone(state) & FLAGS == state & FLAGS && Phase(PhaseDone(state)) == Phase(state) + 1
  {
  }

  lemma SetKeepsFlags(state: bv8, phase: bv8)
    requires phase <= 0x3F
    ensures WithPhase(state, phase) & FLAGS == state & FLAGS && Phase(WithPhase(state, phase)) == phase
  {
  }

  // ----- What a run may look like -----

  /** The marks of a run: a handshake acknowledged by message number `index` of those heard, the
      phase bits set to a value, a handler called, a failure. */
  datatype Mark = Acked(index: nat) | Enter(phase: bv8) | InitHandler | MainHandler | EndHandler | Failed

  datatype Monitor = Monitor(phase: bv8, acked: bool, failed: bool, unused: nat)

  /** The marks that may follow a given past: phases only one at a time, an odd phase only on a
      fresh acknowledgement that no earlier phase used, each handler only in its own phase, and
      nothing after a failure. */
  predicate Allowed(m: Monitor, mark: Mark) {
    && !m.failed
    && match mark
       case Acked(index) => !m.acked && m.phase in {0, 2, 4} && m.unused <= index
       case Enter(p) => m.phase < 6 && p == m.phase + 1 && (m.acked <==> p in {INIT, MAIN, END})
       case InitHandler => m.phase == INIT && !m.acked
       case MainHandler => m.phase == MAIN && !m.acked
       case EndHandler => m.phase == END && !m.acked
       case Failed => true
  }

  function Observe(m: Monitor, mark: Mark): Monitor {
    match mark
    case Acked(index) => m.(acked := true, unused := index + 1)
    case Enter(p) => m.(phase := p, acked := false)
    case Failed => m.(failed := true)
    case _ => m
  }

  function After(log: seq<Mark>): Monitor
    decreases |log|
  {
    if log == [] then Monitor(0, false, false, 0) else Observe(After(log[..|log| - 1]), log[|log| - 1])
  }

  predicate Legal(log: seq<Mark>)
    decreases |log|
  {
    log == [] || (Legal(log[..|log| - 1]) && Allowed(After(log[..|log| - 1]), log[|log| - 1]))
  }

  lemma LegalAppend(log: seq<Mark>, mark: Mark)
    requires Legal(log) && Allowed(After(log), mark)
    ensures Legal(log + [mark]) && After(log + [mark]) == Observe(After(log), mark)
  {
    assert (log + [mark])[..|log|] == log;
  }

  lemma {:induction false} LegalPrefix(log: seq<Mark>, k: nat)
    requires Legal(log) && k <= |log|
    ensures Legal(log[..k])
    decreases |log|
  {
    if k < |log| {
      LegalPrefix(log[..|log| - 1], k);
      assert log[..|log| - 1][..k] == log[..k];
    } else {
      assert log[..k] == log;
    }
  }

  /** The phase in force is the last one entered. */
  lemma {:induction false} PhaseWasEntered(log: seq<Mark>, p: bv8)
    requires Legal(log) && 0 < p <= After(log).phase
    ensures Enter(p) in log
    decreases |log|
  {
    var n := |log| - 1;
    if log[n] != Enter(p) {
      PhaseWasEntered(log[..n], p);
    }
  }

  lemma {:induction false} FailedIsLast(log: seq<Mark>, k: nat)
    requires Legal(log) && k < |log| && log[k] == Failed
    ensures k == |log| - 1
    decreases |log|
  {
    var n := |log| - 1;
    if k < n {
      FailedIsLast(log[..n], k);
    }
  }

  /** Every entry to a phase follows the entry to the phase before it, and every entry to INIT,
      MAIN or END directly follows its own acknowledgement. */
  lemma EntriesInOrder(log: seq<Mark>, k: nat)
    requires Legal(log) && k < |log| && log[k].Enter?
    ensures 1 <= log[k].phase <= 6
    ensures log[k].phase > 1 ==> Enter(log[k].phase - 1) in log[..k]
    ensures log[k].phase in {INIT, MAIN, END} ==> k > 0 && log[k - 1].Acked?
  {
    LegalPrefix(log, k + 1);
    var past := log[..k];
    assert log[..k + 1][..k] == past;
    assert Allowed(After(past), log[k]);
    if log[k].phase > 1 {
      PhaseWasEntered(past, log[k].phase - 1);
    }
    if After(past).acked {
      AckIsFresh(past);
    }
  }

  lemma AckIsFresh(log: seq<Mark>)
    requires Legal(log) && After(log).acked && !After(log).failed
    ensures log != [] && log[|log| - 1].Acked?
  {
    var n := |log| - 1;
    assert Allowed(After(log[..n]), log[n]);
  }

  /** The main handler runs only between the entry to MAIN and its completion. */
  lemma MainHandlerInMain(log: seq<Mark>, k: nat)
    requires Legal(log) && k < |log| && log[k] == MainHandler
    ensures Enter(MAIN) in log[..k] && Enter(4) !in log[..k]
  {
    LegalPrefix(log, k + 1);
    var past := log[..k];
    assert log[..k + 1][..k] == past;
    PhaseWasEntered(past, MAIN);
    if Enter(4) in past {
      PhaseNeverFalls(past, 4);
    }
  }

  lemma {:induction false} PhaseNeverFalls(log: seq<Mark>, p: bv8)
    requires Legal(log) && Enter(p) in log
    ensures p <= After(log).phase <= 6
    decreases |log|
  {
    var n := |log| - 1;
    LegalPhaseBound(log[..n]);
    if log[n] != Enter(p) {
      PhaseNeverFalls(log[..n], p);
    }
  }

  lemma {:induction false} LegalPhaseBound(log: seq<Mark>)
    requires Legal(log)
    ensures After(log).phase <= 6
    decreases |log|
  {
    if log != [] {
      LegalPhaseBound(log[..|log| - 1]);
    }
  }

  /** The end handler runs only after MAIN was marked done, and never after a failure. */
  lemma EndHandlerAfterMain(log: seq<Mark>, k: nat)
    requires Legal(log) && k < |log| && log[k] == EndHandler
    ensures Enter(4) in log[..k] && Failed !in log[..k]
  {
    LegalPrefix(log, k + 1);
    var past := log[..k];
    assert log[..k + 1][..k] == past;
    PhaseWasEntered(past, 4);
    if Failed in past {
      var j :| 0 <= j < |past| && past[j] == Failed;
      assert log[..k + 1][j] == Failed;
      FailedIsLast(log[..k + 1], j);
    }
  }

  /** No two phases use the same acknowledgement, and later phases use later ones. */
  lemma {:induction false} AcksAdvance(log: seq<Mark>, j: nat, k: nat)
    requires Legal(log) && j < k < |log| && log[j].Acked? && log[k].Acked?
    ensures log[j].index < log[k].index
    decreases |log|
  {
    var n := |log| - 1;
    if k < n {
      AcksAdvance(log[..n], j, k);
    } else {
      UsedUp(log[..n], j);
    }
  }

  lemma {:induction false} UsedUp(log: seq<Mark>, j: nat)
    requires Legal(log) && j < |log| && log[j].Acked?
    ensures log[j].index < After(log).unused
    decreases |log|
  {
    if j < |log| - 1 {
      UsedUp(log[..|log| - 1], j);
    }
  }

  predicate EndsFailed(log: seq<Mark>) {
    log != [] && log[|log| - 1] == Failed
  }

  // ----- The engine on values -----

  /** A handler that is not installed, or one that ran: its verdict and the flag bits it left. */
  datatype Handler = Absent | Ran(ok: bool, flags: bv8)

  /** What the callback of the MAIN phase did: whether it called the main handler, its verdict,
      whether it marked MAIN done, the flag bits it left, and the bytes that arrived before each
      of its polls for a message. */
  datatype MainResult = MainResult(ranHandler: bool, ok: bool, done: bool, flags: bv8, polls: seq<seq<byte>>)

  /** What one call of the engine meets: the bytes that arrive before each poll of its wait, and
      the handlers. */
  datatype Call = Call(arrivals: seq<seq<byte>>, init: Handler, main: MainResult, end: Handler)

  datatype Flow = Error | Return | Continue

  /** A command so far: the state byte, the receive buffer, the bytes that arrived, the messages
      heard, whether no poll met an unfinished data frame, and the marks. */
  datatype Course = Course(
    state: bv8, rx: seq<byte>, arrived: seq<byte>, heard: seq<Message>, timely: bool, log: seq<Mark>)

  function Noted(r: Course, mark: Mark): Course {
    r.(log := r.log + [mark])
  }

  /** A series of polls has ended, and the rest of the arrivals has come in behind it. */
  function Heard(r: Course, w: Wait, arrivals: seq<seq<byte>>): Course {
    r.(rx := w.rest + Concat(w.later), arrived := r.arrived + Concat(arrivals),
       heard := r.heard + w.heard, timely := r.timely && w.timely)
  }

  /** Enter a phase on the acknowledgement just heard, or fail. */
  function Entered(r: Course, phase: bv8, ok: bool): (Course, bool)
    requires ok ==> r.heard != []
  {
    if !ok then (Noted(r, Failed), false)
    else (Noted(Noted(r, Acked(|r.heard| - 1)), Enter(phase)).(state := WithPhase(r.state, phase)), true)
  }

  /** Wait for the host's acknowledgement and enter a phase on it. */
  function Started(r: Course, phase: bv8, arrivals: seq<seq<byte>>, cap: nat): (Course, bool) {
    var w := WaitForAck(r.rx, cap, arrivals);
    Entered(Heard(r, w, arrivals), phase, w.ok)
  }

  /** Mark the current phase done. */
  function Finished(r: Course): Course {
    Noted(r.(state := PhaseDone(r.state)), Enter(Phase(PhaseDone(r.state))))
  }

  function Handled(r: Course, h: Handler, mark: Mark): (Course, Flow) {
    match h
    case Absent => (r, Continue)
    case Ran(ok, flags) =>
      var t := Noted(r, mark).(state := (flags & FLAGS) | Phase(r.state));
      if ok then (t, Return) else (Noted(t, Failed), Flow.Error)
  }

  /** The rest of an INIT or END phase, once it has been entered. */
  function HandledPhase(r: Course, h: Handler, mark: Mark): (Course, Flow) {
    var (t, flow) := Handled(r, h, mark);
    if flow.Error? then (t, Flow.Error)
    else if t.state & IN_PROGRESS == IN_PROGRESS then (t, Return)
    else (Finished(t), Continue)
  }

  function KeptPhase(r: Course, h: Handler, phase: bv8, mark: Mark, arrivals: seq<seq<byte>>, cap: nat): (Course, Flow) {
    if Phase(r.state) == phase - 1 then
      var (t, ok) := Started(r, phase, arrivals, cap);
      if ok then HandledPhase(t, h, mark) else (t, Flow.Error)
    else if Phase(r.state) == phase then HandledPhase(r, h, mark)
    else (r, Continue)
  }

  function KeptHouse(r: Course, c: Call, cap: nat): (Course, Flow) {
    if Phase(r.state) == MAIN then (r, Continue)
    else if Phase(r.state) == MAIN - 1 then
      var (t, ok) := Started(r, MAIN, c.arrivals, cap);
      (t, if ok then Continue else Flow.Error)
    else
      var (t, flow) := KeptPhase(r, c.init, INIT, InitHandler, c.arrivals, cap);
      if flow != Continue then (t, flow) else KeptPhase(t, c.end, END, EndHandler, c.arrivals, cap)
  }

  /** The MAIN phase: the callback polls, may call the handler, and may mark MAIN done. */
  function CalledBack(r: Course, m: MainResult, cap: nat): (Course, bool) {
    var t := Heard(r, Listen(r.rx, cap, m.polls), m.polls);
    var u := (if m.ranHandler then Noted(t, MainHandler) else t).(state := (m.flags & FLAGS) | Phase(r.state));
    if !m.ok then (Noted(u, Failed), false) else (if m.done then Finished(u) else u, true)
  }

  /** One call of the engine, and whether the command is finished. */
  function Called(r: Course, c: Call, cap: nat): (Course, bool) {
    if Phase(r.state) == ENDED then
      var w := Listen(r.rx, cap, [Concat(c.arrivals)]);
      (Heard(r, w, [Concat(c.arrivals)]), w.heard != [])
    else
      var (t, flow) := KeptHouse(r, c, cap);
      if flow != Continue then (t, flow.Error?)
      else if Phase(t.state) == MAIN then
        var (u, ok) := CalledBack(t, c.main, cap);
        (u, !ok)
      else (t, false)
  }

  /** The dispatcher calls the engine until it reports the command finished. */
  function Commanded(r: Course, calls: seq<Call>, cap: nat): (Course, bool)
    decreases |calls|
  {
    if calls == [] then (r, false)
    else
      var (t, finished) := Called(r, calls[0], cap);
      if finished then (t, true) else Commanded(t, calls[1..], cap)
  }

  function Begin(rx: seq<byte>): Course {
    Course(0, rx, [], [], true, [])
  }

  // ----- What every command keeps -----

  /** Every acknowledgement used was heard. */
  ghost predicate AcksHeard(log: seq<Mark>, heard: seq<Message>)
    decreases |log|
  {
    var n := |log| - 1;
    log != [] ==>
      && (log[n].Acked? ==> log[n].index < |heard| && heard[log[n].index] == Ack)
      && AcksHeard(log[..n], heard)
  }

  lemma {:induction false} AckHeardAt(log: seq<Mark>, heard: seq<Message>, k: nat)
    requires AcksHeard(log, heard) && k < |log| && log[k].Acked?
    ensures log[k].index < |heard| && heard[log[k].index] == Ack
    decreases |log|
  {
    if k < |log| - 1 {
      AckHeardAt(log[..|log| - 1], heard, k);
    }
  }

  lemma {:induction false} MoreHeard(log: seq<Mark>, heard: seq<Message>, more: seq<Message>)
    requires AcksHeard(log, heard)
    ensures AcksHeard(log, heard + more)
    decreases |log|
  {
    if log != [] {
      MoreHeard(log[..|log| - 1], heard, more);
    }
  }

  /** What was heard is the front of the stream `first` and all that arrived behind it; what is
      in the buffer, with any bytes to come, is the rest of it. */
  ghost predicate FrontHeard(r: Course, first: seq<byte>, cap: nat) {
    r.timely ==> forall future: seq<byte> ::
      Messages(first + r.arrived + future, cap) == r.heard + Messages(r.rx + future, cap)
  }

  /** The log is legal, its acknowledgements are heard ones, and what was heard is the front of
      the stream. */
  ghost predicate Sound(r: Course, first: seq<byte>, cap: nat) {
    Legal(r.log) && AcksHeard(r.log, r.heard) && FrontHeard(r, first, cap)
  }

  /** No failure so far, no acknowledgement waiting to be used, and the phase bits are the phase
      of the log. */
  predicate Running(r: Course) {
    && After(r.log) == Monitor(Phase(r.state), false, false, After(r.log).unused)
    && After(r.log).unused <= |r.heard| && Phase(r.state) <= 6
  }

  lemma NotedSound(r: Course, first: seq<byte>, cap: nat, mark: Mark)
    requires Sound(r, first, cap) && Allowed(After(r.log), mark)
    requires mark.Acked? ==> mark.index < |r.heard| && r.heard[mark.index] == Ack
    ensures Sound(Noted(r, mark), first, cap) && After(Noted(r, mark).log) == Observe(After(r.log), mark)
  {
    LegalAppend(r.log, mark);
    assert (r.log + [mark])[..|r.log|] == r.log;
  }

  lemma HeardSound(r: Course, first: seq<byte>, cap: nat, w: Wait, arrivals: seq<seq<byte>>)
    requires Sound(r, first, cap)
    requires w.timely ==> forall future: seq<byte> ::
               Messages(r.rx + Concat(arrivals) + future, cap) == w.heard + Messages(w.rest + Concat(w.later) + future, cap)
    ensures Sound(Heard(r, w, arrivals), first, cap)
  {
    MoreHeard(r.log, r.heard, w.heard);
    var t := Heard(r, w, arrivals);
    if t.timely {
      forall future: seq<byte>
        ensures Messages(first + t.arrived + future, cap) == t.heard + Messages(t.rx + future, cap)
      {
        var come := Concat(arrivals);
        assert first + (r.arrived + come) + future == first + r.arrived + (come + future);
        assert r.rx + (come + future) == r.rx + come + future;
        HeardInOrder(Messages(first + t.arrived + future, cap), r.heard, Messages(r.rx + come + future, cap),
                     w.heard, Messages(t.rx + future, cap));
      }
    }
  }

  lemma WaitSound(r: Course, first: seq<byte>, cap: nat, arrivals: seq<seq<byte>>)
    requires Sound(r, first, cap)
    ensures Sound(Heard(r, WaitForAck(r.rx, cap, arrivals), arrivals), first, cap)
  {
    var w := WaitForAck(r.rx, cap, arrivals);
    if w.timely {
      forall future: seq<byte>
        ensures Messages(r.rx + Concat(arrivals) + future, cap) == w.heard + Messages(w.rest + Concat(w.later) + future, cap)
      {
        WaitHears(r.rx, cap, arrivals, future);
      }
    }
    HeardSound(r, first, cap, w, arrivals);
  }

  lemma ListenSound(r: Course, first: seq<byte>, cap: nat, arrivals: seq<seq<byte>>)
    requires Sound(r, first, cap)
    ensures Sound(Heard(r, Listen(r.rx, cap, arrivals), arrivals), first, cap)
  {
    var w := Listen(r.rx, cap, arrivals);
    if w.timely {
      forall future: seq<byte>
        ensures Messages(r.rx + Concat(arrivals) + future, cap) == w.heard + Messages(w.rest + Concat(w.later) + future, cap)
      {
        ListenHears(r.rx, cap, arrivals, future);
        assert w.rest + [] == w.rest;
      }
    }
    HeardSound(r, first, cap, w, arrivals);
  }

  /** What a step of the engine leaves: a sound course that is running or has just failed. */
  ghost predicate Left(r: Course, first: seq<byte>, cap: nat, failed: bool) {
    Sound(r, first, cap) && if failed then EndsFailed(r.log) else Running(r)
  }

  /** The last message heard is an acknowledgement that nothing has used. */
  predicate FreshAck(r: Course) {
    r.heard != [] && r.heard[|r.heard| - 1] == Ack && After(r.log).unused < |r.heard|
  }

  /** The state byte is no part of what makes a course sound. */
  lemma StateKeepsSound(r: Course, first: seq<byte>, cap: nat, state: bv8)
    requires Sound(r, first, cap)
    ensures Sound(r.(state := state), first, cap)
  {
  }

  lemma AckNoted(r: Course, first: seq<byte>, cap: nat)
    requires Sound(r, first, cap) && Running(r) && Phase(r.state) in {0, 2, 4} && FreshAck(r)
    ensures var t := Noted(r, Acked(|r.heard| - 1));
            Sound(t, first, cap) && After(t.log) == Monitor(Phase(r.state), true, false, |r.heard|)
  {
    NotedSound(r, first, cap, Acked(|r.heard| - 1));
  }

  lemma EntryNoted(r: Course, first: seq<byte>, cap: nat, phase: bv8)
    requires Sound(r, first, cap) && phase in {INIT, MAIN, END}
    requires After(r.log) == Monitor(phase - 1, true, false, |r.heard|)
    ensures var t := Noted(r, Enter(phase));
            Sound(t, first, cap) && After(t.log) == Monitor(phase, false, false, |r.heard|)
  {
    NotedSound(r, first, cap, Enter(phase));
  }

  lemma AckEnters(r: Course, first: seq<byte>, cap: nat, phase: bv8)
    requires Sound(r, first, cap) && Running(r) && phase in {INIT, MAIN, END} && Phase(r.state) == phase - 1
    requires FreshAck(r)
    ensures var t := Entered(r, phase, true).0;
            Sound(t, first, cap) && Running(t) && Phase(t.state) == phase
  {
    AckAndEntryNoted(r, first, cap, phase);
    SetKeepsFlags(r.state, phase);
    PhaseSet(Noted(Noted(r, Acked(|r.heard| - 1)), Enter(phase)), first, cap, phase, WithPhase(r.state, phase));
  }

  lemma AckAndEntryNoted(r: Course, first: seq<byte>, cap: nat, phase: bv8)
    requires Sound(r, first, cap) && Running(r) && phase in {INIT, MAIN, END} && Phase(r.state) == phase - 1
    requires FreshAck(r)
    ensures var t := Noted(Noted(r, Acked(|r.heard| - 1)), Enter(phase));
            Sound(t, first, cap) && After(t.log) == Monitor(phase, false, false, |r.heard|)
  {
    AckNoted(r, first, cap);
    EntryNoted(Noted(r, Acked(|r.heard| - 1)), first, cap, phase);
  }

  lemma PhaseSet(r: Course, first: seq<byte>, cap: nat, phase: bv8, state: bv8)
    requires Sound(r, first, cap) && phase in {INIT, MAIN, END} && Phase(state) == phase
    requires After(r.log) == Monitor(phase, false, false, |r.heard|)
    ensures var t := r.(state := state);
            Sound(t, first, cap) && Running(t) && Phase(t.state) == phase
  {
    StateKeepsSound(r, first, cap, state);
  }

  lemma EnteredKeeps(r: Course, first: seq<byte>, cap: nat, phase: bv8, ok: bool)
    requires Sound(r, first, cap) && Running(r) && phase in {INIT, MAIN, END} && Phase(r.state) == phase - 1
    requires ok ==> FreshAck(r)
    ensures var (t, ok) := Entered(r, phase, ok);
            Left(t, first, cap, !ok) && (ok ==> Phase(t.state) == phase)
  {
    if ok {
      AckEnters(r, first, cap, phase);
    } else {
      FailureKeeps(r, first, cap);
    }
  }

  lemma WaitKeeps(r: Course, first: seq<byte>, cap: nat, arrivals: seq<seq<byte>>)
    requires Sound(r, first, cap) && Running(r)
    ensures var w := WaitForAck(r.rx, cap, arrivals);
            var t := Heard(r, w, arrivals);
            Sound(t, first, cap) && Running(t) && (w.ok ==> FreshAck(t))
  {
    WaitSound(r, first, cap, arrivals);
    if WaitForAck(r.rx, cap, arrivals).ok {
      AckIsHeard(r.rx, cap, arrivals);
    }
  }

  lemma StartedKeeps(r: Course, first: seq<byte>, cap: nat, phase: bv8, arrivals: seq<seq<byte>>)
    requires Sound(r, first, cap) && Running(r) && phase in {INIT, MAIN, END} && Phase(r.state) == phase - 1
    ensures var (t, ok) := Started(r, phase, arrivals, cap);
            Left(t, first, cap, !ok) && (ok ==> Phase(t.state) == phase)
  {
    var w := WaitForAck(r.rx, cap, arrivals);
    WaitKeeps(r, first, cap, arrivals);
    EnteredKeeps(Heard(r, w, arrivals), first, cap, phase, w.ok);
  }

  lemma FinishedKeeps(r: Course, first: seq<byte>, cap: nat)
    requires Sound(r, first, cap) && Running(r) && Phase(r.state) in {INIT, MAIN, END}
    ensures Left(Finished(r), first, cap, false) && Phase(Finished(r).state) == Phase(r.state) + 1
  {
    IncrementKeepsFlags(r.state);
    NotedSound(r, first, cap, Enter(Phase(PhaseDone(r.state))));
  }

  lemma FlagsKeepPhase(flags: bv8, state: bv8)
    ensures Phase((flags & FLAGS) | Phase(state)) == Phase(state)
  {
  }

  /** A handler may set the flag bits, and moves nothing else. */
  lemma FlagsKeep(r: Course, first: seq<byte>, cap: nat, flags: bv8)
    requires Sound(r, first, cap) && Running(r)
    ensures var t := r.(state := (flags & FLAGS) | Phase(r.state));
            Sound(t, first, cap) && Running(t) && Phase(t.state) == Phase(r.state)
  {
    FlagsKeepPhase(flags, r.state);
  }

  lemma HandlerMarkKeeps(r: Course, first: seq<byte>, cap: nat, mark: Mark, flags: bv8)
    requires Sound(r, first, cap) && Running(r) && Allowed(After(r.log), mark)
    requires mark in {InitHandler, MainHandler, EndHandler}
    ensures var t := Noted(r, mark).(state := (flags & FLAGS) | Phase(r.state));
            Sound(t, first, cap) && Running(t) && Phase(t.state) == Phase(r.state)
  {
    NotedSound(r, first, cap, mark);
    FlagsKeep(Noted(r, mark), first, cap, flags);
  }

  lemma FailureKeeps(r: Course, first: seq<byte>, cap: nat)
    requires Sound(r, first, cap) && Running(r)
    ensures Left(Noted(r, Failed), first, cap, true)
  {
    NotedSound(r, first, cap, Failed);
  }

  lemma HandledKeeps(r: Course, first: seq<byte>, cap: nat, h: Handler, mark: Mark)
    requires Sound(r, first, cap) && Running(r) && Allowed(After(r.log), mark)
    requires mark in {InitHandler, EndHandler}
    ensures var (t, flow) := Handled(r, h, mark);
            Left(t, first, cap, flow.Error?) && Phase(t.state) == Phase(r.state)
  {
    if h.Ran? {
      HandlerMarkKeeps(r, first, cap, mark, h.flags);
      if !h.ok {
        FailureKeeps(Noted(r, mark).(state := (h.flags & FLAGS) | Phase(r.state)), first, cap);
      }
    }
  }

  lemma HandledPhaseKeeps(r: Course, first: seq<byte>, cap: nat, h: Handler, mark: Mark)
    requires Sound(r, first, cap) && Running(r) && Phase(r.state) in {INIT, END}
    requires mark == if Phase(r.state) == INIT then InitHandler else EndHandler
    ensures var (t, flow) := HandledPhase(r, h, mark);
            && Left(t, first, cap, flow.Error?)
            && (flow.Return? ==> Phase(t.state) == Phase(r.state))
            && (flow.Continue? ==> Phase(t.state) == Phase(r.state) + 1)
  {
    HandledKeeps(r, first, cap, h, mark);
    var (t, flow) := Handled(r, h, mark);
    if !flow.Error? && t.state & IN_PROGRESS != IN_PROGRESS {
      FinishedKeeps(t, first, cap);
    }
  }

  lemma KeptPhaseKeeps(r: Course, first: seq<byte>, cap: nat, h: Handler, phase: bv8, mark: Mark, arrivals: seq<seq<byte>>)
    requires Sound(r, first, cap) && Running(r)
    requires (phase == INIT && mark == InitHandler) || (phase == END && mark == EndHandler)
    ensures var (t, flow) := KeptPhase(r, h, phase, mark, arrivals, cap);
            && Left(t, first, cap, flow.Error?)
            && (flow.Continue? ==> Phase(t.state) == Phase(r.state) || Phase(t.state) == phase + 1)
            && (flow.Return? ==> Phase(t.state) == phase)
  {
    if Phase(r.state) == phase - 1 {
      StartedKeeps(r, first, cap, phase, arrivals);
      var (t, ok) := Started(r, phase, arrivals, cap);
      if ok {
        HandledPhaseKeeps(t, first, cap, h, mark);
      }
    } else if Phase(r.state) == phase {
      HandledPhaseKeeps(r, first, cap, h, mark);
    }
  }

  lemma KeptHouseKeeps(r: Course, first: seq<byte>, cap: nat, c: Call)
    requires Sound(r, first, cap) && Running(r) && Phase(r.state) != ENDED
    ensures var (t, flow) := KeptHouse(r, c, cap);
            Left(t, first, cap, flow.Error?)
  {
    if Phase(r.state) == MAIN {
    } else if Phase(r.state) == MAIN - 1 {
      StartedKeeps(r, first, cap, MAIN, c.arrivals);
    } else {
      KeptPhaseKeeps(r, first, cap, c.init, INIT, InitHandler, c.arrivals);
      var (t, flow) := KeptPhase(r, c.init, INIT, InitHandler, c.arrivals, cap);
      if flow.Continue? {
        KeptPhaseKeeps(t, first, cap, c.end, END, EndHandler, c.arrivals);
      }
    }
  }

  lemma ListenKeeps(r: Course, first: seq<byte>, cap: nat, arrivals: seq<seq<byte>>)
    requires Sound(r, first, cap) && Running(r)
    ensures Left(Heard(r, Listen(r.rx, cap, arrivals), arrivals), first, cap, false)
  {
    ListenSound(r, first, cap, arrivals);
  }

  lemma CalledBackKeeps(r: Course, first: seq<byte>, cap: nat, m: MainResult)
    requires Sound(r, first, cap) && Running(r) && Phase(r.state) == MAIN
    ensures var (t, ok) := CalledBack(r, m, cap);
            Left(t, first, cap, !ok)
  {
    ListenKeeps(r, first, cap, m.polls);
    var t := Heard(r, Listen(r.rx, cap, m.polls), m.polls);
    var u := (if m.ranHandler then Noted(t, MainHandler) else t).(state := (m.flags & FLAGS) | Phase(r.state));
    if m.ranHandler {
      HandlerMarkKeeps(t, first, cap, MainHandler, m.flags);
    } else {
      FlagsKeep(t, first, cap, m.flags);
    }
    if !m.ok {
      FailureKeeps(u, first, cap);
    } else if m.done {
      FinishedKeeps(u, first, cap);
    }
  }

  lemma CalledKeeps(r: Course, first: seq<byte>, cap: nat, c: Call)
    requires Sound(r, first, cap) && Running(r)
    ensures var (t, finished) := Called(r, c, cap);
            && Left(t, first, cap, finished && Phase(r.state) != ENDED)
            && (Phase(r.state) == ENDED ==> Phase(t.state) == ENDED && t.log == r.log)
  {
    if Phase(r.state) == ENDED {
      ListenSound(r, first, cap, [Concat(c.arrivals)]);
    } else {
      KeptHouseKeeps(r, first, cap, c);
      var (t, flow) := KeptHouse(r, c, cap);
      if flow.Continue? && Phase(t.state) == MAIN {
        CalledBackKeeps(t, first, cap, c.main);
      }
    }
  }

  lemma {:induction false} CommandedKeeps(r: Course, first: seq<byte>, cap: nat, calls: seq<Call>)
    requires Sound(r, first, cap) && Running(r)
    ensures var (t, finished) := Commanded(r, calls, cap);
            && Sound(t, first, cap)
            && (!finished ==> Running(t))
            && (finished ==> EndsFailed(t.log) || (Running(t) && Phase(t.state) == ENDED))
    decreases |calls|
  {
    if calls != [] {
      CalledKeeps(r, first, cap, calls[0]);
      var (t, finished) := Called(r, calls[0], cap);
      if !finished {
        CommandedKeeps(t, first, cap, calls[1..]);
      }
    }
  }

  /** Phase safety: whatever bytes arrive and whatever the handlers do, the marks of a command
      are legal, the acknowledgements it used are messages it heard, what it heard is the front
      of the stream if no data frame stayed unfinished, and it finishes only with all three
      phases done or with a failure as its last mark. */
  lemma CommandSafe(rx: seq<byte>, calls: seq<Call>, cap: nat)
    ensures var (t, finished) := Commanded(Begin(rx), calls, cap);
            && Legal(t.log) && AcksHeard(t.log, t.heard)
            && (t.timely ==> Messages(rx + t.arrived, cap) == t.heard + Messages(t.rx, cap))
            && (finished ==> EndsFailed(t.log) || (Phase(t.state) == ENDED && Enter(ENDED) in t.log))
  {
    var (t, finished) := Commanded(Begin(rx), calls, cap);
    assert FrontHeard(Begin(rx), rx, cap) by {
      assert rx + [] == rx;
    }
    CommandedKeeps(Begin(rx), rx, cap, calls);
    if t.timely {
      assert rx + t.arrived + [] == rx + t.arrived && t.rx + [] == t.rx;
    }
    if finished && !EndsFailed(t.log) {
      PhaseWasEntered(t.log, ENDED);
    }
  }

  predicate EntersOn(log: seq<Mark>, k: nat) {
    0 < k < |log| && log[k].Enter? && log[k].phase in {INIT, MAIN, END}
  }

  /** Each entry to INIT, MAIN and END directly follows an acknowledgement of its own: a message
      that the host sent, in the order of the entries, and no message serves two of them. */
  lemma OwnAcknowledgement(rx: seq<byte>, calls: seq<Call>, cap: nat, j: nat, k: nat)
    requires var log := Commanded(Begin(rx), calls, cap).0.log;
             EntersOn(log, j) && EntersOn(log, k) && j < k
    ensures var t := Commanded(Begin(rx), calls, cap).0;
            && t.log[j - 1].Acked? && t.log[k - 1].Acked?
            && t.log[j - 1].index < t.log[k - 1].index < |t.heard|
            && t.heard[t.log[j - 1].index] == Ack && t.heard[t.log[k - 1].index] == Ack
            && (t.timely ==> t.heard <= Messages(rx + t.arrived, cap))
  {
    CommandSafe(rx, calls, cap);
    var t := Commanded(Begin(rx), calls, cap).0;
    EntryAcked(t.log, t.heard, j);
    EntryAcked(t.log, t.heard, k);
    AcksAdvance(t.log, j - 1, k - 1);
  }

  lemma EntryAcked(log: seq<Mark>, heard: seq<Message>, k: nat)
    requires Legal(log) && AcksHeard(log, heard) && EntersOn(log, k)
    ensures log[k - 1].Acked? && log[k - 1].index < |heard| && heard[log[k - 1].index] == Ack
  {
    EntriesInOrder(log, k);
    AckHeardAt(log, heard, k - 1);
  }

  // ----- A handler that leaves no mark has not run -----

  /** The log of `t` is that of `r` and more, and the mark is in what was added. */
  ghost predicate MarkedSince(r: Course, t: Course, mark: Mark) {
    r.log <= t.log && mark in t.log[|r.log|..]
  }

  lemma MarkedAcross(r: Course, s: Course, t: Course, u: Course, mark: Mark)
    requires r.log <= s.log && MarkedSince(s, t, mark) && t.log <= u.log
    ensures MarkedSince(r, u, mark)
  {
    var k :| |s.log| <= k < |t.log| && t.log[k] == mark;
    assert u.log[|r.log|..][k - |r.log|] == mark;
  }

  lemma HandledMarks(r: Course, h: Handler, mark: Mark)
    ensures r.log <= HandledPhase(r, h, mark).0.log
    ensures h.Ran? ==> MarkedSince(r, HandledPhase(r, h, mark).0, mark)
  {
    if h.Ran? {
      assert HandledPhase(r, h, mark).0.log[|r.log|] == mark;
    }
  }

  /** A call gets as far as the handler of this phase. */
  predicate Reached(r: Course, phase: bv8, arrivals: seq<seq<byte>>, cap: nat) {
    Phase(r.state) == phase || (Phase(r.state) == phase - 1 && WaitForAck(r.rx, cap, arrivals).ok)
  }

  lemma KeptPhaseMarks(r: Course, h: Handler, phase: bv8, mark: Mark, arrivals: seq<seq<byte>>, cap: nat)
    ensures var t := KeptPhase(r, h, phase, mark, arrivals, cap).0;
            r.log <= t.log && (h.Ran? && Reached(r, phase, arrivals, cap) ==> MarkedSince(r, t, mark))
  {
    if Phase(r.state) == phase - 1 {
      var (s, ok) := Started(r, phase, arrivals, cap);
      if ok {
        HandledMarks(s, h, mark);
        if h.Ran? {
          var t := HandledPhase(s, h, mark).0;
          MarkedAcross(r, s, t, t, mark);
        }
      }
    } else if Phase(r.state) == phase {
      HandledMarks(r, h, mark);
    }
  }

  lemma CalledBackMarks(r: Course, m: MainResult, cap: nat)
    ensures r.log <= CalledBack(r, m, cap).0.log
    ensures m.ranHandler ==> MarkedSince(r, CalledBack(r, m, cap).0, MainHandler)
  {
    if m.ranHandler {
      assert CalledBack(r, m, cap).0.log[|r.log|] == MainHandler;
    }
  }

  lemma CalledGrows(r: Course, c: Call, cap: nat)
    ensures r.log <= KeptHouse(r, c, cap).0.log <= Called(r, c, cap).0.log || Phase(r.state) == ENDED
  {
    if Phase(r.state) != ENDED {
      KeptPhaseMarks(r, c.init, INIT, InitHandler, c.arrivals, cap);
      var (t, flow) := KeptPhase(r, c.init, INIT, InitHandler, c.arrivals, cap);
      KeptPhaseMarks(t, c.end, END, EndHandler, c.arrivals, cap);
      CalledBackMarks(KeptHouse(r, c, cap).0, c.main, cap);
    }
  }

  /** Two calls that differ only in an INIT handler that ran, and that leave no mark of it, are
      the same call: nothing that the handler did shows. */
  lemma UnmarkedInitDidNothing(r: Course, c: Call, h: Handler, cap: nat)
    requires c.init.Ran? && h.Ran? && Phase(r.state) <= 6
    requires !MarkedSince(r, Called(r, c, cap).0, InitHandler)
    ensures Called(r, c, cap) == Called(r, c.(init := h), cap)
  {
    if Phase(r.state) in {0, INIT} && Reached(r, INIT, c.arrivals, cap) {
      KeptPhaseMarks(r, c.init, INIT, InitHandler, c.arrivals, cap);
      var (t, flow) := KeptPhase(r, c.init, INIT, InitHandler, c.arrivals, cap);
      KeptPhaseMarks(t, c.end, END, EndHandler, c.arrivals, cap);
      CalledGrows(r, c, cap);
      MarkedAcross(r, r, t, Called(r, c, cap).0, InitHandler);
    }
  }

  lemma UnmarkedEndDidNothing(r: Course, c: Call, h: Handler, cap: nat)
    requires c.end.Ran? && h.Ran? && Phase(r.state) <= 6
    requires !MarkedSince(r, Called(r, c, cap).0, EndHandler)
    ensures Called(r, c, cap) == Called(r, c.(end := h), cap)
  {
    if Phase(r.state) != ENDED && Phase(r.state) != MAIN && Phase(r.state) != 2 {
      KeptPhaseMarks(r, c.init, INIT, InitHandler, c.arrivals, cap);
      var (s, flow) := KeptPhase(r, c.init, INIT, InitHandler, c.arrivals, cap);
      if flow.Continue? && Reached(s, END, c.arrivals, cap) {
        KeptPhaseMarks(s, c.end, END, EndHandler, c.arrivals, cap);
        var t := KeptPhase(s, c.end, END, EndHandler, c.arrivals, cap).0;
        CalledGrows(r, c, cap);
        MarkedAcross(r, s, t, Called(r, c, cap).0, EndHandler);
      }
    }
  }

  lemma UnmarkedMainDidNothing(r: Course, c: Call, m: MainResult, cap: nat)
    requires c.main.ranHandler && m.ranHandler && Phase(r.state) <= 6
    requires !MarkedSince(r, Called(r, c, cap).0, MainHandler)
    ensures Called(r, c, cap) == Called(r, c.(main := m), cap)
  {
    if Phase(r.state) != ENDED {
      var (t, flow) := KeptHouse(r, c, cap);
      if flow.Continue? && Phase(t.state) == MAIN {
        CalledBackMarks(t, c.main, cap);
        CalledGrows(r, c, cap);
        var u := CalledBack(t, c.main, cap).0;
        MarkedAcross(r, t, u, u, MainHandler);
      }
    }
  }

  // ----- Progress -----

  /** The wait of the next call succeeds. */
  predicate Answered(r: Course, arrivals: seq<seq<byte>>, cap: nat) {
    WaitForAck(r.rx, cap, arrivals).ok
  }

  /** The number of the acknowledgement that the next call takes. */
  function AckTaken(r: Course, arrivals: seq<seq<byte>>, cap: nat): nat
    requires Answered(r, arrivals, cap)
  {
    |r.heard| + |WaitForAck(r.rx, cap, arrivals).heard| - 1
  }

  predicate Succeeds(h: Handler) {
    h.Ran? && h.ok && h.flags & IN_PROGRESS == 0
  }

  lemma PhaseAfterDone(flags: bv8, phase: bv8)
    requires phase < 0x3F
    ensures Phase((flags & FLAGS) | phase) == phase
    ensures Phase(PhaseDone((flags & FLAGS) | phase)) == phase + 1
    ensures ((flags & FLAGS) | phase) & IN_PROGRESS == flags & IN_PROGRESS
  {
  }

  /** Before INIT and before END, an acknowledged call enters the phase, runs its handler and, if
      that succeeds, marks the phase done. */
  lemma AckedHandlerRuns(r: Course, c: Call, cap: nat)
    requires Phase(r.state) in {0, 4} && Answered(r, c.arrivals, cap)
    requires Succeeds(if Phase(r.state) == 0 then c.init else c.end)
    ensures var p := Phase(r.state);
            var (t, finished) := Called(r, c, cap);
            && !finished && Phase(t.state) == p + 2
            && t.log == r.log + [Acked(AckTaken(r, c.arrivals, cap)), Enter(p + 1),
                                 if p == 0 then InitHandler else EndHandler, Enter(p + 2)]
  {
    var p := Phase(r.state);
    SetKeepsFlags(r.state, p + 1);
    var h, mark := if p == 0 then c.init else c.end, if p == 0 then InitHandler else EndHandler;
    PhaseAfterDone(h.flags, p + 1);
    var t := Started(r, p + 1, c.arrivals, cap).0;
    assert HandledPhase(t, h, mark) == (Finished(Noted(t, mark).(state := (h.flags & FLAGS) | (p + 1))), Continue);
  }

  /** Before MAIN, an acknowledged call enters MAIN and makes its callback in the same call; a
      callback that succeeds and marks MAIN done leaves it done. */
  lemma AckedMainRuns(r: Course, c: Call, cap: nat)
    requires Phase(r.state) == 2 && Answered(r, c.arrivals, cap)
    requires c.main.ranHandler && c.main.ok && c.main.done
    ensures var (t, finished) := Called(r, c, cap);
            && !finished && Phase(t.state) == 4
            && t.log == r.log + [Acked(AckTaken(r, c.arrivals, cap)), Enter(MAIN), MainHandler, Enter(4)]
  {
    SetKeepsFlags(r.state, MAIN);
    PhaseAfterDone(c.main.flags, MAIN);
  }

  /** In MAIN, every call makes the callback; until the callback marks MAIN done or fails, the
      command stays there. */
  lemma MainGoesOn(r: Course, c: Call, cap: nat)
    requires Phase(r.state) == MAIN && c.main.ok
    ensures var (t, finished) := Called(r, c, cap);
            && !finished && Phase(t.state) == (if c.main.done then 4 else MAIN)
            && t.log == r.log + (if c.main.ranHandler then [MainHandler] else [])
                              + (if c.main.done then [Enter(4)] else [])
  {
    PhaseAfterDone(c.main.flags, MAIN);
  }

  /** A handler that asks to be called again is: the phase stays, without another handshake. */
  lemma InProgressAgain(r: Course, c: Call, cap: nat)
    requires Phase(r.state) in {INIT, END}
    requires var h := if Phase(r.state) == INIT then c.init else c.end;
             h.Ran? && h.ok && h.flags & IN_PROGRESS != 0
    ensures var (t, finished) := Called(r, c, cap);
            && !finished && Phase(t.state) == Phase(r.state) && t.rx == r.rx
            && t.log == r.log + [if Phase(r.state) == INIT then InitHandler else EndHandler]
  {
    PhaseAfterDone((if Phase(r.state) == INIT then c.init else c.end).flags, Phase(r.state));
    OneBit((if Phase(r.state) == INIT then c.init else c.end).flags, Phase(r.state));
  }

  lemma OneBit(flags: bv8, phase: bv8)
    requires phase < 0x3F && flags & IN_PROGRESS != 0
    ensures ((flags & FLAGS) | phase) & IN_PROGRESS == IN_PROGRESS
  {
  }

  /** A wait that fails, before any phase, ends the command as failed. */
  lemma UnansweredFails(r: Course, c: Call, cap: nat)
    requires Phase(r.state) in {0, 2, 4} && !Answered(r, c.arrivals, cap)
    ensures var (t, finished) := Called(r, c, cap);
            finished && t.log == r.log + [Failed]
  {
  }

  /** A handler or a callback that fails ends the command as failed. */
  lemma FailureFinishes(r: Course, c: Call, cap: nat)
    requires || (Phase(r.state) == INIT && c.init.Ran? && !c.init.ok)
             || (Phase(r.state) == MAIN && !c.main.ok)
             || (Phase(r.state) == END && c.end.Ran? && !c.end.ok)
    ensures Called(r, c, cap).1 && EndsFailed(Called(r, c, cap).0.log)
  {
    if Phase(r.state) == INIT {
      assert KeptPhase(r, c.init, INIT, InitHandler, c.arrivals, cap).1 == Flow.Error;
    } else if Phase(r.state) == END {
      assert KeptPhase(r, c.init, INIT, InitHandler, c.arrivals, cap) == (r, Continue);
      assert KeptPhase(r, c.end, END, EndHandler, c.arrivals, cap).1 == Flow.Error;
    } else {
      assert KeptHouse(r, c, cap) == (r, Continue);
    }
  }

  lemma OnePollListens(rx: seq<byte>, cap: nat, come: seq<byte>)
    ensures Listen(rx, cap, [come]).heard != [] <==> GetMessage(rx + come, cap).Got?
  {
    assert [come][1..] == [];
    var rest := GetMessage(rx + come, cap).rest;
    assert Listen(rest, cap, []) == Wait(false, [], rest, [], true);
  }

  /** After END, the next message finishes the command, and nothing else does. */
  lemma LastMessageFinishes(r: Course, c: Call, cap: nat)
    requires Phase(r.state) == ENDED
    ensures var (t, finished) := Called(r, c, cap);
            && t.log == r.log && Phase(t.state) == ENDED
            && (finished <==> GetMessage(r.rx + Concat(c.arrivals), cap).Got?)
  {
    OnePollListens(r.rx, cap, Concat(c.arrivals));
  }

  /** A command whose waits and handlers succeed runs its three phases in four calls, each behind
      its own acknowledgement, and finishes with the fourth if that finds a message. */
  lemma CommandCompletes(r0: Course, r1: Course, r2: Course, r3: Course, calls: seq<Call>, cap: nat)
    requires |calls| == 4 && r0 == Begin(r0.rx)
    requires r1 == Called(r0, calls[0], cap).0 && r2 == Called(r1, calls[1], cap).0 && r3 == Called(r2, calls[2], cap).0
    requires Answered(r0, calls[0].arrivals, cap) && Succeeds(calls[0].init)
    requires Answered(r1, calls[1].arrivals, cap) && calls[1].main.ranHandler && calls[1].main.ok && calls[1].main.done
    requires Answered(r2, calls[2].arrivals, cap) && Succeeds(calls[2].end)
    requires GetMessage(r3.rx + Concat(calls[3].arrivals), cap).Got?
    ensures var (t, finished) := Commanded(r0, calls, cap);
            && finished && Phase(t.state) == ENDED
            && t.log == [Acked(AckTaken(r0, calls[0].arrivals, cap)), Enter(1), InitHandler, Enter(2),
                         Acked(AckTaken(r1, calls[1].arrivals, cap)), Enter(3), MainHandler, Enter(4),
                         Acked(AckTaken(r2, calls[2].arrivals, cap)), Enter(5), EndHandler, Enter(6)]
  {
    AckedHandlerRuns(r0, calls[0], cap);
    AckedMainRuns(r1, calls[1], cap);
    AckedHandlerRuns(r2, calls[2], cap);
    LastMessageFinishes(r3, calls[3], cap);
    FourCalls(r0, r1, r2, r3, calls, cap);
    ThreePhases(AckTaken(r0, calls[0].arrivals, cap), AckTaken(r1, calls[1].arrivals, cap),
                AckTaken(r2, calls[2].arrivals, cap));
  }

  lemma ThreePhases(a: nat, b: nat, c: nat)
    ensures [] + [Acked(a), Enter(1), InitHandler, Enter(2)] + [Acked(b), Enter(3), MainHandler, Enter(4)]
               + [Acked(c), Enter(5), EndHandler, Enter(6)]
         == [Acked(a), Enter(1), InitHandler, Enter(2), Acked(b), Enter(3), MainHandler, Enter(4),
             Acked(c), Enter(5), EndHandler, Enter(6)]
  {
  }

  /** A host that answers each wait with one OK, and sends one more, has its command completed:
      the k-th acknowledgement it sends opens the k-th phase. */
  lemma FourAnswers(calls: seq<Call>, cap: nat)
    requires |calls| == 4 && forall k :: 0 <= k < 4 ==> calls[k].arrivals == [OK]
    requires Succeeds(calls[0].init) && Succeeds(calls[2].end)
    requires calls[1].main.ranHandler && calls[1].main.ok && calls[1].main.done && calls[1].main.polls == []
    ensures var (t, finished) := Commanded(Begin([]), calls, cap);
            && finished && Phase(t.state) == ENDED
            && t.log == [Acked(0), Enter(1), InitHandler, Enter(2), Acked(1), Enter(3), MainHandler, Enter(4),
                         Acked(2), Enter(5), EndHandler, Enter(6)]
  {
    var r0 := Begin([]);
    var r1 := Called(r0, calls[0], cap).0;
    var r2 := Called(r1, calls[1], cap).0;
    var r3 := Called(r2, calls[2], cap).0;
    HandlerRunsOnOk(r0, calls[0], cap);
    MainRunsOnOk(r1, calls[1], cap);
    HandlerRunsOnOk(r2, calls[2], cap);
    LoneOk(cap);
    CommandCompletes(r0, r1, r2, r3, calls, cap);
  }

  lemma LoneOk(cap: nat)
    ensures Concat([OK]) == OK && [] + OK == OK && GetMessage(OK, cap) == Got(Ack, [])
    ensures WaitForAck([], cap, [OK]) == Wait(true, [Ack], [], [], true)
  {
    WordsFound([], cap);
    assert OK + [] == OK && [OK][1..] == [] && Concat([]) == [];
    NoErrorNoWait(OK, cap);
  }

  lemma HandlerRunsOnOk(r: Course, c: Call, cap: nat)
    requires Phase(r.state) in {0, 4} && r.rx == [] && c.arrivals == [OK]
    requires Succeeds(if Phase(r.state) == 0 then c.init else c.end)
    ensures var t := Called(r, c, cap).0;
            && Answered(r, c.arrivals, cap) && AckTaken(r, c.arrivals, cap) == |r.heard|
            && Phase(t.state) == Phase(r.state) + 2 && t.rx == [] && |t.heard| == |r.heard| + 1
  {
    LoneOk(cap);
    AckedHandlerRuns(r, c, cap);
    HandlerHearsWait(r, c, cap);
  }

  lemma HandlerHearsWait(r: Course, c: Call, cap: nat)
    requires Phase(r.state) in {0, 4} && Answered(r, c.arrivals, cap)
    requires Succeeds(if Phase(r.state) == 0 then c.init else c.end)
    ensures var w, t := WaitForAck(r.rx, cap, c.arrivals), Called(r, c, cap).0;
            t.rx == w.rest + Concat(w.later) && t.heard == r.heard + w.heard
  {
    var p := Phase(r.state);
    SetKeepsFlags(r.state, p + 1);
    var h := if p == 0 then c.init else c.end;
    PhaseAfterDone(h.flags, p + 1);
  }

  lemma MainRunsOnOk(r: Course, c: Call, cap: nat)
    requires Phase(r.state) == 2 && r.rx == [] && c.arrivals == [OK]
    requires c.main.ranHandler && c.main.ok && c.main.done && c.main.polls == []
    ensures var t := Called(r, c, cap).0;
            && Answered(r, c.arrivals, cap) && AckTaken(r, c.arrivals, cap) == |r.heard|
            && Phase(t.state) == 4 && t.rx == [] && |t.heard| == |r.heard| + 1
  {
    LoneOk(cap);
    AckedMainRuns(r, c, cap);
    var s := Started(r, MAIN, c.arrivals, cap).0;
    SetKeepsFlags(r.state, MAIN);
    assert Listen(s.rx, cap, []) == Wait(false, [], s.rx, [], true);
    assert Called(r, c, cap).0 == CalledBack(s, c.main, cap).0;
  }

  lemma FourCalls(r0: Course, r1: Course, r2: Course, r3: Course, calls: seq<Call>, cap: nat)
    requires |calls| == 4
    requires Called(r0, calls[0], cap) == (r1, false) && Called(r1, calls[1], cap) == (r2, false)
    requires Called(r2, calls[2], cap) == (r3, false) && Called(r3, calls[3], cap).1
    ensures Commanded(r0, calls, cap) == Called(r3, calls[3], cap)
  {
    assert calls[1..][1..] == calls[2..] && calls[2..][1..] == calls[3..];
    assert Commanded(r3, calls[3..], cap) == Called(r3, calls[3], cap);
    assert Commanded(r2, calls[2..], cap) == Commanded(r3, calls[3..], cap);
    assert Commanded(r1, calls[1..], cap) == Commanded(r2, calls[2..], cap);
  }

  // ----- The firmware's own form -----

  class Engine {
    const port: SerialPort
    const buffer: array<byte>
    var operationState: bv8
    ghost var arrived: seq<byte>
    ghost var heard: seq<Message>
    ghost var timely: bool
    ghost var log: seq<Mark>

    constructor (port: SerialPort, buffer: array<byte>)
      ensures this.port == port && this.buffer == buffer && State() == Begin(port.rx)
    {
      this.port, this.buffer := port, buffer;
      operationState, arrived, heard, timely, log := 0, [], [], true, [];
    }

    ghost function State(): Course
      reads this, port
    {
      Course(operationState, port.rx, arrived, heard, timely, log)
    }

    ghost method Note(mark: Mark)
      modifies this`log
      ensures log == old(log) + [mark]
    {
      log := log + [mark];
    }

    /** Enter a series of polls that has ended. */
    ghost method Hear(w: Wait, arrivals: seq<seq<byte>>)
      modifies this`arrived, this`heard, this`timely
      ensures arrived == old(arrived) + Concat(arrivals) && heard == old(heard) + w.heard
      ensures timely == (old(timely) && w.timely)
    {
      arrived, heard, timely := arrived + Concat(arrivals), heard + w.heard, timely && w.timely;
    }

    method StartPhase(phase: bv8, arrivals: seq<seq<byte>>) returns (ok: bool)
      modifies this, port`rx, buffer
      ensures (State(), ok) == Started(old(State()), phase, arrivals, buffer.Length)
    {
      var left;
      ghost var wait;
      ok, left, wait := OpWaitForAck(port, buffer, arrivals);
      port.Arrive(Concat(left));
      Hear(wait, arrivals);
      if !ok {
        Note(Failed);
        return;
      }
      operationState := WithPhase(operationState, phase);
      Note(Acked(|heard| - 1));
      Note(Enter(phase));
    }

    /** Mark the current phase done. */
    method FinishPhase()
      modifies this`operationState, this`log
      ensures State() == Finished(old(State()))
    {
      operationState := PhaseDone(operationState);
      Note(Enter(Phase(operationState)));
    }

    /** Call a handler if there is one. */
    method ExecuteOperation(h: Handler, ghost mark: Mark) returns (flow: Flow)
      modifies this`operationState, this`log
      ensures (State(), flow) == Handled(old(State()), h, mark)
    {
      match h {
        case Absent => return Continue;
        case Ran(ok, flags) =>
          Note(mark);
          operationState := (flags & FLAGS) | Phase(operationState);
          if !ok {
            Note(Failed);
            return Flow.Error;
          }
          return Return;
      }
    }

    /** The rest of an INIT or END phase, once it has been entered. */
    method HandlePhase(h: Handler, ghost mark: Mark) returns (flow: Flow)
      modifies this`operationState, this`log
      ensures (State(), flow) == HandledPhase(old(State()), h, mark)
    {
      var result := ExecuteOperation(h, mark);
      if result.Error? {
        return Flow.Error;
      }
      if operationState & IN_PROGRESS == IN_PROGRESS {
        return Return;
      }
      FinishPhase();
      return Continue;
    }

    method HouseKeepingPhase(h: Handler, phase: bv8, ghost mark: Mark, arrivals: seq<seq<byte>>) returns (flow: Flow)
      modifies this, port`rx, buffer
      ensures (State(), flow) == KeptPhase(old(State()), h, phase, mark, arrivals, buffer.Length)
    {
      var p := Phase(operationState);
      if p == phase - 1 || p == phase {
        if p == phase - 1 {
          var ok := StartPhase(phase, arrivals);
          if !ok {
            return Flow.Error;
          }
        }
        flow := HandlePhase(h, mark);
        return;
      }
      return Continue;
    }

    method HouseKeeping(c: Call) returns (flow: Flow)
      requires Phase(operationState) != ENDED
      modifies this, port`rx, buffer
      ensures (State(), flow) == KeptHouse(old(State()), c, buffer.Length)
    {
      var p := Phase(operationState);
      if p == MAIN {
        return Continue;
      }
      if p == MAIN - 1 {
        var ok := StartPhase(MAIN, c.arrivals);
        return if ok then Continue else Flow.Error;
      }
      flow := HouseKeepingPhase(c.init, INIT, InitHandler, c.arrivals);
      if !flow.Continue? {
        return;
      }
      flow := HouseKeepingPhase(c.end, END, EndHandler, c.arrivals);
    }

    /** The MAIN phase: what the callback did, in the order it did it. */
    method MainCallback(m: MainResult) returns (ok: bool)
      modifies this, port`rx, buffer
      ensures (State(), ok) == CalledBack(old(State()), m, buffer.Length)
    {
      var any;
      ghost var wait;
      any, wait := OpListen(port, buffer, m.polls);
      assert wait.rest + Concat(wait.later) == port.rx;
      Hear(wait, m.polls);
      if m.ranHandler {
        Note(MainHandler);
      }
      operationState := (m.flags & FLAGS) | Phase(operationState);
      if !m.ok {
        Note(Failed);
        return false;
      }
      if m.done {
        FinishPhase();
      }
      return true;
    }

    /** One call of the engine for a command that has a main handler. */
    method ExecuteStateful(c: Call) returns (finished: bool)
      modifies this, port`rx, buffer
      ensures (State(), finished) == Called(old(State()), c, buffer.Length)
    {
      if Phase(operationState) == ENDED {
        ghost var wait;
        finished, wait := OpListen(port, buffer, [Concat(c.arrivals)]);
        assert wait.rest + Concat(wait.later) == port.rx;
        Hear(wait, [Concat(c.arrivals)]);
        return;
      }
      var flow := HouseKeeping(c);
      if !flow.Continue? {
        return flow.Error?;
      }
      if Phase(operationState) == MAIN {
        var ok := MainCallback(c.main);
        return !ok;
      }
      return false;
    }

    /** A whole command: the dispatcher calls the engine until it reports the command finished.
        The marks are exactly those of the calls made, so phase safety holds of what ran. */
    method RunCommand(calls: seq<Call>) returns (finished: bool)
      requires State() == Begin(port.rx)
      modifies this, port`rx, buffer
      ensures (State(), finished) == Commanded(Begin(old(port.rx)), calls, buffer.Length)
      ensures Legal(log) && AcksHeard(log, heard)
      ensures timely ==> Messages(old(port.rx) + arrived, buffer.Length) == heard + Messages(port.rx, buffer.Length)
      ensures finished ==> EndsFailed(log) || (Phase(operationState) == ENDED && Enter(ENDED) in log)
    {
      CommandSafe(port.rx, calls, buffer.Length);
      finished := false;
      var left := calls;
      while left != [] && !finished
        invariant finished ==> (State(), true) == Commanded(Begin(old(port.rx)), calls, buffer.Length)
        invariant !finished ==>
                    Commanded(State(), left, buffer.Length) == Commanded(Begin(old(port.rx)), calls, buffer.Length)
        decreases |left|
      {
        finished := ExecuteStateful(left[0]);
        left := left[1..];
      }
    }
  }
}
