/** The USB CDC byte rings: two single-producer, single-consumer rings between the main thread
    and the USB interrupt, as a machine that interleaves single accesses of the main thread with
    whole interrupt callbacks. The device stays configured. */
module UsbRings {
  import opened Bytes
  import opened Wrappers

  const CAPACITY := 1024
  const PACKET_SIZE := 64

  function RingNext(value: nat): nat
    requires value < CAPACITY
  {
    if value + 1 == CAPACITY then 0 else value + 1
  }

  // ----- One ring -----

  datatype Ring = Ring(buf: seq<byte>, head: nat, tail: nat)

  predicate RingOk(r: Ring) {
    |r.buf| == CAPACITY && r.head < CAPACITY && r.tail < CAPACITY
  }

  const EMPTY_RING := Ring(seq(CAPACITY, i => 0), 0, 0)

  /** The bytes in the ring, oldest first. */
  function Contents(r: Ring): seq<byte>
    requires RingOk(r)
  {
    if r.tail <= r.head then r.buf[r.tail..r.head] else r.buf[r.tail..] + r.buf[..r.head]
  }

  predicate Full(r: Ring)
    requires RingOk(r)
  {
    RingNext(r.head) == r.tail
  }

  /** Store a byte in the free slot, before the head moves. */
  function Stored(r: Ring, b: byte): Ring
    requires RingOk(r)
  {
    r.(buf := r.buf[r.head := b])
  }

  function HeadMoved(r: Ring): Ring
    requires RingOk(r)
  {
    r.(head := RingNext(r.head))
  }

  function TailMoved(r: Ring): Ring
    requires RingOk(r)
  {
    r.(tail := RingNext(r.tail))
  }

  lemma StoreIsInvisible(r: Ring, b: byte)
    requires RingOk(r)
    ensures Contents(Stored(r, b)) == Contents(r) && RingOk(Stored(r, b))
  {
  }

  lemma PushAppends(r: Ring, b: byte)
    requires RingOk(r) && !Full(r) && r.buf[r.head] == b
    ensures RingOk(HeadMoved(r)) && Contents(HeadMoved(r)) == Contents(r) + [b]
  {
    if r.tail <= r.head {
      if r.head + 1 == CAPACITY {
        assert r.buf[r.tail..] == r.buf[r.tail..r.head] + [b];
        assert r.buf[..0] == [];
      } else {
        assert r.buf[r.tail..r.head + 1] == r.buf[r.tail..r.head] + [b];
      }
    } else {
      assert r.buf[..r.head + 1] == r.buf[..r.head] + [b];
    }
  }

  /** A whole push, seen from the consumer. */
  lemma PushSeenByConsumer(r: Ring, b: byte)
    requires RingOk(r) && !Full(r)
    ensures var t := HeadMoved(Stored(r, b));
            && RingOk(t) && Contents(t) == Contents(r) + [b] && t.tail == r.tail
            && (r.tail != r.head ==> t.tail != t.head && t.buf[t.tail] == r.buf[r.tail])
  {
    StoreIsInvisible(r, b);
    PushAppends(Stored(r, b), b);
  }

  lemma PopRemovesFirst(r: Ring)
    requires RingOk(r) && r.tail != r.head
    ensures RingOk(TailMoved(r))
    ensures Contents(r) == [r.buf[r.tail]] + Contents(TailMoved(r))
  {
  }

  // ----- The machine -----

  /** Where the main thread stands inside `py32_usb_read` or `py32_usb_write`. */
  datatype Main =
    | Idle
    | ReadLoad
    | ReadAdvance(value: byte)
    | WriteTest(data: seq<byte>, count: nat)
    | WriteStore(data: seq<byte>, count: nat)
    | WriteAdvance(data: seq<byte>, count: nat)
    | WriteFull(data: seq<byte>, count: nat)
    | WriteEnd(data: seq<byte>, count: nat)

  /** `inFlight` is the transfer the USB core has not completed, an empty one for a zero-length
      packet, and `returned` the count that the last write returned. The last six fields are the
      history: what was accepted from the host, read by the main thread, accepted for
      transmission and handed to the IN endpoint, whether a transfer was ever started over
      another, and how much had been accepted for transmission when the last write was called. */
  datatype Cdc = Cdc(
    rx: Ring, tx: Ring, inPacket: seq<byte>, txBusy: bool, inFlight: Option<seq<byte>>, main: Main,
    returned: nat,
    rxAccepted: seq<byte>, rxRead: seq<byte>, txAccepted: seq<byte>, wire: seq<seq<byte>>, overrun: bool,
    writeStart: nat)

  const START := Cdc(EMPTY_RING, EMPTY_RING, seq(PACKET_SIZE, i => 0), false, None, Idle, 0, [], [], [], [], false, 0)

  /** Start an IN transfer. */
  function StartWrite(s: Cdc, packet: seq<byte>): Cdc {
    s.(inFlight := Some(packet), wire := s.wire + [packet], overrun := s.overrun || s.inFlight.Some?)
  }

  /** Move bytes from the ring into a packet until one of them ends. */
  function TakePacket(r: Ring, packet: seq<byte>): (Ring, seq<byte>)
    requires RingOk(r)
    decreases PACKET_SIZE - |packet|
  {
    if |packet| < PACKET_SIZE && r.tail != r.head then TakePacket(TailMoved(r), packet + [r.buf[r.tail]])
    else (r, packet)
  }

  lemma TakePacketStep(r: Ring, packet: seq<byte>)
    requires RingOk(r) && |packet| < PACKET_SIZE && r.tail != r.head
    ensures TakePacket(r, packet) == TakePacket(TailMoved(r), packet + [r.buf[r.tail]])
  {
  }

  function StartNextTransmit(s: Cdc): Cdc
    requires RingOk(s.tx) && |s.inPacket| == PACKET_SIZE
  {
    if s.txBusy || s.tx.head == s.tx.tail then s
    else
      var (tx, packet) := TakePacket(s.tx, []);
      var inPacket := if |packet| <= PACKET_SIZE then packet + s.inPacket[|packet|..] else s.inPacket;
      StartWrite(s.(tx := tx, inPacket := inPacket, txBusy := true), packet)
  }

  /** The OUT callback: store what fits and drop the rest of the packet. */
  function Receive(r: Ring, packet: seq<byte>): (Ring, nat)
    requires RingOk(r)
    decreases |packet|
  {
    if packet == [] || Full(r) then (r, 0)
    else
      var (r', n) := Receive(HeadMoved(Stored(r, packet[0])), packet[1..]);
      (r', n + 1)
  }

  function BulkOut(s: Cdc, packet: seq<byte>): Cdc
    requires RingOk(s.rx)
  {
    var (rx, n) := Receive(s.rx, packet);
    s.(rx := rx, rxAccepted := s.rxAccepted + if n <= |packet| then packet[..n] else [])
  }

  /** The IN callback for a completed transfer of `byteCount` bytes. */
  function BulkIn(s: Cdc, byteCount: nat): Cdc
    requires RingOk(s.tx) && |s.inPacket| == PACKET_SIZE
  {
    if byteCount != 0 && byteCount % PACKET_SIZE == 0 then StartWrite(s, [])
    else StartNextTransmit(s.(txBusy := false))
  }

  /** One access of the main thread. `expired` is what its next look at the clock says. */
  function MainStep(s: Cdc, expired: bool): Cdc
    requires RingOk(s.rx) && RingOk(s.tx) && |s.inPacket| == PACKET_SIZE
  {
    match s.main
    case Idle => s
    case ReadLoad => s.(main := ReadAdvance(s.rx.buf[s.rx.tail]))
    case ReadAdvance(value) => s.(rx := TailMoved(s.rx), rxRead := s.rxRead + [value], main := Idle)
    case WriteTest(data, count) =>
      if count >= |data| then s.(main := WriteEnd(data, count))
      else if Full(s.tx) then s.(main := WriteFull(data, count))
      else s.(main := WriteStore(data, count))
    case WriteStore(data, count) =>
      if count < |data| then s.(tx := Stored(s.tx, data[count]), main := WriteAdvance(data, count)) else s
    case WriteAdvance(data, count) =>
      if count < |data| then
        s.(tx := HeadMoved(s.tx), txAccepted := s.txAccepted + [data[count]], main := WriteTest(data, count + 1))
      else s
    case WriteFull(data, count) =>
      StartNextTransmit(s).(main := if expired then WriteEnd(data, count) else WriteTest(data, count))
    case WriteEnd(data, count) => StartNextTransmit(s).(main := Idle, returned := count)
  }

  datatype Event =
    | HostSends(packet: seq<byte>)
    | TransferDone
    | CallRead
    | CallWrite(data: seq<byte>)
    | MainRuns(expired: bool)

  /** One step of the machine. An event that cannot happen now changes nothing. */
  function Step(s: Cdc, e: Event): Cdc
    requires RingOk(s.rx) && RingOk(s.tx) && |s.inPacket| == PACKET_SIZE
  {
    match e
    case HostSends(packet) => BulkOut(s, packet)
    case TransferDone => if s.inFlight.Some? then BulkIn(s.(inFlight := None), |s.inFlight.value|) else s
    case CallRead => if s.main.Idle? && s.rx.tail != s.rx.head then s.(main := ReadLoad) else s
    case CallWrite(data) => if s.main.Idle? then s.(main := WriteTest(data, 0), writeStart := |s.txAccepted|) else s
    case MainRuns(expired) => MainStep(s, expired)
  }

  // ----- The invariant -----

  function Flatten(packets: seq<seq<byte>>): seq<byte>
    decreases |packets|
  {
    if packets == [] then [] else Flatten(packets[..|packets| - 1]) + packets[|packets| - 1]
  }

  predicate Shapes(s: Cdc) {
    RingOk(s.rx) && RingOk(s.tx) && |s.inPacket| == PACKET_SIZE
  }

  /** Every full packet but the last is followed by a zero-length one, and a zero-length packet
      follows nothing else. */
  predicate FullPacketsClosed(wire: seq<seq<byte>>) {
    && (forall k :: 0 <= k < |wire| ==> |wire[k]| <= PACKET_SIZE)
    && (forall k :: 0 < k < |wire| ==> (|wire[k - 1]| == PACKET_SIZE <==> wire[k] == []))
    && (wire != [] ==> wire[0] != [])
  }

  /** What is on the wire agrees with what the core still carries. */
  predicate WireOk(s: Cdc) {
    && FullPacketsClosed(s.wire)
    && (s.txBusy <==> s.inFlight.Some?)
    && !s.overrun
    && match s.inFlight
       case Some(packet) =>
         s.wire != [] && packet == s.wire[|s.wire| - 1] && |packet| <= |s.inPacket| && s.inPacket[..|packet|] == packet
       case None => s.wire != [] ==> |s.wire[|s.wire| - 1]| < PACKET_SIZE
  }

  /** What the main thread may rely on between two of its accesses. */
  predicate MainOk(s: Cdc)
    requires Shapes(s)
  {
    match s.main
    case ReadLoad => s.rx.tail != s.rx.head
    case ReadAdvance(value) => s.rx.tail != s.rx.head && s.rx.buf[s.rx.tail] == value
    case WriteTest(data, count) => count <= |data|
    case WriteStore(data, count) => count < |data| && !Full(s.tx)
    case WriteAdvance(data, count) => count < |data| && !Full(s.tx) && s.tx.buf[s.tx.head] == data[count]
    case WriteFull(data, count) => count < |data|
    case _ => true
  }

  /** Bytes read, then bytes still in the ring, are the bytes accepted from the host. */
  predicate RxConserved(s: Cdc) {
    RingOk(s.rx) && Conserved(s.rxRead, s.rx, s.rxAccepted)
  }

  /** What has left a ring, then what is in it, is what went in. */
  predicate Conserved(gone: seq<byte>, r: Ring, accepted: seq<byte>)
    requires RingOk(r)
  {
    gone + Contents(r) == accepted
  }

  /** Bytes handed to the endpoint, then bytes still in the ring, are the bytes accepted for
      transmission. */
  predicate TxConserved(s: Cdc) {
    RingOk(s.tx) && |s.inPacket| == PACKET_SIZE && Conserved(Flatten(s.wire), s.tx, s.txAccepted)
  }

  /** Outside a write, a non-empty transmit ring has a transfer in flight. */
  predicate NeverStalled(s: Cdc) {
    (s.main.Idle? || s.main.ReadLoad? || s.main.ReadAdvance?) && s.tx.head != s.tx.tail ==> s.txBusy
  }

  /** No byte is lost, reordered or repeated in either direction. */
  predicate Safe(s: Cdc) {
    RxConserved(s) && TxConserved(s) && WireOk(s) && MainOk(s) && NeverStalled(s)
  }

  lemma MoveAcross(packet: seq<byte>, b: byte, rest: seq<byte>)
    ensures packet + ([b] + rest) == packet + [b] + rest
  {
  }

  lemma {:induction false} TakePacketSplits(r: Ring, packet: seq<byte>)
    requires RingOk(r) && |packet| <= PACKET_SIZE
    ensures var (r', packet') := TakePacket(r, packet);
            && RingOk(r') && r'.buf == r.buf && r'.head == r.head
            && |packet| <= |packet'| <= PACKET_SIZE
            && packet + Contents(r) == packet' + Contents(r')
            && (r.tail != r.head && |packet| < PACKET_SIZE ==> packet' != [])
            && (|packet'| == PACKET_SIZE || Contents(r') == [])
    decreases PACKET_SIZE - |packet|
  {
    if |packet| < PACKET_SIZE && r.tail != r.head {
      PopRemovesFirst(r);
      TakePacketSplits(TailMoved(r), packet + [r.buf[r.tail]]);
      MoveAcross(packet, r.buf[r.tail], Contents(TailMoved(r)));
    }
  }

  lemma FrontGrowsByOne(packet: seq<byte>, n: nat)
    requires n < |packet|
    ensures packet[..n + 1] == [packet[0]] + packet[1..][..n]
  {
  }

  lemma {:induction false} ReceiveAppends(r: Ring, packet: seq<byte>)
    requires RingOk(r)
    ensures var (r', n) := Receive(r, packet);
            && RingOk(r') && n <= |packet| && r'.tail == r.tail
            && Contents(r') == Contents(r) + packet[..n]
            && (n < |packet| ==> Full(r'))
            && (r.tail != r.head ==> r'.tail != r'.head && r'.buf[r'.tail] == r.buf[r.tail])
    decreases |packet|
  {
    if packet != [] && !Full(r) {
      PushSeenByConsumer(r, packet[0]);
      var pushed := HeadMoved(Stored(r, packet[0]));
      var n := Receive(pushed, packet[1..]).1;
      ReceiveAppends(pushed, packet[1..]);
      FrontGrowsByOne(packet, n);
      MoveAcross(Contents(r), packet[0], packet[1..][..n]);
    }
  }

  /** The count that `py32_usb_available` forms from a head and a tail. */
  function Available(head: nat, tail: nat): int {
    if head >= tail then head - tail else CAPACITY - tail + head
  }

  /** The head is read before the tail, so a packet that arrives in between makes the count too
      small and never too large. */
  lemma AvailableNeverOverstates(r: Ring, packet: seq<byte>)
    requires RingOk(r)
    ensures var r' := Receive(r, packet).0;
            RingOk(r') && Available(r.head, r'.tail) == |Contents(r)| <= |Contents(r')|
  {
    ReceiveAppends(r, packet);
  }

  lemma FlattenAppend(wire: seq<seq<byte>>, packet: seq<byte>)
    ensures Flatten(wire + [packet]) == Flatten(wire) + packet
  {
    assert (wire + [packet])[..|wire|] == wire;
  }

  /** Starting a transfer when none is in flight: an empty one right behind a full packet, and
      a non-empty one otherwise. */
  lemma StartWriteKeepsWire(s: Cdc, packet: seq<byte>)
    requires FullPacketsClosed(s.wire) && !s.overrun && s.inFlight.None? && s.txBusy
    requires |packet| <= PACKET_SIZE == |s.inPacket| && s.inPacket[..|packet|] == packet
    requires packet == [] <==> s.wire != [] && |s.wire[|s.wire| - 1]| == PACKET_SIZE
    ensures WireOk(StartWrite(s, packet))
  {
    var w := s.wire + [packet];
    assert forall k :: 0 <= k < |s.wire| ==> w[k] == s.wire[k];
  }

  lemma SplitConserved(sent: seq<byte>, before: seq<byte>, packet: seq<byte>, after: seq<byte>)
    requires [] + before == packet + after
    ensures sent + before == sent + packet + after
  {
    assert before == packet + after;
  }

  lemma TransmitConserves(s: Cdc)
    requires TxConserved(s)
    ensures TxConserved(StartNextTransmit(s))
  {
    if !s.txBusy && s.tx.head != s.tx.tail {
      TakePacketSplits(s.tx, []);
      var (tx, packet) := TakePacket(s.tx, []);
      FlattenAppend(s.wire, packet);
      SplitConserved(Flatten(s.wire), Contents(s.tx), packet, Contents(tx));
    }
  }

  lemma TransmitKeepsWire(s: Cdc)
    requires RingOk(s.tx) && |s.inPacket| == PACKET_SIZE && WireOk(s)
    ensures WireOk(StartNextTransmit(s))
    ensures StartNextTransmit(s).tx.head != StartNextTransmit(s).tx.tail ==> StartNextTransmit(s).txBusy
  {
    if !s.txBusy && s.tx.head != s.tx.tail {
      TakePacketSplits(s.tx, []);
      var (tx, packet) := TakePacket(s.tx, []);
      var inPacket := packet + s.inPacket[|packet|..];
      StartWriteKeepsWire(s.(tx := tx, inPacket := inPacket, txBusy := true), packet);
    }
  }

  /** Taking a packet out frees room and moves nothing that the main thread holds. */
  lemma TransmitKeepsMain(s: Cdc)
    requires Shapes(s) && MainOk(s)
    ensures var t := StartNextTransmit(s);
            Shapes(t) && MainOk(t) && t.rx == s.rx && t.rxRead == s.rxRead && t.rxAccepted == s.rxAccepted
  {
    if !s.txBusy && s.tx.head != s.tx.tail {
      TakePacketSplits(s.tx, []);
      TakePacketFrees(s.tx, []);
    }
  }

  lemma {:induction false} TakePacketFrees(r: Ring, packet: seq<byte>)
    requires RingOk(r)
    ensures RingOk(TakePacket(r, packet).0)
    ensures !Full(r) ==> !Full(TakePacket(r, packet).0)
    decreases PACKET_SIZE - |packet|
  {
    if |packet| < PACKET_SIZE && r.tail != r.head {
      TakePacketFrees(TailMoved(r), packet + [r.buf[r.tail]]);
    }
  }

  /** Behind a full packet comes the zero-length one. */
  lemma ZeroLengthSafe(s: Cdc)
    requires Safe(s) && s.inFlight.Some? && |s.inFlight.value| == PACKET_SIZE
    ensures Safe(StartWrite(s.(inFlight := None), []))
  {
    FlattenAppend(s.wire, []);
    assert Flatten(s.wire) + [] == Flatten(s.wire);
    StartWriteKeepsWire(s.(inFlight := None), []);
  }

  /** Behind any other packet comes the next one, if there is anything to send. */
  lemma NextPacketSafe(s: Cdc)
    requires Safe(s) && s.inFlight.Some? && |s.inFlight.value| != PACKET_SIZE
    ensures Safe(StartNextTransmit(s.(inFlight := None, txBusy := false)))
  {
    var free := s.(inFlight := None, txBusy := false);
    TransmitConserves(free);
    TransmitKeepsWire(free);
    TransmitKeepsMain(free);
  }

  lemma TransferDoneSafe(s: Cdc)
    requires Safe(s)
    ensures Safe(Step(s, TransferDone))
  {
    if s.inFlight.Some? {
      var n := |s.inFlight.value|;
      assert n <= PACKET_SIZE;
      assert n != 0 && n % PACKET_SIZE == 0 <==> n == PACKET_SIZE;
      if n == PACKET_SIZE {
        ZeroLengthSafe(s);
      } else {
        NextPacketSafe(s);
      }
    }
  }

  lemma JoinAcross(gone: seq<byte>, waiting: seq<byte>, more: seq<byte>)
    ensures gone + (waiting + more) == gone + waiting + more
  {
  }

  /** A packet goes behind what is in the receive ring, and moves nothing else. */
  lemma BulkOutConserves(s: Cdc, packet: seq<byte>)
    requires RxConserved(s)
    ensures RxConserved(BulkOut(s, packet))
  {
    ReceiveAppends(s.rx, packet);
    JoinAcross(s.rxRead, Contents(s.rx), packet[..Receive(s.rx, packet).1]);
  }

  lemma BulkOutKeepsMain(s: Cdc, packet: seq<byte>)
    requires Shapes(s) && MainOk(s)
    ensures var t := BulkOut(s, packet);
            Shapes(t) && MainOk(t) && t.tx == s.tx && t.main == s.main && t.txBusy == s.txBusy
  {
    ReceiveAppends(s.rx, packet);
  }

  lemma HostSendsSafe(s: Cdc, packet: seq<byte>)
    requires Safe(s)
    ensures Safe(Step(s, HostSends(packet)))
  {
    BulkOutConserves(s, packet);
    BulkOutKeepsMain(s, packet);
  }

  lemma ReadStepSafe(s: Cdc)
    requires Safe(s) && (s.main.ReadLoad? || s.main.ReadAdvance?)
    ensures Safe(MainStep(s, false))
  {
    if s.main.ReadAdvance? {
      PopRemovesFirst(s.rx);
      assert s.rxRead + [s.main.value] + Contents(TailMoved(s.rx)) == s.rxRead + Contents(s.rx);
    }
  }

  /** Moving the main thread alone moves no byte. */
  lemma OnlyMainMoves(s: Cdc, main: Main)
    requires RxConserved(s) && TxConserved(s) && WireOk(s)
    ensures var t := s.(main := main);
            RxConserved(t) && TxConserved(t) && WireOk(t)
  {
  }

  lemma WriteTestSafe(s: Cdc)
    requires Safe(s) && s.main.WriteTest?
    ensures Safe(MainStep(s, false))
  {
    OnlyMainMoves(s, MainStep(s, false).main);
  }

  lemma WriteStoreSafe(s: Cdc)
    requires Safe(s) && s.main.WriteStore?
    ensures Safe(MainStep(s, false))
  {
    StoreIsInvisible(s.tx, s.main.data[s.main.count]);
  }

  lemma WriteAdvanceSafe(s: Cdc)
    requires Safe(s) && s.main.WriteAdvance?
    ensures Safe(MainStep(s, false))
  {
    var b := s.main.data[s.main.count];
    PushAppends(s.tx, b);
    AppendAcross(Flatten(s.wire), Contents(s.tx), b);
  }

  lemma AppendAcross(sent: seq<byte>, waiting: seq<byte>, b: byte)
    ensures sent + (waiting + [b]) == sent + waiting + [b]
  {
  }

  lemma WriteTransmitSafe(s: Cdc, expired: bool)
    requires Safe(s) && (s.main.WriteFull? || s.main.WriteEnd?)
    ensures Safe(MainStep(s, expired))
  {
    TransmitConserves(s);
    TransmitKeepsWire(s);
    TransmitKeepsMain(s);
  }

  lemma MainStepSafe(s: Cdc, expired: bool)
    requires Safe(s)
    ensures Safe(MainStep(s, expired))
  {
    if s.main.ReadLoad? || s.main.ReadAdvance? {
      ReadStepSafe(s);
    } else if s.main.WriteTest? {
      WriteTestSafe(s);
    } else if s.main.WriteStore? {
      WriteStoreSafe(s);
    } else if s.main.WriteAdvance? {
      WriteAdvanceSafe(s);
    } else if s.main.WriteFull? || s.main.WriteEnd? {
      WriteTransmitSafe(s, expired);
    }
  }

  lemma StepSafe(s: Cdc, e: Event)
    requires Safe(s)
    ensures Safe(Step(s, e))
  {
    match e
    case HostSends(packet) => HostSendsSafe(s, packet);
    case TransferDone => TransferDoneSafe(s);
    case CallRead =>
    case CallWrite(data) =>
    case MainRuns(expired) => MainStepSafe(s, expired);
  }

  /** Any interleaving. */
  ghost predicate Reaches(s: Cdc, events: seq<Event>, t: Cdc)
    decreases |events|
  {
    if events == [] then s == t else Shapes(s) && Reaches(Step(s, events[0]), events[1..], t)
  }

  lemma {:induction false} ReachableSafe(s: Cdc, events: seq<Event>, t: Cdc)
    requires Safe(s) && Reaches(s, events, t)
    ensures Safe(t)
    decreases |events|
  {
    if events != [] {
      StepSafe(s, events[0]);
      ReachableSafe(Step(s, events[0]), events[1..], t);
    }
  }

  /** In every interleaving from start-up the machine is safe, and no access falls outside a
      ring. */
  lemma EveryInterleaving(events: seq<Event>, t: Cdc)
    requires Reaches(START, events, t)
    ensures Safe(t)
  {
    StartSafe();
    ReachableSafe(START, events, t);
  }

  /** Every list of events is an interleaving: the machine never gets stuck. */
  lemma {:induction false} EveryListRuns(s: Cdc, events: seq<Event>) returns (t: Cdc)
    requires Safe(s)
    ensures Reaches(s, events, t)
    decreases |events|
  {
    if events == [] {
      t := s;
    } else {
      StepSafe(s, events[0]);
      t := EveryListRuns(Step(s, events[0]), events[1..]);
    }
  }

  lemma StartSafe()
    ensures Safe(START) && Counted(START)
  {
    assert Contents(EMPTY_RING) == [];
  }

  lemma FromStart(events: seq<Event>, s: Cdc)
    requires Reaches(START, events, s)
    ensures Safe(s) && Counted(s)
  {
    StartSafe();
    ReachableCounted(START, events, s);
  }

  // ----- What a write returns -----

  /** While a write runs, what has been accepted since its call is the front of its data, as
      long as its count says. */
  ghost predicate Counted(s: Cdc) {
    && s.writeStart <= |s.txAccepted|
    && match s.main
       case WriteTest(data, count) => FrontAccepted(s, data, count)
       case WriteStore(data, count) => FrontAccepted(s, data, count)
       case WriteAdvance(data, count) => FrontAccepted(s, data, count)
       case WriteFull(data, count) => FrontAccepted(s, data, count)
       case WriteEnd(data, count) => FrontAccepted(s, data, count)
       case _ => true
  }

  ghost predicate FrontAccepted(s: Cdc, data: seq<byte>, count: nat)
    requires s.writeStart <= |s.txAccepted|
  {
    count <= |data| && s.txAccepted[s.writeStart..] == data[..count]
  }

  lemma FrontGrows(accepted: seq<byte>, from: nat, data: seq<byte>, count: nat)
    requires from <= |accepted| && count < |data| && accepted[from..] == data[..count]
    ensures (accepted + [data[count]])[from..] == data[..count + 1]
  {
  }

  lemma TransmitKeepsAccepted(s: Cdc)
    requires Shapes(s)
    ensures StartNextTransmit(s).txAccepted == s.txAccepted && StartNextTransmit(s).writeStart == s.writeStart
    ensures StartNextTransmit(s).main == s.main
  {
  }

  lemma MainStepCounted(s: Cdc, expired: bool)
    requires Safe(s) && Counted(s)
    ensures Counted(MainStep(s, expired)) && s.txAccepted <= MainStep(s, expired).txAccepted
  {
    if s.main.WriteAdvance? {
      FrontGrows(s.txAccepted, s.writeStart, s.main.data, s.main.count);
    } else if s.main.WriteFull? || s.main.WriteEnd? {
      TransmitKeepsAccepted(s);
    }
  }

  lemma StepCounted(s: Cdc, e: Event)
    requires Safe(s) && Counted(s)
    ensures Counted(Step(s, e)) && s.txAccepted <= Step(s, e).txAccepted
  {
    match e
    case HostSends(packet) =>
    case TransferDone =>
      if s.inFlight.Some? {
        TransmitKeepsAccepted(s.(inFlight := None, txBusy := false));
      }
    case CallRead =>
    case CallWrite(data) =>
    case MainRuns(expired) => MainStepCounted(s, expired);
  }

  lemma {:induction false} ReachableCounted(s: Cdc, events: seq<Event>, t: Cdc)
    requires Safe(s) && Counted(s) && Reaches(s, events, t)
    ensures Safe(t) && Counted(t) && s.txAccepted <= t.txAccepted
    decreases |events|
  {
    if events != [] {
      StepSafe(s, events[0]);
      StepCounted(s, events[0]);
      ReachableCounted(Step(s, events[0]), events[1..], t);
    }
  }

  /** Until a step of the main thread ends it, a write stays the same write. */
  ghost predicate SameWrite(s: Cdc, t: Cdc) {
    Writing(s) && Writing(t) && s.main.data == t.main.data && s.writeStart == t.writeStart
  }

  predicate Writing(s: Cdc) {
    s.main.WriteTest? || s.main.WriteStore? || s.main.WriteAdvance? || s.main.WriteFull? || s.main.WriteEnd?
  }

  lemma WriteGoesOn(s: Cdc, e: Event)
    requires Safe(s) && Writing(s)
    ensures SameWrite(s, Step(s, e)) || (s.main.WriteEnd? && e.MainRuns?)
  {
    match e
    case HostSends(packet) =>
    case TransferDone =>
      if s.inFlight.Some? {
        TransmitKeepsAccepted(s.(inFlight := None, txBusy := false));
      }
    case CallRead =>
    case CallWrite(data) =>
    case MainRuns(expired) =>
      TransmitKeepsAccepted(s);
  }

  /** What the last step of a write leaves. */
  ghost predicate Returned(s: Cdc, t: Cdc)
    requires s.main.WriteEnd? && s.writeStart <= |t.txAccepted|
  {
    && t.main.Idle? && t.returned <= |s.main.data|
    && t.txAccepted[s.writeStart..] == s.main.data[..t.returned]
  }

  lemma LastStepReturns(s: Cdc, expired: bool)
    requires Shapes(s) && Counted(s) && s.main.WriteEnd?
    ensures var t := MainStep(s, expired);
            s.writeStart <= |t.txAccepted| && Returned(s, t)
  {
    TransmitKeepsAccepted(s);
  }

  /** In every interleaving, when a write returns, the count it returns is the number of bytes
      accepted for transmission since its call, and they are the first bytes of its data. */
  lemma WriteReturnsAccepted(events: seq<Event>, s: Cdc, expired: bool)
    requires Reaches(START, events, s) && s.main.WriteEnd?
    ensures Shapes(s)
    ensures var t := Step(s, MainRuns(expired));
            s.writeStart <= |t.txAccepted| && Returned(s, t)
  {
    FromStart(events, s);
    LastStepReturns(s, expired);
  }

  // ----- A write accepts everything -----

  /** A write stands at its end only with all of its data accepted. */
  ghost predicate EndsWhole(s: Cdc) {
    s.main.WriteEnd? ==> s.main.count == |s.main.data|
  }

  /** The main thread looks at the clock with the ring full, and its time is up. */
  predicate GivesUp(s: Cdc, e: Event) {
    s.main.WriteFull? && e == MainRuns(true)
  }

  /** Nothing but an expired clock on a full ring ends a write early. */
  lemma StepEndsWhole(s: Cdc, e: Event)
    requires Safe(s) && EndsWhole(s) && !GivesUp(s, e)
    ensures EndsWhole(Step(s, e))
  {
    match e
    case HostSends(packet) =>
    case TransferDone =>
      if s.inFlight.Some? {
        TransmitKeepsAccepted(s.(inFlight := None, txBusy := false));
      }
    case CallRead =>
    case CallWrite(data) =>
    case MainRuns(expired) =>
      TransmitKeepsAccepted(s);
  }

  /** With time left, a full ring leaves the write running at the same byte. */
  lemma FullRingWaits(s: Cdc)
    requires Safe(s) && s.main.WriteFull?
    ensures MainStep(s, false).main == WriteTest(s.main.data, s.main.count)
    ensures MainStep(s, false).txAccepted == s.txAccepted
  {
    TransmitKeepsAccepted(s);
  }

  ghost predicate NeverGivesUp(s: Cdc, events: seq<Event>)
    decreases |events|
  {
    events == []
    || (Shapes(s) && !GivesUp(s, events[0]) && NeverGivesUp(Step(s, events[0]), events[1..]))
  }

  lemma {:induction false} ReachableEndsWhole(s: Cdc, events: seq<Event>, t: Cdc)
    requires Safe(s) && EndsWhole(s) && Reaches(s, events, t) && NeverGivesUp(s, events)
    ensures EndsWhole(t)
    decreases |events|
  {
    if events != [] {
      StepSafe(s, events[0]);
      StepEndsWhole(s, events[0]);
      ReachableEndsWhole(Step(s, events[0]), events[1..], t);
    }
  }

  /** The last access of a write that has accepted everything since its call. */
  lemma WholeWriteReturns(s: Cdc, call: Cdc, t: Cdc, expired: bool)
    requires Safe(t) && Counted(t) && EndsWhole(t) && t.main.WriteEnd? && SameWrite(call, t)
    requires s.txAccepted <= t.txAccepted && call.writeStart == |s.txAccepted|
    ensures var u := MainStep(t, expired);
            u.main.Idle? && u.returned == |call.main.data| && u.txAccepted == s.txAccepted + call.main.data
  {
    TransmitKeepsAccepted(t);
    FrontAndRest(s.txAccepted, t.txAccepted, t.main.data);
  }

  /** In every interleaving, a write that never finds the ring full with its time up returns the
      length of its data, and all of it has been accepted for transmission. */
  lemma WholeWriteAccepted(before: seq<Event>, s: Cdc, data: seq<byte>, during: seq<Event>, t: Cdc, expired: bool)
    requires Reaches(START, before, s) && s.main.Idle?
    requires Shapes(s) && Reaches(Step(s, CallWrite(data)), during, t)
    requires NeverGivesUp(Step(s, CallWrite(data)), during) && SameWrite(Step(s, CallWrite(data)), t) && t.main.WriteEnd?
    ensures Shapes(t)
    ensures var u := Step(t, MainRuns(expired));
            u.main.Idle? && u.returned == |data| && u.txAccepted == s.txAccepted + data
  {
    FromStart(before, s);
    var call := Step(s, CallWrite(data));
    StepSafe(s, CallWrite(data));
    StepCounted(s, CallWrite(data));
    ReachableEndsWhole(call, during, t);
    ReachableCounted(call, during, t);
    WholeWriteReturns(s, call, t, expired);
  }

  lemma FrontAndRest(front: seq<byte>, all: seq<byte>, rest: seq<byte>)
    requires front <= all && all[|front|..] == rest[..|rest|]
    ensures all == front + rest
  {
  }

  lemma FullIff(r: Ring)
    requires RingOk(r)
    ensures |Contents(r)| < CAPACITY && (Full(r) <==> |Contents(r)| == CAPACITY - 1)
  {
  }

  /** A write that the room left in the ring can hold. */
  ghost predicate Roomy(s: Cdc) {
    && Safe(s) && Writing(s) && !s.main.WriteFull? && s.main.count <= |s.main.data|
    && (s.main.WriteEnd? ==> s.main.count == |s.main.data|)
    && |Contents(s.tx)| + (|s.main.data| - s.main.count) < CAPACITY
  }

  /** The accesses of the main thread until the write returns. */
  function AccessesLeft(s: Cdc): nat
    requires Writing(s) && s.main.count <= |s.main.data|
  {
    var left := 3 * (|s.main.data| - s.main.count);
    match s.main
    case WriteTest(_, _) => left + 2
    case WriteStore(_, _) => left + 1
    case WriteAdvance(_, _) => left
    case _ => 1
  }

  /** What will have been accepted for transmission in the end. */
  function Target(s: Cdc): seq<byte>
    requires Writing(s) && s.main.count <= |s.main.data|
  {
    s.txAccepted + s.main.data[s.main.count..]
  }

  lemma NextAndRest(accepted: seq<byte>, data: seq<byte>, count: nat)
    requires count < |data|
    ensures accepted + [data[count]] + data[count + 1..] == accepted + data[count..]
  {
  }

  /** A step towards the end of a write. */
  ghost predicate Closer(s: Cdc, t: Cdc, accesses: nat)
    requires Roomy(s)
  {
    Roomy(t) && t.main.data == s.main.data && AccessesLeft(s) == AccessesLeft(t) + accesses && Target(t) == Target(s)
  }

  lemma RoomyTest(s: Cdc, expired: bool)
    requires Roomy(s) && s.main.WriteTest?
    ensures Closer(s, MainStep(s, expired), 1)
  {
    MainStepSafe(s, expired);
    FullIff(s.tx);
  }

  lemma RoomyStore(s: Cdc, expired: bool)
    requires Roomy(s) && s.main.WriteStore?
    ensures Closer(s, MainStep(s, expired), 1)
  {
    MainStepSafe(s, expired);
    StoreIsInvisible(s.tx, s.main.data[s.main.count]);
  }

  lemma RoomyAdvance(s: Cdc, expired: bool)
    requires Roomy(s) && s.main.WriteAdvance?
    ensures Closer(s, MainStep(s, expired), 1)
  {
    MainStepSafe(s, expired);
    PushAppends(s.tx, s.main.data[s.main.count]);
    NextAndRest(s.txAccepted, s.main.data, s.main.count);
  }

  /** Sending on only makes room. */
  lemma TransmitMakesRoom(s: Cdc)
    requires Shapes(s)
    ensures RingOk(StartNextTransmit(s).tx) && |Contents(StartNextTransmit(s).tx)| <= |Contents(s.tx)|
  {
    if !s.txBusy && s.tx.head != s.tx.tail {
      TakePacketSplits(s.tx, []);
      var (tx, packet) := TakePacket(s.tx, []);
      assert [] + Contents(s.tx) == packet + Contents(tx);
    }
  }

  lemma RoomyTransfer(s: Cdc)
    requires Roomy(s)
    ensures Closer(s, Step(s, TransferDone), 0)
  {
    StepSafe(s, TransferDone);
    if s.inFlight.Some? {
      var free := s.(inFlight := None, txBusy := false);
      TransmitMakesRoom(free);
      TransmitKeepsAccepted(free);
    }
  }

  lemma RoomyCallback(s: Cdc, packet: seq<byte>)
    requires Roomy(s)
    ensures Closer(s, Step(s, HostSends(packet)), 0)
  {
    StepSafe(s, HostSends(packet));
  }

  lemma RoomyStep(s: Cdc, e: Event)
    requires Roomy(s) && !(s.main.WriteEnd? && e.MainRuns?)
    ensures Closer(s, Step(s, e), if e.MainRuns? then 1 else 0)
  {
    match e
    case HostSends(packet) => RoomyCallback(s, packet);
    case TransferDone => RoomyTransfer(s);
    case CallRead =>
    case CallWrite(_) =>
    case MainRuns(expired) =>
      if s.main.WriteTest? {
        RoomyTest(s, expired);
      } else if s.main.WriteStore? {
        RoomyStore(s, expired);
      } else {
        RoomyAdvance(s, expired);
      }
  }

  lemma RoomyEnd(s: Cdc, expired: bool)
    requires Roomy(s) && s.main.WriteEnd?
    ensures var t := MainStep(s, expired);
            t.main.Idle? && t.returned == |s.main.data| && t.txAccepted == Target(s)
  {
    TransmitKeepsAccepted(s);
    assert s.main.data[s.main.count..] == [];
  }

  /** The accesses of the main thread in a list of events. */
  function Accesses(events: seq<Event>): nat
    decreases |events|
  {
    if events == [] then 0 else (if events[0].MainRuns? then 1 else 0) + Accesses(events[1..])
  }

  lemma {:induction false} RoomyRun(s: Cdc, events: seq<Event>, t: Cdc)
    requires Roomy(s) && Reaches(s, events, t) && Accesses(events) < AccessesLeft(s)
    ensures Closer(s, t, Accesses(events))
    decreases |events|
  {
    if events != [] {
      RoomyStep(s, events[0]);
      RoomyRun(Step(s, events[0]), events[1..], t);
    }
  }

  /** Whatever callbacks come in between, a write whose data fits the room in the ring is done
      after three accesses for each byte and two more: it returns its length, and all of its
      data has been accepted. */
  lemma RoomyWriteFinishes(s: Cdc, events: seq<Event>, t: Cdc, expired: bool)
    requires Safe(s) && s.main.WriteTest? && s.main.count == 0
    requires |Contents(s.tx)| + |s.main.data| < CAPACITY
    requires Reaches(s, events, t) && Accesses(events) == 3 * |s.main.data| + 1
    ensures Shapes(t)
    ensures var u := Step(t, MainRuns(expired));
            u.main.Idle? && u.returned == |s.main.data| && u.txAccepted == s.txAccepted + s.main.data
  {
    RoomyRun(s, events, t);
    RoomyEnd(t, expired);
    assert s.main.data[0..] == s.main.data;
  }

  // ----- The firmware's own form -----

  /** The ring arrays and indices, the packet buffer and the busy flag. */
  class Device {
    const rxBuffer: array<byte>
    const txBuffer: array<byte>
    const cdcInPacket: array<byte>
    var rxHead: nat
    var rxTail: nat
    var txHead: nat
    var txTail: nat
    var txBusy: bool
    var inFlight: Option<seq<byte>>
    var main: Main
    var returned: nat
    ghost var rxAccepted: seq<byte>
    ghost var rxRead: seq<byte>
    ghost var txAccepted: seq<byte>
    ghost var wire: seq<seq<byte>>
    ghost var overrun: bool
    ghost var writeStart: nat

    constructor ()
      ensures Valid() && State() == START
      ensures fresh(rxBuffer) && fresh(txBuffer) && fresh(cdcInPacket)
    {
      rxBuffer := new byte[CAPACITY](i => 0);
      txBuffer := new byte[CAPACITY](i => 0);
      cdcInPacket := new byte[PACKET_SIZE](i => 0);
      rxHead, rxTail, txHead, txTail := 0, 0, 0, 0;
      txBusy, inFlight, main, returned := false, None, Idle, 0;
      rxAccepted, rxRead, txAccepted, wire, overrun, writeStart := [], [], [], [], false, 0;
    }

    ghost predicate Valid()
      reads this
    {
      && rxBuffer.Length == CAPACITY && txBuffer.Length == CAPACITY && cdcInPacket.Length == PACKET_SIZE
      && rxBuffer != txBuffer && rxBuffer != cdcInPacket && txBuffer != cdcInPacket
      && rxHead < CAPACITY && rxTail < CAPACITY && txHead < CAPACITY && txTail < CAPACITY
    }

    ghost function State(): Cdc
      reads this, rxBuffer, txBuffer, cdcInPacket
    {
      Cdc(Ring(rxBuffer[..], rxHead, rxTail), Ring(txBuffer[..], txHead, txTail), cdcInPacket[..],
          txBusy, inFlight, main, returned, rxAccepted, rxRead, txAccepted, wire, overrun, writeStart)
    }

    /** Hand a transfer to the USB core. */
    method EpStartWrite(packet: seq<byte>)
      requires Valid()
      modifies this
      ensures Valid() && State() == StartWrite(old(State()), packet)
    {
      overrun := overrun || inFlight.Some?;
      wire := wire + [packet];
      inFlight := Some(packet);
    }

    ghost function TxRing(): Ring
      reads this, txBuffer
    {
      Ring(txBuffer[..], txHead, txTail)
    }

    /** Move bytes from the transmit ring into the packet buffer until one of them ends. */
    method FillPacket() returns (count: nat)
      requires Valid()
      modifies this`txTail, cdcInPacket
      ensures Valid() && count <= PACKET_SIZE
      ensures (TxRing(), cdcInPacket[..count]) == TakePacket(old(TxRing()), [])
      ensures cdcInPacket[count..] == old(cdcInPacket[..])[count..]
    {
      count := 0;
      ghost var packet0 := cdcInPacket[..];
      while count < PACKET_SIZE && txTail != txHead
        invariant Valid() && count <= PACKET_SIZE
        invariant TakePacket(old(TxRing()), []) == TakePacket(TxRing(), cdcInPacket[..count])
        invariant forall k :: count <= k < PACKET_SIZE ==> cdcInPacket[k] == packet0[k]
      {
        ghost var ring := TxRing();
        assert ring.buf[ring.tail] == txBuffer[txTail];
        ghost var taken := cdcInPacket[..count];
        TakePacketStep(ring, taken);
        cdcInPacket[count] := txBuffer[txTail];
        count := count + 1;
        assert cdcInPacket[..count] == taken + [ring.buf[ring.tail]];
        txTail := RingNext(txTail);
        assert TxRing() == TailMoved(ring);
        assert TakePacket(TxRing(), cdcInPacket[..count]) == TakePacket(ring, taken);
      }
    }

    /** Fill the packet buffer from the transmit ring and start the transfer. */
    method StartTransmit()
      requires Valid()
      modifies this, cdcInPacket
      ensures Valid() && State() == StartNextTransmit(old(State()))
    {
      if txBusy || txHead == txTail {
        return;
      }
      ghost var packet0 := cdcInPacket[..];
      var count := FillPacket();
      assert cdcInPacket[..] == cdcInPacket[..count] + packet0[count..];
      txBusy := true;
      EpStartWrite(cdcInPacket[..count]);
    }

    /** The OUT callback. */
    method OnBulkOut(packet: seq<byte>)
      requires Valid()
      modifies this, rxBuffer
      ensures Valid() && State() == BulkOut(old(State()), packet)
    {
      var index: nat := 0;
      ghost var ring := Ring(rxBuffer[..], rxHead, rxTail);
      ghost var done := false;
      while index < |packet|
        invariant Valid() && index <= |packet|
        invariant var (r, n) := Receive(Ring(rxBuffer[..], rxHead, rxTail), packet[index..]);
                  Receive(ring, packet) == (r, n + index)
        invariant State() == old(State()).(rx := Ring(rxBuffer[..], rxHead, rxTail))
      {
        var next := RingNext(rxHead);
        if next == rxTail {
          break;
        }
        assert packet[index..][0] == packet[index] && packet[index..][1..] == packet[index + 1..];
        ghost var before := Ring(rxBuffer[..], rxHead, rxTail);
        rxBuffer[rxHead] := packet[index];
        rxHead := next;
        assert Ring(rxBuffer[..], rxHead, rxTail) == HeadMoved(Stored(before, packet[index]));
        index := index + 1;
      }
      assert Receive(ring, packet) == (Ring(rxBuffer[..], rxHead, rxTail), index);
      rxAccepted := rxAccepted + packet[..index];
    }

    /** The IN callback. */
    method OnBulkIn(byteCount: nat)
      requires Valid()
      modifies this, cdcInPacket
      ensures Valid() && State() == BulkIn(old(State()), byteCount)
    {
      if byteCount != 0 && byteCount % PACKET_SIZE == 0 {
        EpStartWrite([]);
        return;
      }
      txBusy := false;
      StartTransmit();
    }

    /** The next access of the main thread inside `py32_usb_read`. */
    method RunRead()
      requires Valid() && (main.ReadLoad? || main.ReadAdvance?)
      modifies this
      ensures Valid() && State() == MainStep(old(State()), false)
    {
      if main.ReadLoad? {
        main := ReadAdvance(rxBuffer[rxTail]);
      } else {
        var value := main.value;
        rxTail := RingNext(rxTail);
        rxRead := rxRead + [value];
        main := Idle;
      }
    }

    /** The next access of the main thread while `py32_usb_write` puts one byte in the ring. */
    method RunWriteByte()
      requires Valid() && (main.WriteTest? || main.WriteStore? || main.WriteAdvance?)
      modifies this, txBuffer
      ensures Valid() && State() == MainStep(old(State()), false)
    {
      match main {
        case WriteTest(data, count) =>
          if count >= |data| {
            main := WriteEnd(data, count);
          } else if RingNext(txHead) == txTail {
            main := WriteFull(data, count);
          } else {
            main := WriteStore(data, count);
          }
        case WriteStore(data, count) =>
          if count < |data| {
            txBuffer[txHead] := data[count];
            main := WriteAdvance(data, count);
          }
        case WriteAdvance(data, count) =>
          if count < |data| {
            txHead := RingNext(txHead);
            txAccepted := txAccepted + [data[count]];
            main := WriteTest(data, count + 1);
          }
      }
    }

    /** The next access of the main thread inside `py32_usb_read` or `py32_usb_write`. */
    method RunMain(expired: bool)
      requires Valid()
      modifies this, txBuffer, cdcInPacket
      ensures Valid() && State() == MainStep(old(State()), expired)
    {
      match main {
        case Idle =>
        case ReadLoad => RunRead();
        case ReadAdvance(_) => RunRead();
        case WriteTest(_, _) => RunWriteByte();
        case WriteStore(_, _) => RunWriteByte();
        case WriteAdvance(_, _) => RunWriteByte();
        case WriteFull(data, count) =>
          StartTransmit();
          main := if expired then WriteEnd(data, count) else WriteTest(data, count);
        case WriteEnd(_, count) =>
          StartTransmit();
          main, returned := Idle, count;
      }
    }

    /** The main thread calls `py32_usb_read`. */
    method BeginRead()
      requires Valid()
      modifies this
      ensures Valid() && State() == Step(old(State()), CallRead)
    {
      if main.Idle? && rxTail != rxHead {
        main := ReadLoad;
      }
    }

    /** The main thread calls `py32_usb_write`. */
    method BeginWrite(data: seq<byte>)
      requires Valid()
      modifies this
      ensures Valid() && State() == Step(old(State()), CallWrite(data))
    {
      if main.Idle? {
        main := WriteTest(data, 0);
        writeStart := |txAccepted|;
      }
    }
  }
}
