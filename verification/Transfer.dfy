/** The data transfers of the MAIN phase: chunks of a write arriving from the host, and chunks of
    a read going out. */
module Transfer {
  import opened Bytes
  import opened Cobs
  import opened Wrappers
  import opened CommandDecoder
  import opened MessageParser
  import opened SerialFrames

  datatype Chunk = Chunk(start: nat, data: seq<byte>)

  /** The exclusive end of the operation: the region end, unless it is absent or past the
      device. */
  function OperationEnd(memSize: uint32, regionEnd: uint32): uint32 {
    if regionEnd == 0 || regionEnd > memSize then memSize else regionEnd
  }

  predicate RangeFits(address: uint32, size: nat, end: uint32) {
    address <= end && size <= end - address
  }

  /** The cursor of a transfer, the request and completion flags, and the history: the chunks
      handed to the handler, and those it handled without error. */
  datatype Cursor = Cursor(
    address: uint32, memSize: uint32, regionEnd: uint32, waiting: bool, done: bool,
    handed: seq<Chunk>, handled: seq<Chunk>)

  function End(c: Cursor): uint32 {
    OperationEnd(c.memSize, c.regionEnd)
  }

  function StartOf(p: MemoryFields): Cursor {
    Cursor(StartAddress(p), MemSize(p), RegionEnd(p), false, false, [], [])
  }

  datatype Reason =
    | OutOfRangeOnEntry
    | Complete
    | Requested
    | EndedByHost
    | RefusedMessage
    | RefusedRange
    | HandlerFailed
    | Moved
    | NotAcknowledged

  /** The callback reports an error, which ends the command. */
  predicate Failing(r: Reason) {
    r in {OutOfRangeOnEntry, RefusedMessage, RefusedRange, HandlerFailed, NotAcknowledged}
  }

  // ----- Incoming data -----

  /** Hand the next chunk to the handler; the cursor moves only if the handler succeeds. */
  function HandOver(c: Cursor, data: seq<byte>, ok: bool): Cursor
    requires c.address + |data| < 0x1_0000_0000
  {
    var chunk := Chunk(c.address, data);
    if ok then c.(handed := c.handed + [chunk], handled := c.handled + [chunk], address := c.address + |data|)
    else c.(handed := c.handed + [chunk])
  }

  /** One call of the write callback: what the parser found, and whether the handler succeeds. */
  function Incoming(c: Cursor, found: Option<Message>, handlerOk: bool, bufferSize: nat): (Cursor, Reason) {
    if c.address > End(c) then (c, OutOfRangeOnEntry)
    else if c.address == End(c) then (c.(done := true), Complete)
    else match found
      case None => (c.(waiting := true), Requested)
      case Some(Done) =>
        if c.regionEnd != 0 then (c.(waiting := false), RefusedMessage)
        else (c.(waiting := false, done := true), EndedByHost)
      case Some(Data(bytes)) =>
        if |bytes| > bufferSize || !RangeFits(c.address, |bytes|, End(c)) then (c.(waiting := false), RefusedRange)
        else (HandOver(c.(waiting := false), bytes, handlerOk), if handlerOk then Moved else HandlerFailed)
      case _ => (c.(waiting := false), RefusedMessage)
  }

  /** A write so far: the cursor, the receive buffer, the bytes that arrived, the messages heard,
      and whether no poll met an unfinished data frame. */
  datatype Intake = Intake(cursor: Cursor, rx: seq<byte>, arrived: seq<byte>, heard: seq<Message>, timely: bool)

  /** What a call of the write callback meets: the bytes that arrive before it, and whether the
      handler succeeds. */
  datatype Turn = Turn(arrival: seq<byte>, handlerOk: bool)

  function Found(p: Poll): Option<Message> {
    if p.Got? then Some(p.message) else None
  }

  /** One call of the write callback on the receive buffer: it polls for a message only before
      the end of the operation. */
  function TakeTurn(r: Intake, t: Turn, cap: nat): (Intake, Reason) {
    var buffer := r.rx + t.arrival;
    if r.cursor.address >= End(r.cursor) then
      var (next, reason) := Incoming(r.cursor, None, t.handlerOk, cap);
      (r.(cursor := next, rx := buffer, arrived := r.arrived + t.arrival), reason)
    else
      var p := GetMessage(buffer, cap);
      var (next, reason) := Incoming(r.cursor, Found(p), t.handlerOk, cap);
      (Intake(next, p.rest, r.arrived + t.arrival, r.heard + Returned(p), r.timely && !Waits(buffer)), reason)
  }

  /** The MAIN phase of a write: calls until one completes it or fails. */
  function TakeTurns(r: Intake, turns: seq<Turn>, cap: nat): (Intake, Reason)
    decreases |turns|
  {
    if turns == [] then (r, Requested)
    else
      var (next, reason) := TakeTurn(r, turns[0], cap);
      if next.cursor.done || Failing(reason) then (next, reason) else TakeTurns(next, turns[1..], cap)
  }

  /** The payloads of the data messages. */
  function DataOf(heard: seq<Message>): seq<seq<byte>>
    decreases |heard|
  {
    if heard == [] then []
    else
      var before, m := DataOf(heard[..|heard| - 1]), heard[|heard| - 1];
      if m.Data? then before + [m.bytes] else before
  }

  function Payloads(chunks: seq<Chunk>): seq<seq<byte>>
    decreases |chunks|
  {
    if chunks == [] then [] else Payloads(chunks[..|chunks| - 1]) + [chunks[|chunks| - 1].data]
  }

  /** The chunks follow each other without gap or overlap from `start` to `end`. */
  predicate Tiles(start: nat, chunks: seq<Chunk>, end: nat)
    decreases |chunks|
  {
    if chunks == [] then start == end
    else
      var last := chunks[|chunks| - 1];
      last.start + |last.data| == end && Tiles(start, chunks[..|chunks| - 1], last.start)
  }

  lemma TilesAppend(start: nat, chunks: seq<Chunk>, chunk: Chunk)
    requires Tiles(start, chunks, chunk.start)
    ensures Tiles(start, chunks + [chunk], chunk.start + |chunk.data|)
  {
    assert (chunks + [chunk])[..|chunks|] == chunks;
  }

  /** The chunks handed over are those handled, and at most one more that failed. */
  predicate HandedOver(c: Cursor) {
    && (c.handed == c.handled || (c.handed != [] && c.handed[..|c.handed| - 1] == c.handled))
    && forall k :: 0 <= k < |c.handed| ==> c.handed[k].start + |c.handed[k].data| <= End(c)
  }

  /** The invariant of a write that began at `start`. */
  predicate WriteOk(start: nat, c: Cursor) {
    Tiles(start, c.handled, c.address) && c.address <= End(c) && HandedOver(c)
  }

  lemma HandOverKeeps(start: nat, c: Cursor, data: seq<byte>, ok: bool)
    requires WriteOk(start, c) && c.handed == c.handled && RangeFits(c.address, |data|, End(c))
    ensures WriteOk(start, HandOver(c, data, ok))
  {
    TilesAppend(start, c.handled, Chunk(c.address, data));
    assert (c.handed + [Chunk(c.address, data)])[..|c.handed|] == c.handed;
  }

  /** What one call of the write callback leaves. */
  predicate Left(start: nat, c: Cursor, found: Option<Message>, next: Cursor, reason: Reason) {
    && WriteOk(start, next) && End(next) == End(c) && next.regionEnd == c.regionEnd
    && reason != OutOfRangeOnEntry
    && (!Failing(reason) ==> next.handed == next.handled)
    && (next.done ==> next.address == End(c) || (reason == EndedByHost && c.regionEnd == 0 && found == Some(Done)))
  }

  lemma DataKeeps(start: nat, c: Cursor, bytes: seq<byte>, handlerOk: bool, bufferSize: nat)
    requires WriteOk(start, c) && c.handed == c.handled && !c.done && c.address < End(c)
    ensures var found := Some(Data(bytes));
            var (next, reason) := Incoming(c, found, handlerOk, bufferSize);
            Left(start, c, found, next, reason)
  {
    var open := c.(waiting := false);
    assert WriteOk(start, open) && End(open) == End(c);
    if |bytes| <= bufferSize && RangeFits(c.address, |bytes|, End(c)) {
      HandOverKeeps(start, open, bytes, handlerOk);
      assert End(HandOver(open, bytes, handlerOk)) == End(c);
    } else {
      assert Incoming(c, Some(Data(bytes)), handlerOk, bufferSize) == (open, RefusedRange);
    }
  }

  lemma IncomingKeeps(start: nat, c: Cursor, found: Option<Message>, handlerOk: bool, bufferSize: nat)
    requires WriteOk(start, c) && c.handed == c.handled && !c.done
    ensures var (next, reason) := Incoming(c, found, handlerOk, bufferSize);
            Left(start, c, found, next, reason)
  {
    if c.address < End(c) && found.Some? && found.value.Data? {
      DataKeeps(start, c, found.value.bytes, handlerOk, bufferSize);
    }
  }

  lemma PayloadsAppend(chunks: seq<Chunk>, chunk: Chunk)
    ensures Payloads(chunks + [chunk]) == Payloads(chunks) + [chunk.data]
  {
    assert (chunks + [chunk])[..|chunks|] == chunks;
  }

  lemma DataAppend(heard: seq<Message>, m: Message)
    ensures DataOf(heard + [m]) == if m.Data? then DataOf(heard) + [m.bytes] else DataOf(heard)
  {
    assert (heard + [m])[..|heard|] == heard;
  }

  /** The chunks written are the payloads heard, in order; the last payload is missing exactly
      where its range was refused or its handler failed. */
  predicate Written(c: Cursor, heard: seq<Message>, reason: Reason) {
    if reason == RefusedRange || reason == HandlerFailed then
      DataOf(heard) != [] && Payloads(c.handled) == DataOf(heard)[..|DataOf(heard)| - 1]
    else
      Payloads(c.handled) == DataOf(heard)
  }

  lemma IncomingWrites(c: Cursor, heard: seq<Message>, m: Message, handlerOk: bool, cap: nat)
    requires c.address < End(c) && Payloads(c.handled) == DataOf(heard)
    ensures var (next, reason) := Incoming(c, Some(m), handlerOk, cap);
            Written(next, heard + [m], reason)
  {
    DataAppend(heard, m);
    if m.Data? {
      PayloadsAppend(c.handled, Chunk(c.address, m.bytes));
    }
  }

  lemma TurnWrites(r: Intake, t: Turn, cap: nat)
    requires Payloads(r.cursor.handled) == DataOf(r.heard)
    ensures var (next, reason) := TakeTurn(r, t, cap);
            Written(next.cursor, next.heard, reason)
  {
    if r.cursor.address < End(r.cursor) {
      var p := GetMessage(r.rx + t.arrival, cap);
      if p.Got? {
        IncomingWrites(r.cursor, r.heard, p.message, t.handlerOk, cap);
      } else {
        assert r.heard + [] == r.heard;
      }
    }
  }

  lemma TurnKeeps(start: nat, r: Intake, t: Turn, cap: nat)
    requires WriteOk(start, r.cursor) && r.cursor.handed == r.cursor.handled && !r.cursor.done
    ensures var (next, reason) := TakeTurn(r, t, cap);
            && WriteOk(start, next.cursor) && End(next.cursor) == End(r.cursor)
            && next.cursor.regionEnd == r.cursor.regionEnd
            && reason != OutOfRangeOnEntry
            && (!Failing(reason) ==> next.cursor.handed == next.cursor.handled)
            && (next.cursor.done ==>
                  next.cursor.address == End(r.cursor) || (reason == EndedByHost && r.cursor.regionEnd == 0))
  {
    if r.cursor.address < End(r.cursor) {
      IncomingKeeps(start, r.cursor, Found(GetMessage(r.rx + t.arrival, cap)), t.handlerOk, cap);
    } else {
      IncomingKeeps(start, r.cursor, None, t.handlerOk, cap);
    }
  }

  /** What was heard is the front of the stream `first` and all that arrived behind it; what is
      in the buffer, with any bytes to come, is the rest of it. */
  ghost predicate FrontHeard(r: Intake, first: seq<byte>, cap: nat) {
    r.timely ==> forall future: seq<byte> ::
      Messages(first + r.arrived + future, cap) == r.heard + Messages(r.rx + future, cap)
  }

  /** The stream after one arrival more, and then after a poll of it. */
  lemma PollHears(
    first: seq<byte>, arrived: seq<byte>, arrival: seq<byte>, rx: seq<byte>, heard: seq<Message>, future: seq<byte>,
    cap: nat)
    requires Messages(first + arrived + (arrival + future), cap) == heard + Messages(rx + (arrival + future), cap)
    ensures Messages(first + (arrived + arrival) + future, cap) == heard + Messages(rx + arrival + future, cap)
    ensures !Waits(rx + arrival) ==>
              var p := GetMessage(rx + arrival, cap);
              Messages(first + (arrived + arrival) + future, cap) == heard + Returned(p) + Messages(p.rest + future, cap)
  {
    assert first + (arrived + arrival) + future == first + arrived + (arrival + future);
    assert rx + (arrival + future) == rx + arrival + future;
    if !Waits(rx + arrival) {
      var p := GetMessage(rx + arrival, cap);
      PollTakesNext(rx + arrival, future, cap);
      HeardInOrder(Messages(first + (arrived + arrival) + future, cap), heard, Messages(rx + arrival + future, cap),
                   Returned(p), Messages(p.rest + future, cap));
    }
  }

  lemma TurnHears(r: Intake, first: seq<byte>, t: Turn, cap: nat)
    requires FrontHeard(r, first, cap)
    ensures FrontHeard(TakeTurn(r, t, cap).0, first, cap)
  {
    var next := TakeTurn(r, t, cap).0;
    if next.timely {
      forall future: seq<byte>
        ensures Messages(first + next.arrived + future, cap) == next.heard + Messages(next.rx + future, cap)
      {
        PollHears(first, r.arrived, t.arrival, r.rx, r.heard, future, cap);
      }
    }
  }

  lemma {:induction false} TurnsKeep(start: nat, r: Intake, first: seq<byte>, turns: seq<Turn>, cap: nat)
    requires WriteOk(start, r.cursor) && r.cursor.handed == r.cursor.handled && !r.cursor.done
    requires Payloads(r.cursor.handled) == DataOf(r.heard) && FrontHeard(r, first, cap)
    ensures var (end, reason) := TakeTurns(r, turns, cap);
            && WriteOk(start, end.cursor) && End(end.cursor) == End(r.cursor)
            && reason != OutOfRangeOnEntry
            && (end.cursor.done ==>
                  end.cursor.address == End(r.cursor) || (reason == EndedByHost && r.cursor.regionEnd == 0))
            && (!Failing(reason) ==> end.cursor.handed == end.cursor.handled)
            && Written(end.cursor, end.heard, reason) && FrontHeard(end, first, cap)
    decreases |turns|
  {
    if turns != [] {
      TurnKeeps(start, r, turns[0], cap);
      TurnWrites(r, turns[0], cap);
      TurnHears(r, first, turns[0], cap);
      var (next, reason) := TakeTurn(r, turns[0], cap);
      if !(next.cursor.done || Failing(reason)) {
        TurnsKeep(start, next, first, turns[1..], cap);
      }
    }
  }

  /** An accepted write frame starts inside its operation. */
  lemma AcceptedWriteStartsInside(p: MemoryFields)
    requires OtherVerdict(CMD_WRITE, p) == DECODE_OK
    ensures StartAddress(p) <= OperationEnd(MemSize(p), RegionEnd(p)) <= MemSize(p)
  {
  }

  function Begin(p: MemoryFields, rx: seq<byte>): Intake {
    Intake(StartOf(p), rx, [], [], true)
  }

  /** Conservation: for every accepted write frame and all bytes the host sends, however they
      arrive, the chunks written tile the range from the start address to the cursor, their
      bytes are the payloads of the data frames heard, in order and each of them unless it was
      refused or its handler failed, what was heard is the front of the host's stream, no chunk
      handed to the handler passes the end, the entry guard never trips, and the phase completes
      only at the end or on a DONE with no region end. */
  lemma WriteTransferConserves(p: MemoryFields, rx: seq<byte>, turns: seq<Turn>, bufferSize: nat)
    requires OtherVerdict(CMD_WRITE, p) == DECODE_OK
    ensures var end := OperationEnd(MemSize(p), RegionEnd(p));
            var (r, reason) := TakeTurns(Begin(p, rx), turns, bufferSize);
            var c := r.cursor;
            && Tiles(StartAddress(p), c.handled, c.address)
            && Written(c, r.heard, reason)
            && (r.timely ==> Messages(rx + r.arrived, bufferSize) == r.heard + Messages(r.rx, bufferSize))
            && c.address <= end
            && (forall k :: 0 <= k < |c.handed| ==> c.handed[k].start + |c.handed[k].data| <= end)
            && (c.handed == c.handled || (c.handed != [] && c.handed[..|c.handed| - 1] == c.handled))
            && reason != OutOfRangeOnEntry
            && (c.done ==> c.address == end || (reason == EndedByHost && RegionEnd(p) == 0))
  {
    AcceptedWriteStartsInside(p);
    assert FrontHeard(Begin(p, rx), rx, bufferSize) by {
      assert rx + [] == rx;
    }
    TurnsKeep(StartAddress(p), Begin(p, rx), rx, turns, bufferSize);
    var r := TakeTurns(Begin(p, rx), turns, bufferSize).0;
    assert rx + r.arrived + [] == rx + r.arrived && r.rx + [] == r.rx;
  }

  // ----- Outgoing data -----

  function Min(a: nat, b: nat): nat {
    if a < b then a else b
  }

  /** What the read handler puts in the buffer: as much of the device as fits. */
  function ReadChunk(memory: seq<byte>, address: nat, bufferSize: nat): seq<byte>
    requires address <= |memory|
  {
    memory[address..address + Min(|memory| - address, bufferSize)]
  }

  /** The chunk, cut at the end of the operation. */
  function Cut(data: seq<byte>, room: nat): seq<byte> {
    if |data| > room then data[..room] else data
  }

  /** One call of the read callback. */
  function Outgoing(c: Cursor, memory: seq<byte>, acknowledged: bool, bufferSize: nat): (Cursor, Reason)
    requires |memory| == c.memSize
  {
    if c.address > End(c) then (c, OutOfRangeOnEntry)
    else if c.address == End(c) then (c.(done := true), Complete)
    else
      var data := Cut(ReadChunk(memory, c.address, bufferSize), End(c) - c.address);
      var next := HandOver(c, data, acknowledged);
      if !acknowledged then (next, NotAcknowledged)
      else (next.(done := c.done || next.address >= End(c)), Moved)
  }

  /** The MAIN phase of a read in which every chunk is acknowledged. It ends, because every
      chunk brings the cursor closer to the end. */
  function ReadAll(c: Cursor, memory: seq<byte>, bufferSize: nat): Cursor
    requires |memory| == c.memSize && bufferSize > 0 && c.address <= End(c)
    decreases End(c) - c.address, if c.done then 0 else 1
  {
    if c.done then c
    else ReadAll(Outgoing(c, memory, true, bufferSize).0, memory, bufferSize)
  }

  function Sent(chunks: seq<Chunk>): seq<byte>
    decreases |chunks|
  {
    if chunks == [] then [] else Sent(chunks[..|chunks| - 1]) + chunks[|chunks| - 1].data
  }

  /** The invariant of a read that began at `start`. */
  predicate ReadOk(start: nat, c: Cursor, memory: seq<byte>) {
    && |memory| == c.memSize && start <= c.address <= End(c)
    && Tiles(start, c.handed, c.address)
    && Sent(c.handed) == memory[start..c.address]
    && (forall k :: 0 <= k < |c.handed| ==> c.handed[k].data != [])
    && (c.done ==> c.address == End(c))
  }

  lemma HandOverSends(start: nat, c: Cursor, memory: seq<byte>, data: seq<byte>)
    requires ReadOk(start, c, memory) && !c.done
    requires 0 < |data| <= End(c) - c.address && data == memory[c.address..c.address + |data|]
    ensures ReadOk(start, HandOver(c, data, true), memory)
  {
    var chunk := Chunk(c.address, data);
    TilesAppend(start, c.handed, chunk);
    SentAppend(c.handed, chunk);
    SlicesJoin(memory, start, c.address, c.address + |data|);
  }

  lemma SentAppend(chunks: seq<Chunk>, chunk: Chunk)
    ensures Sent(chunks + [chunk]) == Sent(chunks) + chunk.data
  {
    assert (chunks + [chunk])[..|chunks|] == chunks;
  }

  lemma SlicesJoin(s: seq<byte>, a: nat, b: nat, c: nat)
    requires a <= b <= c <= |s|
    ensures s[a..b] + s[b..c] == s[a..c]
  {
  }

  /** A chunk is the part of the device from the cursor on that the buffer and the operation hold. */
  lemma CutIsFront(memory: seq<byte>, address: nat, end: nat, bufferSize: nat)
    requires address <= end <= |memory|
    ensures Cut(ReadChunk(memory, address, bufferSize), end - address)
         == memory[address..if address + bufferSize < end then address + bufferSize else end]
  {
  }

  lemma OutgoingKeeps(start: nat, c: Cursor, memory: seq<byte>, bufferSize: nat)
    requires ReadOk(start, c, memory) && bufferSize > 0 && !c.done
    ensures var (next, reason) := Outgoing(c, memory, true, bufferSize);
            && ReadOk(start, next, memory) && End(next) == End(c) && !Failing(reason)
            && (next.done || next.address > c.address)
  {
    if c.address < End(c) {
      var data := Cut(ReadChunk(memory, c.address, bufferSize), End(c) - c.address);
      CutIsFront(memory, c.address, End(c), bufferSize);
      assert data == memory[c.address..c.address + |data|] && 0 < |data| <= End(c) - c.address;
      HandOverSends(start, c, memory, data);
    }
  }

  lemma {:induction false} ReadAllKeeps(start: nat, c: Cursor, memory: seq<byte>, bufferSize: nat)
    requires ReadOk(start, c, memory) && bufferSize > 0
    ensures var end := ReadAll(c, memory, bufferSize);
            ReadOk(start, end, memory) && end.done && End(end) == End(c)
    decreases End(c) - c.address, if c.done then 0 else 1
  {
    if !c.done {
      OutgoingKeeps(start, c, memory, bufferSize);
      ReadAllKeeps(start, Outgoing(c, memory, true, bufferSize).0, memory, bufferSize);
    }
  }

  /** One call before the end sends as much as the buffer holds and the operation has left, in a
      single chunk. The cursor moves behind it exactly when the host acknowledges it, and the read
      is done exactly when that brings it to the end. */
  lemma ReadStep(c: Cursor, memory: seq<byte>, acknowledged: bool, cap: nat)
    requires |memory| == c.memSize && !c.done
    requires c.address < if c.regionEnd == 0 || c.regionEnd > c.memSize then c.memSize else c.regionEnd
    ensures var end := if c.regionEnd == 0 || c.regionEnd > c.memSize then c.memSize else c.regionEnd;
            var (next, reason) := Outgoing(c, memory, acknowledged, cap);
            var upTo := if c.address + cap < end then c.address + cap else end;
            && next.handed == c.handed + [Chunk(c.address, memory[c.address..upTo])]
            && (reason == Moved <==> acknowledged) && (reason == NotAcknowledged <==> !acknowledged)
            && next.address == (if acknowledged then upTo else c.address)
            && next.handled == (if acknowledged then c.handled + [Chunk(c.address, memory[c.address..upTo])] else c.handled)
            && (next.done <==> acknowledged && upTo == end)
  {
    CutIsFront(memory, c.address, End(c), cap);
  }

  /** Completeness: when every chunk is acknowledged and the read starts inside its operation,
      the chunks sent are the device contents from the start address to the end, in order, and
      none of them is empty. */
  lemma ReadTransferComplete(p: MemoryFields, memory: seq<byte>, bufferSize: nat)
    requires |memory| == MemSize(p) && bufferSize > 0
    requires StartAddress(p) <= OperationEnd(MemSize(p), RegionEnd(p))
    ensures var end := OperationEnd(MemSize(p), RegionEnd(p));
            var c := ReadAll(StartOf(p), memory, bufferSize);
            && c.done && c.address == end
            && Sent(c.handed) == memory[StartAddress(p)..end]
            && Tiles(StartAddress(p), c.handed, end)
            && forall k :: 0 <= k < |c.handed| ==> c.handed[k].data != []
  {
    assert Sent([]) == memory[StartAddress(p)..StartAddress(p)];
    ReadAllKeeps(StartAddress(p), StartOf(p), memory, bufferSize);
  }

  /** The decoder checks the start of a read against the device only, so an accepted read frame
      is refused by the transfer exactly when it names a region that ends before its start. */
  lemma AcceptedReadRefusedIff(p: MemoryFields, memory: seq<byte>, bufferSize: nat)
    requires OtherVerdict(CMD_READ, p) == DECODE_OK && |memory| == MemSize(p)
    ensures Outgoing(StartOf(p), memory, true, bufferSize).1 == OutOfRangeOnEntry
       <==> 0 < RegionEnd(p) < StartAddress(p)
  {
  }

  /** A read of a 28-pin part with 512 bytes, from address 256 to a region end of 128. */
  function BackwardFields(): MemoryFields {
    seq(MEMORY_SIZE, i =>
      if i == 2 then 2
      else if i == 6 then 1
      else if i == 11 then 128
      else if i == 12 then 0x07
      else if i == 13 then 28
      else if i == 14 then 0x30
      else if i == 15 then 0xD4
      else if i == 19 then 100
      else if 32 <= i < 54 then LINE_ABSENT
      else 0)
  }

  lemma BackwardChecks()
    ensures OtherVerdict(CMD_READ, BackwardFields()) == DECODE_OK
    ensures MemSize(BackwardFields()) == 512 && StartAddress(BackwardFields()) == 256
    ensures RegionEnd(BackwardFields()) == 128
  {
    var p := BackwardFields();
    assert MemSize(p) == 512 && StartAddress(p) == 256 && StaticHigh(p) == 0;
  }

  /** The decoder accepts it, and the transfer then refuses its first call. */
  lemma BackwardReadRefused(memory: seq<byte>, bufferSize: nat)
    requires |memory| == 512
    ensures MemoryVerdict(CMD_READ, BackwardFields(), DECODE_OK)
    ensures Outgoing(StartOf(BackwardFields()), memory, true, bufferSize).1 == OutOfRangeOnEntry
  {
    var lines := AddressLines(BackwardFields());
    assert lines == seq(20, i => LINE_ABSENT);
    BackwardChecks();
    AcceptedReadRefusedIff(BackwardFields(), memory, bufferSize);
  }

  // ----- A write makes progress -----

  /** Before the end of the operation, a data message is refused exactly when it is longer than
      the buffer or would pass the end; any other is handed over, and the cursor moves behind it
      if the handler succeeds. */
  lemma DataTakenIff(c: Cursor, bytes: seq<byte>, handlerOk: bool, cap: nat)
    requires c.address < if c.regionEnd == 0 || c.regionEnd > c.memSize then c.memSize else c.regionEnd
    ensures var end := if c.regionEnd == 0 || c.regionEnd > c.memSize then c.memSize else c.regionEnd;
            var (next, reason) := Incoming(c, Some(Data(bytes)), handlerOk, cap);
            var fits := |bytes| <= cap && c.address + |bytes| <= end;
            && (reason == RefusedRange <==> !fits)
            && (reason == Moved <==> fits && handlerOk)
            && (reason == HandlerFailed <==> fits && !handlerOk)
            && next.address == c.address + (if reason == Moved then |bytes| else 0)
            && next.handed == c.handed + (if fits then [Chunk(c.address, bytes)] else [])
            && next.handled == c.handled + (if reason == Moved then [Chunk(c.address, bytes)] else [])
            && next.done == c.done && !next.waiting
  {
  }

  /** What is no data message moves no cursor: nothing found is a request for more, a DONE ends
      the write exactly when no region end is given, and any other message is refused. */
  lemma NoDataMovesNothing(c: Cursor, found: Option<Message>, handlerOk: bool, cap: nat)
    requires c.address < if c.regionEnd == 0 || c.regionEnd > c.memSize then c.memSize else c.regionEnd
    requires found.Some? ==> !found.value.Data?
    ensures var (next, reason) := Incoming(c, found, handlerOk, cap);
            && next == c.(waiting := found.None?, done := c.done || reason == EndedByHost)
            && (reason == Requested <==> found.None?)
            && (reason == EndedByHost <==> found == Some(Done) && c.regionEnd == 0)
            && (reason == RefusedMessage <==> found == Some(Ack) || (found == Some(Done) && c.regionEnd != 0)
                                              || (found.Some? && found.value.Error?))
  {
  }

  /** At the end of the operation the write is complete without another message, and past it the
      call fails. */
  lemma AtEndNothingIsHeard(r: Intake, t: Turn, cap: nat)
    requires r.cursor.address >= End(r.cursor)
    ensures var (next, reason) := TakeTurn(r, t, cap);
            && next.heard == r.heard && next.rx == r.rx + t.arrival
            && reason == (if r.cursor.address == End(r.cursor) then Complete else OutOfRangeOnEntry)
            && next.cursor == r.cursor.(done := r.cursor.done || reason == Complete)
  {
  }

  lemma DataTurn(r: Intake, t: Turn, bytes: seq<byte>, cap: nat)
    requires r.cursor.address < End(r.cursor) && t.handlerOk
    requires GetMessage(r.rx + t.arrival, cap).Got? && GetMessage(r.rx + t.arrival, cap).message == Data(bytes)
    requires |bytes| <= cap && r.cursor.address + |bytes| <= End(r.cursor)
    ensures var (next, reason) := TakeTurn(r, t, cap);
            && reason == Moved && next.rx == GetMessage(r.rx + t.arrival, cap).rest
            && next.cursor.address == r.cursor.address + |bytes| && next.cursor.done == r.cursor.done
            && End(next.cursor) == End(r.cursor)
            && next.cursor.handled == r.cursor.handled + [Chunk(r.cursor.address, bytes)]
  {
    DataTakenIff(r.cursor, bytes, true, cap);
  }

  /** All the bytes of the turns. */
  function Arrivals(turns: seq<Turn>): seq<byte>
    decreases |turns|
  {
    if turns == [] then [] else turns[0].arrival + Arrivals(turns[1..])
  }

  /** The last `n` turns bring nothing new. */
  predicate QuietAtEnd(turns: seq<Turn>, n: nat) {
    n <= |turns| && forall k :: |turns| - n <= k < |turns| ==> turns[k].arrival == []
  }

  lemma {:induction false} QuietArrivals(turns: seq<Turn>)
    requires QuietAtEnd(turns, |turns|)
    ensures Arrivals(turns) == []
    decreases |turns|
  {
    if turns != [] {
      QuietArrivals(turns[1..]);
    }
  }

  /** Each payload fits the buffer. */
  predicate Small(payloads: seq<seq<byte>>, cap: nat) {
    forall bytes :: bytes in payloads ==> |bytes| <= cap
  }

  /** The messages begin with data messages of these payloads. */
  predicate Brings(messages: seq<Message>, payloads: seq<seq<byte>>) {
    |payloads| <= |messages| && forall k :: 0 <= k < |payloads| ==> messages[k] == Data(payloads[k])
  }

  lemma BringsBehind(m: Message, others: seq<Message>, payloads: seq<seq<byte>>)
    requires Brings([m] + others, payloads) && payloads != []
    ensures m == Data(payloads[0]) && Brings(others, payloads[1..])
  {
    assert ([m] + others)[0] == m;
    forall k | 0 <= k < |payloads| - 1 ensures others[k] == Data(payloads[1..][k]) {
      assert ([m] + others)[k + 1] == others[k];
    }
  }

  lemma {:induction false} TimelyBefore(r: Intake, turns: seq<Turn>, cap: nat)
    requires TakeTurns(r, turns, cap).0.timely
    ensures r.timely
    decreases |turns|
  {
    if turns != [] {
      var (next, reason) := TakeTurn(r, turns[0], cap);
      if !(next.cursor.done || Failing(reason)) {
        TimelyBefore(next, turns[1..], cap);
      }
    }
  }

  /** The poll of a turn, seen from the whole stream: it returns the first of the messages or
      leaves them all, and returns it at once if nothing more is to come. */
  lemma TurnPolls(r: Intake, turns: seq<Turn>, payloads: seq<seq<byte>>, cap: nat)
    requires turns != [] && payloads != [] && !Waits(r.rx + turns[0].arrival)
    requires Brings(Messages(r.rx + Arrivals(turns), cap), payloads)
    ensures var p, later := GetMessage(r.rx + turns[0].arrival, cap), Arrivals(turns[1..]);
            && (p.Got? ==> p.message == Data(payloads[0]) && Brings(Messages(p.rest + later, cap), payloads[1..]))
            && (p.Incomplete? ==> Brings(Messages(p.rest + later, cap), payloads))
            && (later == [] ==> p.Got?)
  {
    var buffer, later := r.rx + turns[0].arrival, Arrivals(turns[1..]);
    JoinedThrice(r.rx, turns[0].arrival, later);
    PollBrings(buffer, later, payloads, cap);
  }

  lemma PollBrings(buffer: seq<byte>, later: seq<byte>, payloads: seq<seq<byte>>, cap: nat)
    requires payloads != [] && !Waits(buffer) && Brings(Messages(buffer + later, cap), payloads)
    ensures var p := GetMessage(buffer, cap);
            && (p.Got? ==> p.message == Data(payloads[0]) && Brings(Messages(p.rest + later, cap), payloads[1..]))
            && (p.Incomplete? ==> Brings(Messages(p.rest + later, cap), payloads))
            && (later == [] ==> p.Got?)
  {
    var p := GetMessage(buffer, cap);
    PollTakesNext(buffer, later, cap);
    if p.Got? {
      BringsBehind(p.message, Messages(p.rest + later, cap), payloads);
    } else {
      assert [] + Messages(p.rest + later, cap) == Messages(p.rest + later, cap);
      assert buffer + [] == buffer;
    }
  }

  /** From any state of a write before its end: if the bytes still to be heard begin with data
      messages that lead to the end, every turn of the phase brings it closer. */
  lemma {:induction false} TurnsComplete(r: Intake, turns: seq<Turn>, payloads: seq<seq<byte>>, n: nat, cap: nat)
    requires !r.cursor.done && r.cursor.address + |Concat(payloads)| == End(r.cursor)
    requires forall t :: t in turns ==> t.handlerOk
    requires Small(payloads, cap)
    requires Brings(Messages(r.rx + Arrivals(turns), cap), payloads)
    requires QuietAtEnd(turns, n) && n > |payloads|
    requires TakeTurns(r, turns, cap).0.timely
    ensures var (end, reason) := TakeTurns(r, turns, cap);
            && reason == Complete && end.cursor.done && end.cursor.address == End(r.cursor)
            && Sent(end.cursor.handled) == Sent(r.cursor.handled) + Concat(payloads)
    decreases |turns|
  {
    if r.cursor.address == End(r.cursor) {
      AtEndNothingIsHeard(r, turns[0], cap);
      assert Concat(payloads) == [];
      assert Sent(r.cursor.handled) + [] == Sent(r.cursor.handled);
    } else {
      TurnTowardsEnd(r, turns, payloads, cap);
      QuietBehind(turns, n);
      var (next, reason) := TakeTurn(r, turns[0], cap);
      if reason == Moved {
        PayloadsBehind(payloads);
        TurnsComplete(next, turns[1..], payloads[1..], if n == |turns| then n - 1 else n, cap);
        SentAppend(r.cursor.handled, Chunk(r.cursor.address, payloads[0]));
        JoinedThrice(Sent(r.cursor.handled), payloads[0], Concat(payloads[1..]));
        assert Concat(payloads) == payloads[0] + Concat(payloads[1..]);
      } else {
        TurnsComplete(next, turns[1..], payloads, n, cap);
      }
    }
  }

  lemma QuietBehind(turns: seq<Turn>, n: nat)
    requires turns != [] && QuietAtEnd(turns, n)
    ensures QuietAtEnd(turns[1..], if n == |turns| then n - 1 else n)
    ensures n == |turns| ==> Arrivals(turns[1..]) == []
    ensures turns[0] in turns && forall t :: t in turns[1..] ==> t in turns
  {
    if n == |turns| {
      QuietArrivals(turns[1..]);
    }
  }

  lemma PayloadsBehind(payloads: seq<seq<byte>>)
    requires payloads != []
    ensures payloads[0] in payloads && forall bytes :: bytes in payloads[1..] ==> bytes in payloads
  {
  }

  /** One turn of it: the next payload is taken, or nothing is found yet. */
  lemma TurnTowardsEnd(r: Intake, turns: seq<Turn>, payloads: seq<seq<byte>>, cap: nat)
    requires !r.cursor.done && r.cursor.address + |Concat(payloads)| == End(r.cursor) && payloads != []
    requires r.cursor.address < End(r.cursor)
    requires turns != [] && turns[0].handlerOk && |payloads[0]| <= cap
    requires Brings(Messages(r.rx + Arrivals(turns), cap), payloads)
    requires TakeTurns(r, turns, cap).0.timely
    ensures var (next, reason) := TakeTurn(r, turns[0], cap);
            var left := if reason == Moved then payloads[1..] else payloads;
            && !next.cursor.done && next.cursor.address + |Concat(left)| == End(r.cursor) == End(next.cursor)
            && Brings(Messages(next.rx + Arrivals(turns[1..]), cap), left)
            && TakeTurns(r, turns, cap) == TakeTurns(next, turns[1..], cap)
            && next.cursor.handled == (if reason == Moved then r.cursor.handled + [Chunk(r.cursor.address, payloads[0])]
                                       else r.cursor.handled)
            && (reason == Moved || (reason == Requested && Arrivals(turns[1..]) != []))
  {
    var next := TakeTurn(r, turns[0], cap).0;
    assert next.timely by {
      if !(next.cursor.done || Failing(TakeTurn(r, turns[0], cap).1)) {
        TimelyBefore(next, turns[1..], cap);
      }
    }
    TurnPolls(r, turns, payloads, cap);
    if GetMessage(r.rx + turns[0].arrival, cap).Got? {
      DataTurn(r, turns[0], payloads[0], cap);
    }
  }

  /** The bytes a host sends for these payloads. */
  function Frames(payloads: seq<seq<byte>>): seq<byte>
    decreases |payloads|
  {
    if payloads == [] then [] else [CHAR_HASH] + Frame(payloads[0]) + Frames(payloads[1..])
  }

  lemma FrameFound(payload: seq<byte>, rest: seq<byte>, cap: nat)
    requires |payload| <= cap
    ensures var s := [CHAR_HASH] + Frame(payload) + rest;
            GetMessage(s, cap) == Got(Data(payload), rest) && !Waits(s)
  {
    FrameAfterPartialDone(0, payload, rest, cap);
    assert DONE[..0] + [CHAR_HASH] == [CHAR_HASH];
    NoErrorNoWait([CHAR_HASH] + Frame(payload) + rest, cap);
  }

  lemma FrameIsHeard(payload: seq<byte>, rest: seq<byte>, cap: nat)
    requires |payload| <= cap
    ensures Messages([CHAR_HASH] + Frame(payload) + rest, cap) == [Data(payload)] + Messages(rest, cap)
  {
    FrameFound(payload, rest, cap);
  }

  lemma {:induction false} FramesBring(payloads: seq<seq<byte>>, cap: nat)
    requires Small(payloads, cap)
    ensures Brings(Messages(Frames(payloads), cap), payloads)
    decreases |payloads|
  {
    if payloads != [] {
      assert payloads[0] in payloads;
      FrameIsHeard(payloads[0], Frames(payloads[1..]), cap);
      FramesBring(payloads[1..], cap);
      var others := Messages(Frames(payloads[1..]), cap);
      forall k | 0 <= k < |payloads| ensures ([Data(payloads[0])] + others)[k] == Data(payloads[k]) {
        if k > 0 {
          assert others[k - 1] == Data(payloads[1..][k - 1]);
        }
      }
    }
  }

  /** Completion: a host that sends data frames whose payloads fit the buffer and reach from the
      start address to the end of the operation has its write completed, however the bytes are
      split between the calls, if no call meets an unfinished frame, the handlers succeed, and
      the calls go on long enough behind the last byte. All the payloads are then written. */
  lemma WriteCompletes(p: MemoryFields, payloads: seq<seq<byte>>, turns: seq<Turn>, cap: nat)
    requires StartAddress(p) + |Concat(payloads)| == OperationEnd(MemSize(p), RegionEnd(p))
    requires Small(payloads, cap)
    requires Arrivals(turns) == Frames(payloads) && QuietAtEnd(turns, |payloads| + 1)
    requires forall t :: t in turns ==> t.handlerOk
    requires TakeTurns(Begin(p, []), turns, cap).0.timely
    ensures var (end, reason) := TakeTurns(Begin(p, []), turns, cap);
            && reason == Complete && end.cursor.done
            && end.cursor.address == OperationEnd(MemSize(p), RegionEnd(p))
            && Sent(end.cursor.handled) == Concat(payloads)
  {
    FramesBring(payloads, cap);
    assert [] + Arrivals(turns) == Arrivals(turns);
    TurnsComplete(Begin(p, []), turns, payloads, |payloads| + 1, cap);
    assert Sent([]) + Concat(payloads) == Concat(payloads);
  }

  lemma {:induction false} FramesJoin(a: seq<seq<byte>>, b: seq<seq<byte>>)
    ensures Frames(a) + Frames(b) == Frames(a + b)
    decreases |a|
  {
    if a == [] {
      assert [] + b == b;
    } else {
      assert (a + b)[1..] == a[1..] + b;
      FramesJoin(a[1..], b);
      JoinedThrice([CHAR_HASH] + Frame(a[0]), Frames(a[1..]), Frames(b));
    }
  }

  /** A poll of whole frames returns the first payload and leaves the other frames. */
  lemma WholeFramePolled(payloads: seq<seq<byte>>, cap: nat)
    requires Small(payloads, cap)
    ensures !Waits(Frames(payloads))
    ensures GetMessage(Frames(payloads), cap)
         == if payloads == [] then Incomplete([]) else Got(Data(payloads[0]), Frames(payloads[1..]))
  {
    if payloads != [] {
      assert payloads[0] in payloads;
      FrameFound(payloads[0], Frames(payloads[1..]), cap);
    }
  }

  /** A host whose frames arrive whole, any number of them at a time, never lets a call meet an
      unfinished one. */
  lemma {:induction false} WholeFramesInTime(
    r: Intake, turns: seq<Turn>, batches: seq<seq<seq<byte>>>, held: seq<seq<byte>>, cap: nat)
    requires r.rx == Frames(held) && r.timely && |turns| == |batches|
    requires Small(held, cap)
    requires forall k :: 0 <= k < |turns| ==> turns[k].arrival == Frames(batches[k])
    requires forall k :: 0 <= k < |turns| ==> Small(batches[k], cap)
    ensures TakeTurns(r, turns, cap).0.timely
    decreases |turns|
  {
    if turns != [] {
      assert Small(batches[0], cap);
      var now := held + batches[0];
      FramesJoin(held, batches[0]);
      WholeFramePolled(now, cap);
      var (next, reason) := TakeTurn(r, turns[0], cap);
      if !(next.cursor.done || Failing(reason)) {
        WholeFramesInTime(next, turns[1..], batches[1..], if now == [] then now else now[1..], cap);
      }
    }
  }

  // ----- The firmware's own form -----

  /** The handle fields of a transfer, and the device behind the read handler. */
  class Session {
    var address: uint32
    const memSize: uint32
    const regionEnd: uint32
    const dataBuffer: array<byte>
    var dataSize: nat
    var waiting: bool
    var done: bool
    ghost var handed: seq<Chunk>
    ghost var handled: seq<Chunk>

    constructor (p: MemoryFields, bufferSize: nat)
      ensures State() == StartOf(p) && dataBuffer.Length == bufferSize && fresh(dataBuffer)
    {
      address, memSize, regionEnd := StartAddress(p), MemSize(p), RegionEnd(p);
      dataBuffer := new byte[bufferSize](i => 0);
      dataSize, waiting, done := 0, false, false;
      handed, handled := [], [];
    }

    ghost function State(): Cursor
      reads this
    {
      Cursor(address, memSize, regionEnd, waiting, done, handed, handled)
    }

    /** The write callback: poll for a message, unless the end has been reached, and hand its
        data to the handler. */
    method ProcessIncoming(port: SerialPort, handlerOk: bool) returns (reason: Reason)
      modifies this`address, this`dataSize, this`waiting, this`done, this`handed, this`handled, dataBuffer, port`rx
      ensures var c, cap := old(State()), dataBuffer.Length;
              if c.address >= End(c) then
                (State(), reason) == Incoming(c, None, handlerOk, cap) && port.rx == old(port.rx)
              else
                var p := GetMessage(old(port.rx), cap);
                (State(), reason) == Incoming(c, Found(p), handlerOk, cap) && port.rx == p.rest
    {
      var opEnd := OperationEnd(memSize, regionEnd);
      if address > opEnd {
        return OutOfRangeOnEntry;
      }
      if address == opEnd {
        done := true;
        return Complete;
      }
      var polled, size := OpGetMessage(port, dataBuffer);
      if polled.Incomplete? {
        if !waiting {
          waiting := true;
        }
        return Requested;
      }
      reason := TakeMessage(polled.message, size, handlerOk);
    }

    /** Act on a message; the payload of a data message is in the buffer. */
    method TakeMessage(message: Message, size: nat, handlerOk: bool) returns (reason: Reason)
      requires address < OperationEnd(memSize, regionEnd)
      requires message.Data? ==> size == |message.bytes| <= dataBuffer.Length && dataBuffer[..size] == message.bytes
      modifies this`address, this`dataSize, this`waiting, this`done, this`handed, this`handled
      ensures (State(), reason) == Incoming(old(State()), Some(message), handlerOk, dataBuffer.Length)
    {
      var opEnd := OperationEnd(memSize, regionEnd);
      waiting := false;
      match message {
        case Done =>
          if regionEnd != 0 {
            return RefusedMessage;
          }
          done := true;
          return EndedByHost;
        case Data(_) =>
          dataSize := size;
          if dataSize > dataBuffer.Length || !RangeFits(address, dataSize, opEnd) {
            return RefusedRange;
          }
        case _ =>
          return RefusedMessage;
      }
      handed := handed + [Chunk(address, dataBuffer[..dataSize])];
      if !handlerOk {
        return HandlerFailed;
      }
      handled := handled + [Chunk(address, dataBuffer[..dataSize])];
      address := address + dataSize;
      return Moved;
    }

    /** The MAIN phase of a write: calls until one completes it or fails. */
    method Receive(port: SerialPort, turns: seq<Turn>) returns (reason: Reason, ghost intake: Intake)
      modifies this`address, this`dataSize, this`waiting, this`done, this`handed, this`handled, dataBuffer, port`rx
      ensures (intake, reason) == TakeTurns(Intake(old(State()), old(port.rx), [], [], true), turns, dataBuffer.Length)
      ensures State() == intake.cursor && port.rx == intake.rx
    {
      reason, intake := Requested, Intake(State(), port.rx, [], [], true);
      ghost var whole := TakeTurns(intake, turns, dataBuffer.Length);
      var left := turns;
      while left != []
        invariant State() == intake.cursor && port.rx == intake.rx
        invariant TakeTurns(intake, left, dataBuffer.Length) == whole
        invariant left == [] ==> reason == Requested
        decreases |left|
      {
        ghost var before := intake;
        port.Arrive(left[0].arrival);
        reason := ProcessIncoming(port, left[0].handlerOk);
        intake := TakeTurn(before, left[0], dataBuffer.Length).0;
        if done || Failing(reason) {
          return;
        }
        left, reason := left[1..], Requested;
      }
    }

    /** The read handler: fill the buffer from the device, byte by byte. */
    method ReadExecute(memory: seq<byte>)
      requires |memory| == memSize && address <= memSize
      modifies this`dataSize, dataBuffer
      ensures dataSize <= dataBuffer.Length
      ensures dataBuffer[..dataSize] == ReadChunk(memory, address, dataBuffer.Length)
    {
      var remaining := memSize - address;
      var size := if remaining < dataBuffer.Length then remaining else dataBuffer.Length;
      for i := 0 to size
        invariant dataBuffer[..i] == memory[address..address + i]
      {
        dataBuffer[i] := memory[address + i];
        assert dataBuffer[..i + 1] == dataBuffer[..i] + [memory[address + i]];
      }
      dataSize := size;
    }

    /** The read callback. */
    method ProcessOutgoing(memory: seq<byte>, acknowledged: bool) returns (reason: Reason)
      requires |memory| == memSize
      modifies this`address, this`dataSize, this`done, this`handed, this`handled, dataBuffer
      ensures (State(), reason) == Outgoing(old(State()), memory, acknowledged, dataBuffer.Length)
    {
      var opEnd := OperationEnd(memSize, regionEnd);
      if address > opEnd {
        return OutOfRangeOnEntry;
      }
      if address == opEnd {
        done := true;
        return Complete;
      }
      ReadExecute(memory);
      ghost var whole := dataBuffer[..dataSize];
      if dataSize > opEnd - address {
        dataSize := opEnd - address;
      }
      assert dataBuffer[..dataSize] == Cut(whole, opEnd - address);
      handed := handed + [Chunk(address, dataBuffer[..dataSize])];
      if !acknowledged {
        return NotAcknowledged;
      }
      handled := handled + [Chunk(address, dataBuffer[..dataSize])];
      address := address + dataSize;
      if address >= opEnd {
        done := true;
      }
      return Moved;
    }
  }
}
