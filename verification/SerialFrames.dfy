/** Frame transport over the serial port: the in-place streaming decoder, its recovery drain
    and the streaming encoder. */
module SerialFrames {
  import opened Bytes
  import opened Cobs
  import opened RunningChecksum
  import Crc8

  /** The port as the frame code sees it. `rx` holds every byte that arrives before the
      inter-byte deadline passes, so an empty `rx` stands for host silence. */
  class SerialPort {
    var rx: seq<byte>
    var tx: seq<byte>

    constructor (input: seq<byte>)
      ensures rx == input && tx == []
    {
      rx := input;
      tx := [];
    }

    method Read() returns (b: byte)
      requires rx != []
      modifies this`rx
      ensures [b] + rx == old(rx)
    {
      b := rx[0];
      rx := rx[1..];
    }

    method Arrive(bytes: seq<byte>)
      modifies this`rx
      ensures rx == old(rx) + bytes
    {
      rx := rx + bytes;
    }

    method Write(b: byte)
      modifies this`tx
      ensures tx == old(tx) + [b]
    {
      tx := tx + [b];
    }

    method WriteBytes(s: seq<byte>)
      modifies this`tx
      ensures tx == old(tx) + s
    {
      tx := tx + s;
    }
  }

  /** Read up to and including the next delimiter, or until the host falls silent. */
  method DrainToDelimiter(port: SerialPort)
    modifies port`rx
    ensures port.rx == AfterDelimiter(old(port.rx))
  {
    while port.rx != []
      invariant AfterDelimiter(port.rx) == AfterDelimiter(old(port.rx))
      decreases |port.rx|
    {
      var d := port.Read();
      if d == 0 {
        return;
      }
    }
  }

  /** The decoded bytes held in the buffer and in the lookahead. */
  function Held(buffer: array<byte>, out: nat, hasLast: bool, lastByte: byte): seq<byte>
    requires out <= buffer.Length
    reads buffer
  {
    buffer[..out] + if hasLast then [lastByte] else []
  }

  /** Commit the lookahead byte, if there is one and the buffer has room, to make room for `b`
      in the lookahead. */
  method Push(buffer: array<byte>, cap: nat, out: nat, hasLast: bool, lastByte: byte, b: byte)
    returns (overflow: bool, newOut: nat)
    requires out <= cap <= buffer.Length && (out > 0 ==> hasLast)
    modifies buffer
    ensures overflow <==> |old(Held(buffer, out, hasLast, lastByte))| > cap
    ensures newOut <= cap
    ensures overflow ==> buffer[..] == old(buffer[..])
    ensures !overflow ==> Held(buffer, newOut, true, b) == old(Held(buffer, out, hasLast, lastByte)) + [b]
    ensures forall k :: newOut <= k < buffer.Length ==> buffer[k] == old(buffer[k])
  {
    overflow, newOut := false, out;
    if hasLast {
      if out >= cap {
        overflow := true;
        return;
      }
      buffer[out] := lastByte;
      newOut := out + 1;
    }
  }

  /** Decode one frame from the port into `buffer`. The result is the payload length, or the
      negative code of the failure; the port is left behind the first delimiter. */
  method ReadData(port: SerialPort, buffer: array<byte>, cap: nat) returns (res: int)
    requires cap <= buffer.Length
    modifies port`rx, buffer
    ensures port.rx == Decode(old(port.rx), cap).1
    ensures match Decode(old(port.rx), cap).0
            case Payload(p) => res == |p| <= cap && buffer[..res] == p && buffer[res..] == old(buffer[res..])
            case Failure(code) => res == code < 0
    ensures buffer[cap..] == old(buffer[cap..])
  {
    var out: nat, blockRemaining: nat := 0, 0;
    var was254Run, zeroPending, hasLast := false, false, false;
    var lastByte: byte := 0;
    var overflow: bool;

    while true
      invariant out <= cap && (out > 0 ==> hasLast)
      invariant Receive(Decoder(Held(buffer, out, hasLast, lastByte), blockRemaining, was254Run, zeroPending),
                        port.rx, cap) == Receive(START, old(port.rx), cap)
      invariant forall k :: out <= k < buffer.Length ==> buffer[k] == old(buffer[k])
      decreases |port.rx|
    {
      ghost var before := Decoder(Held(buffer, out, hasLast, lastByte), blockRemaining, was254Run, zeroPending);
      ghost var stream := port.rx;
      if port.rx == [] {
        return -1;
      }
      var b := port.Read();
      if b == 0 {
        if blockRemaining != 0 {
          return -3;
        }
        break;
      }
      if blockRemaining > 0 {
        overflow, out := Push(buffer, cap, out, hasLast, lastByte, b);
        if overflow {
          DrainToDelimiter(port);
          return -2;
        }
        lastByte, hasLast := b, true;
        blockRemaining := blockRemaining - 1;
        if blockRemaining == 0 && !was254Run {
          zeroPending := true;
        }
      } else {
        if zeroPending {
          overflow, out := Push(buffer, cap, out, hasLast, lastByte, 0);
          if overflow {
            DrainToDelimiter(port);
            return -2;
          }
          lastByte, hasLast := 0, true;
          zeroPending := false;
        }
        was254Run := b == 0xFF;
        blockRemaining := b - 1;
        if blockRemaining == 0 && !was254Run {
          zeroPending := true;
        }
      }
      assert Decoder(Held(buffer, out, hasLast, lastByte), blockRemaining, was254Run, zeroPending) == Step(before, b);
    }

    res := CheckFrame(buffer, out, hasLast, lastByte);
  }

  /** Normal frame end: the lookahead byte is the checksum of the committed ones. */
  method CheckFrame(buffer: array<byte>, out: nat, hasLast: bool, lastByte: byte) returns (res: int)
    requires out <= buffer.Length && (out > 0 ==> hasLast)
    ensures match Finish(0, Held(buffer, out, hasLast, lastByte))
            case Payload(p) => res == out == |p| && buffer[..out] == p
            case Failure(code) => res == code < 0
  {
    if !hasLast {
      return -1;
    }
    ghost var held := Held(buffer, out, hasLast, lastByte);
    assert held[..out] == buffer[..out] && held[out] == lastByte;
    var crc := ChecksumOf(buffer, out);
    if crc != lastByte {
      return -4;
    }
    return out;
  }

  method ChecksumOf(buffer: array<byte>, size: nat) returns (crc: byte)
    requires size <= buffer.Length
    ensures crc == Crc8.Checksum(buffer[..size])
  {
    var r: bv8 := 0;
    for k := 0 to size
      invariant r == Register(Crc8.Step, 0, buffer[..k])
    {
      RegisterAppend(Crc8.Step, 0, buffer[..k], buffer[k]);
      assert buffer[..k + 1] == buffer[..k] + [buffer[k]];
      r := Crc8.Step(r, buffer[k]);
    }
    crc := Value(r);
  }

  /** Emit a run code and the `len` bytes behind it. */
  method EmitRun(port: SerialPort, code: byte, buffer: array<byte>, start: nat, len: nat)
    requires start + len <= buffer.Length
    modifies port`tx
    ensures port.tx == old(port.tx) + ([code] + buffer[start..start + len])
  {
    port.Write(code);
    if len > 0 {
      port.WriteBytes(buffer[start..start + len]);
    }
  }

  /** Emit what is left after the payload loop: the open run and the checksum. */
  method EmitChecksum(port: SerialPort, buffer: array<byte>, start: nat, len: nat, crc: byte)
    requires start + len <= buffer.Length && len < MAX_RUN
    modifies port`tx
    ensures port.tx == old(port.tx) + Stuff(buffer[start..start + len], [crc])
  {
    ghost var run := buffer[start..start + len];
    if crc == 0 {
      EmitRun(port, len + 1, buffer, start, len);
      port.Write(0x01);
      assert [crc][1..] == [];
    } else {
      EmitRun(port, len + 2, buffer, start, len);
      port.Write(crc);
      assert [crc][1..] == [];
    }
  }

  /** Emit the finished runs of a payload. The last run stays open, for the byte behind the
      payload still belongs to it. */
  method EmitPayload(port: SerialPort, buffer: array<byte>, size: nat, ghost content: seq<byte>)
    returns (runStart: nat, runLen: nat)
    requires size <= buffer.Length && |content| == size + 1 && content[..size] == buffer[..size]
    modifies port`tx
    ensures runStart + runLen == size && runLen < MAX_RUN
    ensures port.tx + Stuff(buffer[runStart..size], content[size..]) == old(port.tx) + Stuff([], content)
  {
    runStart, runLen := 0, 0;
    for i := 0 to size
      invariant runStart + runLen == i && runLen < MAX_RUN
      invariant port.tx + Stuff(buffer[runStart..i], content[i..]) == old(port.tx) + Stuff([], content)
    {
      ghost var sent, run, rest := port.tx, buffer[runStart..i], content[i..];
      assert rest[0] == content[..size][i] == buffer[i] && rest[1..] == content[i + 1..] && |rest| > 1;
      if buffer[i] == 0 {
        EmitRun(port, runLen + 1, buffer, runStart, runLen);
        runStart, runLen := i + 1, 0;
        assert buffer[i + 1..i + 1] == [];
        assert sent + Stuff(run, rest) == port.tx + Stuff([], rest[1..]);
      } else {
        runLen := runLen + 1;
        assert buffer[runStart..i + 1] == run + [buffer[i]];
        if runLen == 254 {
          EmitRun(port, 0xFF, buffer, runStart, 254);
          runStart, runLen := i + 1, 0;
          assert buffer[i + 1..i + 1] == [];
          assert sent + Stuff(run, rest) == port.tx + Stuff([], rest[1..]);
        }
      }
    }
  }

  /** Emit the stuffed payload and checksum. */
  method EmitContent(port: SerialPort, buffer: array<byte>, size: nat, crc: byte)
    requires size <= buffer.Length
    modifies port`tx
    ensures port.tx == old(port.tx) + Stuff([], buffer[..size] + [crc])
  {
    ghost var content := buffer[..size] + [crc];
    var runStart, runLen := EmitPayload(port, buffer, size, content);
    assert content[size..] == [crc];
    EmitChecksum(port, buffer, runStart, runLen, crc);
  }

  /** Emit the frame of the first `size` bytes of `buffer`. */
  method CommunicationWrite(port: SerialPort, buffer: array<byte>, size: nat) returns (written: nat)
    requires size <= buffer.Length
    modifies port`tx
    ensures written == size
    ensures port.tx == old(port.tx) + Frame(buffer[..size])
  {
    var crc := ChecksumOf(buffer, size);
    ghost var payload := buffer[..size];
    EmitContent(port, buffer, size, crc);
    FrameOf(payload, crc);
    port.Write(0x00);
    return size;
  }
}
