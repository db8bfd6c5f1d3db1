/** The frame codec on values: Consistent Overhead Byte Stuffing (Cheshire and Baker,
    SIGCOMM 1997, section 3) around a payload followed by its CRC-8, closed by a zero byte.
    The methods of module SerialFrames are proved against the functions of this module. */
module Cobs {
  import opened Bytes
  import Crc8

  /** Longest run of nonzero bytes behind one run code. */
  const MAX_RUN := 254

  // ----- Encoding -----

  /** The stuffing of `run + rest`, where `run` holds the nonzero bytes still waiting for
      their run code. */
  function Stuff(run: seq<byte>, rest: seq<byte>): seq<byte>
    requires |run| < MAX_RUN
    decreases |rest|
  {
    if rest == [] then
      [|run| + 1] + run
    else if rest[0] == 0 then
      [|run| + 1] + run + Stuff([], rest[1..])
    else if |run| + 1 < MAX_RUN then
      Stuff(run + [rest[0]], rest[1..])
    else if |rest| == 1 then
      [0xFF] + run + rest
    else
      [0xFF] + run + [rest[0]] + Stuff([], rest[1..])
  }

  /** The logical content of the frame of a payload. */
  function WithChecksum(payload: seq<byte>): seq<byte> {
    payload + [Crc8.Checksum(payload)]
  }

  /** The wire bytes of the frame of a payload. */
  function Frame(payload: seq<byte>): seq<byte> {
    Stuff([], WithChecksum(payload)) + [0]
  }

  // ----- Decoding -----

  /** The decoder between two bytes. `out` holds every decoded byte, so all but the last of
      them are committed to the buffer and the last one is the lookahead. */
  datatype Decoder = Decoder(out: seq<byte>, remaining: nat, was254: bool, zeroPending: bool)

  const START := Decoder([], 0, false, false)

  /** The decoded bytes that wire byte `b` releases. */
  function Released(d: Decoder, b: byte): seq<byte> {
    if d.remaining > 0 then [b] else if d.zeroPending then [0] else []
  }

  function Step(d: Decoder, b: byte): Decoder
    requires b != 0
  {
    var out := d.out + Released(d, b);
    if d.remaining > 0 then
      Decoder(out, d.remaining - 1, d.was254, d.zeroPending || (d.remaining == 1 && !d.was254))
    else
      Decoder(out, b - 1, b == 0xFF, b == 1)
  }

  datatype Decoded = Payload(bytes: seq<byte>) | Failure(code: int)

  /** What a frame is worth when the delimiter arrives `remaining` bytes before the end of a
      run, with `out` decoded. */
  function Finish(remaining: nat, out: seq<byte>): (r: Decoded)
    ensures r.Failure? ==> -4 <= r.code < 0
  {
    if remaining != 0 then Failure(-3)
    else if out == [] then Failure(-1)
    else
      var n := |out| - 1;
      if Crc8.Checksum(out[..n]) != out[n] then Failure(-4) else Payload(out[..n])
  }

  /** What is left of a stream after its first zero byte. */
  function AfterDelimiter(s: seq<byte>): seq<byte> {
    if s == [] then [] else if s[0] == 0 then s[1..] else AfterDelimiter(s[1..])
  }

  /** How the bytes of a frame end: with the delimiter `remaining` bytes before the end of a
      run, with more output than the capacity holds, or in the inter-byte timeout. */
  datatype Arrival = Delimited(remaining: nat, out: seq<byte>) | Overflowed | Silent

  /** Reading a buffered stream from state `d`: how it ends, and the bytes left unread. */
  function Receive(d: Decoder, s: seq<byte>, cap: nat): (Arrival, seq<byte>)
    decreases |s|
  {
    if s == [] then
      (Silent, [])
    else if s[0] == 0 then
      (Delimited(d.remaining, d.out), s[1..])
    else if Released(d, s[0]) != [] && |d.out| > cap then
      (Overflowed, AfterDelimiter(s[1..]))
    else
      Receive(Step(d, s[0]), s[1..], cap)
  }

  function Judge(a: Arrival): (r: Decoded)
    ensures r.Failure? ==> -4 <= r.code < 0
  {
    match a
    case Delimited(remaining, out) => Finish(remaining, out)
    case Overflowed => Failure(-2)
    case Silent => Failure(-1)
  }

  /** Decoding one frame: its outcome and the bytes left unread. */
  function Decode(s: seq<byte>, cap: nat): (r: (Decoded, seq<byte>))
    ensures r.0.Failure? ==> -4 <= r.0.code < 0
  {
    var (a, rest) := Receive(START, s, cap);
    (Judge(a), rest)
  }

  // ----- The delimiter marks the end of a frame and nothing else -----

  ghost predicate NoZero(s: seq<byte>) {
    forall i :: 0 <= i < |s| ==> s[i] != 0
  }

  lemma {:induction false} StuffHasNoZero(run: seq<byte>, rest: seq<byte>)
    requires |run| < MAX_RUN && NoZero(run)
    ensures NoZero(Stuff(run, rest))
    decreases |rest|
  {
    if rest == [] {
    } else if rest[0] == 0 {
      StuffHasNoZero([], rest[1..]);
    } else if |run| + 1 < MAX_RUN {
      StuffHasNoZero(run + [rest[0]], rest[1..]);
    } else if |rest| > 1 {
      StuffHasNoZero([], rest[1..]);
    }
  }

  /** The only zero byte of a frame is its last byte. */
  lemma FrameDelimitedOnce(payload: seq<byte>)
    ensures |Frame(payload)| > 1
    ensures forall i :: 0 <= i < |Frame(payload)| ==> (Frame(payload)[i] == 0 <==> i == |Frame(payload)| - 1)
  {
    StuffHasNoZero([], WithChecksum(payload));
    StuffLength([], WithChecksum(payload));
  }

  /** Stuffing costs one byte, plus at most one more for every 254 bytes. */
  lemma {:induction false} StuffLength(run: seq<byte>, rest: seq<byte>)
    requires |run| < MAX_RUN
    ensures |run| + |rest| < |Stuff(run, rest)|
    ensures |Stuff(run, rest)| <= |run| + |rest| + 1 + (|run| + |rest|) / MAX_RUN
    decreases |rest|
  {
    if rest == [] {
    } else if rest[0] == 0 {
      StuffLength([], rest[1..]);
    } else if |run| + 1 < MAX_RUN {
      StuffLength(run + [rest[0]], rest[1..]);
    } else if |rest| > 1 {
      StuffLength([], rest[1..]);
    }
  }

  lemma {:induction false} AfterFirstZero(pre: seq<byte>, post: seq<byte>)
    requires NoZero(pre)
    ensures AfterDelimiter(pre + [0] + post) == post
    decreases |pre|
  {
    var s := pre + [0] + post;
    if pre == [] {
      assert s[1..] == post;
    } else {
      assert s[1..] == pre[1..] + [0] + post;
      AfterFirstZero(pre[1..], post);
    }
  }

  // ----- Resynchronisation -----

  /** Whatever the decoder returns, it has read exactly through the first zero byte. */
  lemma {:induction false} DecodeStopsAfterDelimiter(d: Decoder, s: seq<byte>, cap: nat)
    ensures Receive(d, s, cap).1 == AfterDelimiter(s)
    decreases |s|
  {
    if s != [] && s[0] != 0 && !(Released(d, s[0]) != [] && |d.out| > cap) {
      DecodeStopsAfterDelimiter(Step(d, s[0]), s[1..], cap);
    }
  }

  lemma {:induction false} AfterDelimiterExtends(s: seq<byte>, t: seq<byte>)
    requires 0 in s
    ensures AfterDelimiter(s + t) == AfterDelimiter(s) + t && |AfterDelimiter(s)| < |s|
    decreases |s|
  {
    if s[0] == 0 {
      assert (s + t)[1..] == s[1..] + t;
    } else {
      assert (s + t)[1..] == s[1..] + t;
      AfterDelimiterExtends(s[1..], t);
    }
  }

  /** Once the delimiter is buffered, later bytes change nothing. */
  lemma {:induction false} DecodeExtends(d: Decoder, s: seq<byte>, t: seq<byte>, cap: nat)
    requires 0 in s
    ensures Receive(d, s + t, cap) == (Receive(d, s, cap).0, Receive(d, s, cap).1 + t)
    decreases |s|
  {
    assert (s + t)[0] == s[0] && (s + t)[1..] == s[1..] + t;
    if s[0] == 0 {
    } else if Released(d, s[0]) != [] && |d.out| > cap {
      AfterDelimiterExtends(s[1..], t);
    } else {
      DecodeExtends(Step(d, s[0]), s[1..], t, cap);
    }
  }

  /** A payload that the decoder returns fits the capacity. */
  lemma DecodedFits(s: seq<byte>, cap: nat)
    ensures Decode(s, cap).0.Payload? ==> |Decode(s, cap).0.bytes| <= cap
  {
    ReceivedFits(START, s, cap);
  }

  lemma {:induction false} ReceivedFits(d: Decoder, s: seq<byte>, cap: nat)
    requires |d.out| <= cap + 1
    ensures Receive(d, s, cap).0.Delimited? ==> |Receive(d, s, cap).0.out| <= cap + 1
    decreases |s|
  {
    if s != [] && s[0] != 0 && !(Released(d, s[0]) != [] && |d.out| > cap) {
      ReceivedFits(Step(d, s[0]), s[1..], cap);
    }
  }

  // ----- Round trip -----

  /** The decoder after a delimiter-free stretch, with no bound on the output. */
  function Run(d: Decoder, s: seq<byte>): Decoder
    requires NoZero(s)
    decreases |s|
  {
    if s == [] then d else Run(Step(d, s[0]), s[1..])
  }

  lemma {:induction false} RunConcat(d: Decoder, s: seq<byte>, t: seq<byte>)
    requires NoZero(s) && NoZero(t)
    ensures NoZero(s + t)
    ensures Run(d, s + t) == Run(Run(d, s), t)
    decreases |s|
  {
    if s == [] {
      assert s + t == t;
    } else {
      assert (s + t)[1..] == s[1..] + t;
      RunConcat(Step(d, s[0]), s[1..], t);
    }
  }

  lemma {:induction false} OutOnlyGrows(d: Decoder, s: seq<byte>)
    requires NoZero(s)
    ensures |d.out| <= |Run(d, s).out|
    decreases |s|
  {
    if s != [] {
      OutOnlyGrows(Step(d, s[0]), s[1..]);
    }
  }

  /** A frame arrives as what its bytes release, unless they release more than the capacity
      and the checksum. */
  lemma {:induction false} ReceiveIsRun(d: Decoder, s: seq<byte>, post: seq<byte>, cap: nat)
    requires NoZero(s) && |d.out| <= cap + 1
    ensures Receive(d, s + [0] + post, cap)
         == (if |Run(d, s).out| <= cap + 1 then Delimited(Run(d, s).remaining, Run(d, s).out) else Overflowed, post)
    decreases |s|
  {
    var w := s + [0] + post;
    if s == [] {
      assert w[1..] == post;
    } else {
      assert w[0] == s[0] && w[1..] == s[1..] + [0] + post;
      if Released(d, s[0]) != [] && |d.out| > cap {
        AfterFirstZero(s[1..], post);
        OutOnlyGrows(Step(d, s[0]), s[1..]);
      } else {
        ReceiveIsRun(Step(d, s[0]), s[1..], post, cap);
      }
    }
  }

  /** The bytes of a run pass through unchanged. */
  lemma {:induction false} RunOfData(d: Decoder, data: seq<byte>)
    requires NoZero(data) && d.remaining == |data| && !d.zeroPending
    requires data == [] ==> !d.was254
    ensures data != [] ==> Run(d, data) == Decoder(d.out + data, 0, d.was254, !d.was254)
    decreases |data|
  {
    if |data| == 1 {
      assert data[1..] == [];
    } else if data != [] {
      RunOfData(Step(d, data[0]), data[1..]);
      assert d.out + [data[0]] + data[1..] == d.out + data;
    }
  }

  /** The deferred zero that the next run code will release. */
  function Pending(d: Decoder): seq<byte> {
    if d.zeroPending then [0] else []
  }

  /** One run code and its data, read between two runs. */
  lemma RunOfBlock(d: Decoder, data: seq<byte>)
    requires d.remaining == 0 && NoZero(data) && |data| <= MAX_RUN
    ensures NoZero([|data| + 1] + data)
    ensures Run(d, [|data| + 1] + data)
         == Decoder(d.out + Pending(d) + data, 0, |data| == MAX_RUN, |data| < MAX_RUN)
  {
    var block := [|data| + 1] + data;
    assert block[1..] == data;
    var e := Step(d, block[0]);
    assert e == Decoder(d.out + Pending(d), |data|, |data| == MAX_RUN, data == []);
    if data == [] {
      assert d.out + Pending(d) + data == d.out + Pending(d);
    } else {
      RunOfData(e, data);
    }
  }

  /** Reading back a stuffed stream releases the stream itself. */
  lemma {:induction false} RunOfStuff(d: Decoder, run: seq<byte>, rest: seq<byte>)
    requires d.remaining == 0 && |run| < MAX_RUN && NoZero(run)
    ensures NoZero(Stuff(run, rest))
    ensures Run(d, Stuff(run, rest)).remaining == 0
    ensures Run(d, Stuff(run, rest)).out == d.out + Pending(d) + run + rest
    decreases |rest|
  {
    StuffHasNoZero(run, rest);
    if rest == [] {
      RunOfBlock(d, run);
    } else if rest[0] == 0 {
      var block := [|run| + 1] + run;
      RunOfBlock(d, run);
      StuffHasNoZero([], rest[1..]);
      RunConcat(d, block, Stuff([], rest[1..]));
      var e := Run(d, block);
      RunOfStuff(e, [], rest[1..]);
      assert e.out + Pending(e) + [] + rest[1..] == d.out + Pending(d) + run + rest;
    } else if |run| + 1 < MAX_RUN {
      RunOfStuff(d, run + [rest[0]], rest[1..]);
      assert d.out + Pending(d) + (run + [rest[0]]) + rest[1..] == d.out + Pending(d) + run + rest;
    } else {
      var data := run + [rest[0]];
      var block := [0xFF] + data;
      RunOfBlock(d, data);
      if |rest| == 1 {
        assert Stuff(run, rest) == block;
        assert d.out + Pending(d) + data == d.out + Pending(d) + run + rest;
      } else {
        assert Stuff(run, rest) == block + Stuff([], rest[1..]);
        StuffHasNoZero([], rest[1..]);
        RunConcat(d, block, Stuff([], rest[1..]));
        var e := Run(d, block);
        RunOfStuff(e, [], rest[1..]);
        assert e.out + Pending(e) + [] + rest[1..] == d.out + Pending(d) + run + rest;
      }
    }
  }

  /** A stuffed stream of any content is judged by that content alone. */
  lemma DecodeOfStuff(content: seq<byte>, post: seq<byte>, cap: nat)
    ensures Decode(Stuff([], content) + [0] + post, cap)
         == (if |content| <= cap + 1 then Finish(0, content) else Failure(-2), post)
  {
    RunOfStuff(START, [], content);
    assert START.out + Pending(START) + [] + content == content;
    ReceiveIsRun(START, Stuff([], content), post, cap);
  }

  /** The frame of a payload whose checksum is at hand. */
  lemma FrameOf(payload: seq<byte>, crc: byte)
    requires crc == Crc8.Checksum(payload)
    ensures Frame(payload) == Stuff([], payload + [crc]) + [0]
  {
  }

  /** Round trip: a payload within the capacity comes back unchanged, a longer one is refused
      with -2, and in both cases exactly the frame is consumed. */
  lemma RoundTrip(payload: seq<byte>, post: seq<byte>, cap: nat)
    ensures Decode(Frame(payload) + post, cap)
         == (if |payload| <= cap then Payload(payload) else Failure(-2), post)
  {
    var content := WithChecksum(payload);
    DecodeOfStuff(content, post, cap);
    assert content[..|payload|] == payload;
    assert Frame(payload) + post == Stuff([], content) + [0] + post;
  }

  /** A valid frame behind any garbage that ends in a delimiter is decoded by the next call. */
  lemma FrameAfterGarbage(garbage: seq<byte>, payload: seq<byte>, post: seq<byte>, cap: nat)
    requires NoZero(garbage) && |payload| <= cap
    ensures var first := Decode(garbage + [0] + (Frame(payload) + post), cap);
            Decode(first.1, cap) == (Payload(payload), post)
  {
    var tail := Frame(payload) + post;
    DecodeStopsAfterDelimiter(START, garbage + [0] + tail, cap);
    AfterFirstZero(garbage, tail);
    RoundTrip(payload, post, cap);
  }

  /** Changing exactly one decoded byte of a frame, in the payload or in the checksum, always
      makes the decoder report a checksum error. */
  lemma OneByteErrorDetected(payload: seq<byte>, i: nat, b: byte, post: seq<byte>, cap: nat)
    requires |payload| <= cap && i <= |payload| && b != WithChecksum(payload)[i]
    ensures Decode(Stuff([], WithChecksum(payload)[i := b]) + [0] + post, cap) == (Failure(-4), post)
  {
    var content := WithChecksum(payload)[i := b];
    DecodeOfStuff(content, post, cap);
    if i < |payload| {
      assert content[..|payload|] == payload[i := b];
      Crc8.OneByteChangesChecksum(payload, i, b);
    } else {
      assert content[..|payload|] == payload;
    }
  }

  // ----- The format itself: what any wire bytes mean -----

  /** The wire consists of whole blocks: a code byte c is the first of c bytes, and whole blocks
      follow. */
  predicate Whole(wire: seq<byte>)
    decreases |wire|
  {
    wire == [] || (0 < wire[0] <= |wire| && Whole(wire[wire[0]..]))
  }

  /** The content of the blocks on the wire, the last of them as far as it goes. A block stands
      for its data and a zero, except that a block of 254 data bytes and the last block stand
      for their data alone. */
  function Content(wire: seq<byte>): seq<byte>
    requires NoZero(wire)
    decreases |wire|
  {
    if wire == [] then []
    else
      var c := wire[0];
      if c >= |wire| then wire[1..]
      else wire[1..c] + (if c < 0xFF then [0] else []) + Content(wire[c..])
  }

  /** The bytes of a run that the delimiter cuts short pass through unchanged. */
  lemma {:induction false} RunOfPart(d: Decoder, data: seq<byte>)
    requires NoZero(data) && |data| < d.remaining
    ensures Run(d, data) == d.(out := d.out + data, remaining := d.remaining - |data|)
    decreases |data|
  {
    if data == [] {
      assert d.out + data == d.out;
    } else {
      RunOfPart(Step(d, data[0]), data[1..]);
      assert d.out + [data[0]] + data[1..] == d.out + data;
    }
  }

  /** Between two runs, the decoder releases the content of the wire, and it is between two runs
      again exactly when the wire consists of whole blocks. */
  lemma {:induction false} RunOfWire(d: Decoder, wire: seq<byte>)
    requires NoZero(wire) && d.remaining == 0
    ensures Run(d, wire).out == d.out + (if wire == [] then [] else Pending(d)) + Content(wire)
    ensures Run(d, wire).remaining == 0 <==> Whole(wire)
    decreases |wire|
  {
    if wire != [] {
      var c := wire[0];
      if c <= |wire| {
        var data, rest := wire[1..c], wire[c..];
        assert wire == [|data| + 1] + data + rest;
        RunOfBlock(d, data);
        RunConcat(d, [|data| + 1] + data, rest);
        var e := Run(d, [|data| + 1] + data);
        RunOfWire(e, rest);
        BlockContent(d.out + Pending(d), data, if rest == [] then [] else Pending(e), Content(rest));
      } else {
        RunOfPart(Step(d, c), wire[1..]);
      }
    }
  }

  lemma BlockContent(out: seq<byte>, data: seq<byte>, zero: seq<byte>, rest: seq<byte>)
    ensures out + data + zero + rest == out + (data + zero + rest)
  {
  }

  /** What a delimited frame must be worth, from its wire bytes alone. */
  function Worth(wire: seq<byte>, cap: nat): Decoded
    requires NoZero(wire)
  {
    var content := Content(wire);
    if |content| > cap + 1 then Failure(-2)
    else if !Whole(wire) then Failure(-3)
    else if content == [] then Failure(-1)
    else if Crc8.Checksum(content[..|content| - 1]) != content[|content| - 1] then Failure(-4)
    else Payload(content[..|content| - 1])
  }

  /** The decoder gives every delimited frame exactly its worth, valid, damaged or cut short. */
  lemma DecodeIsWorth(wire: seq<byte>, post: seq<byte>, cap: nat)
    requires NoZero(wire)
    ensures Decode(wire + [0] + post, cap) == (Worth(wire, cap), post)
  {
    RunFromStart(wire);
    ReceiveIsRun(START, wire, post, cap);
  }

  lemma RunFromStart(wire: seq<byte>)
    requires NoZero(wire)
    ensures Run(START, wire).out == Content(wire)
    ensures Run(START, wire).remaining == 0 <==> Whole(wire)
  {
    RunOfWire(START, wire);
  }

  /** A frame cut inside a run is never a payload: it gives -3, or -2 where it does not fit. */
  lemma CutFrameRefused(wire: seq<byte>, post: seq<byte>, cap: nat)
    requires NoZero(wire) && !Whole(wire)
    ensures Decode(wire + [0] + post, cap) == (Failure(if |Content(wire)| <= cap + 1 then -3 else -2), post)
  {
    DecodeIsWorth(wire, post, cap);
  }

  /** Without a delimiter there is no payload either: the timeout gives -1, or the overflow -2. */
  lemma {:induction false} SilenceRefused(d: Decoder, s: seq<byte>, cap: nat)
    requires NoZero(s) && |d.out| <= cap + 1
    ensures Receive(d, s, cap) == (if |Run(d, s).out| <= cap + 1 then Silent else Overflowed, [])
    decreases |s|
  {
    if s != [] {
      if Released(d, s[0]) != [] && |d.out| > cap {
        OutOnlyGrows(Step(d, s[0]), s[1..]);
        NothingAfter(s[1..]);
      } else {
        SilenceRefused(Step(d, s[0]), s[1..], cap);
      }
    }
  }

  lemma SilentStream(s: seq<byte>, cap: nat)
    requires NoZero(s)
    ensures Decode(s, cap) == (Failure(if |Content(s)| <= cap + 1 then -1 else -2), [])
  {
    SilenceRefused(START, s, cap);
    RunOfWire(START, s);
    assert Run(START, s).out == Content(s);
  }

  lemma {:induction false} NothingAfter(s: seq<byte>)
    requires NoZero(s)
    ensures AfterDelimiter(s) == []
    decreases |s|
  {
    if s != [] {
      NothingAfter(s[1..]);
    }
  }
}
