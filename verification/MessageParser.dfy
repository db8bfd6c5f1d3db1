/** The host messages inside a command: "OK", "DONE" and '#' data frames, found one call at a
    time in whatever bytes have arrived. */
module MessageParser {
  import opened Bytes
  import opened Cobs
  import opened SerialFrames

  const CHAR_O: byte := 0x4F
  const CHAR_K: byte := 0x4B
  const CHAR_D: byte := 0x44
  const CHAR_HASH: byte := 0x23
  const DONE: seq<byte> := [0x44, 0x4F, 0x4E, 0x45]
  const OK: seq<byte> := [0x4F, 0x4B]

  datatype Message = Ack | Done | Data(bytes: seq<byte>) | Error(code: int)

  datatype Poll = Incomplete(rest: seq<byte>) | Got(message: Message, rest: seq<byte>)

  /** How many leading bytes of `s` continue "DONE" from its letter `k` on. */
  function Matched(s: seq<byte>, k: nat): nat
    decreases |s|
  {
    if k < 4 && s != [] && s[0] == DONE[k] then 1 + Matched(s[1..], k + 1) else 0
  }

  lemma {:induction false} MatchedBounds(s: seq<byte>, k: nat)
    requires k <= 4
    ensures Matched(s, k) <= |s| && Matched(s, k) <= 4 - k
    decreases |s|
  {
    if k < 4 && s != [] && s[0] == DONE[k] {
      MatchedBounds(s[1..], k + 1);
    }
  }

  /** One call on the buffered bytes, with `cap` the size of the data buffer. */
  function GetMessage(s: seq<byte>, cap: nat): (p: Poll)
    ensures p.Incomplete? ==> |p.rest| <= |s|
    ensures p.Got? ==> |p.rest| < |s|
    decreases |s|
  {
    if s == [] then Incomplete([])
    else if s[0] == CHAR_O then
      if |s| < 2 then Incomplete(s)
      else if s[1] == CHAR_K then Got(Ack, s[2..])
      else GetMessage(s[1..], cap)
    else if s[0] == CHAR_D then
      if |s| < 4 then Incomplete(s)
      else
        MatchedBounds(s[1..], 1);
        var matched := Matched(s, 0);
        if matched == 4 then Got(Done, s[4..]) else GetMessage(s[matched..], cap)
    else if s[0] == CHAR_HASH then
      DecodeStopsAfterDelimiter(START, s[1..], cap);
      AfterDelimiterShorter(s[1..]);
      match Decode(s[1..], cap)
      case (Payload(p), rest) => Got(Data(p), rest)
      case (Failure(code), rest) => Got(Error(code), rest)
    else GetMessage(s[1..], cap)
  }

  lemma {:induction false} AfterDelimiterShorter(s: seq<byte>)
    ensures |AfterDelimiter(s)| <= |s|
    decreases |s|
  {
    if s != [] && s[0] != 0 {
      AfterDelimiterShorter(s[1..]);
    }
  }

  /** The call would reach a data frame whose delimiter has not arrived, and wait for it. */
  predicate Waits(s: seq<byte>)
    decreases |s|
  {
    if s == [] then false
    else if s[0] == CHAR_O then
      |s| >= 2 && s[1] != CHAR_K && Waits(s[1..])
    else if s[0] == CHAR_D then
      |s| >= 4 && (MatchedBounds(s[1..], 1); Matched(s, 0) < 4 && Waits(s[Matched(s, 0)..]))
    else if s[0] == CHAR_HASH then
      0 !in s[1..]
    else Waits(s[1..])
  }

  // ----- Fragmentation -----

  lemma {:induction false} MatchedExtends(s: seq<byte>, t: seq<byte>, k: nat)
    requires |s| + k >= 4
    ensures Matched(s + t, k) == Matched(s, k)
    decreases |s|
  {
    if k < 4 && s != [] {
      assert (s + t)[0] == s[0] && (s + t)[1..] == s[1..] + t;
      if s[0] == DONE[k] {
        MatchedExtends(s[1..], t, k + 1);
      }
    }
  }

  /** More bytes do not change a message that a call has found. */
  lemma {:induction false} FoundStaysFound(s: seq<byte>, t: seq<byte>, cap: nat)
    requires GetMessage(s, cap).Got? && !Waits(s)
    ensures GetMessage(s + t, cap) == Got(GetMessage(s, cap).message, GetMessage(s, cap).rest + t)
    ensures !Waits(s + t)
    decreases |s|
  {
    var w := s + t;
    assert w[0] == s[0] && w[1..] == s[1..] + t;
    if s[0] == CHAR_O {
      assert w[1] == s[1];
      if s[1] == CHAR_K {
        assert w[2..] == s[2..] + t;
      } else {
        FoundStaysFound(s[1..], t, cap);
      }
    } else if s[0] == CHAR_D {
      MatchedExtends(s, t, 0);
      MatchedBounds(s[1..], 1);
      var m := Matched(s, 0);
      assert w[m..] == s[m..] + t;
      if m < 4 {
        FoundStaysFound(s[m..], t, cap);
      }
    } else if s[0] == CHAR_HASH {
      DecodeExtends(START, s[1..], t, cap);
    } else {
      FoundStaysFound(s[1..], t, cap);
    }
  }

  /** A call that found nothing has thrown away only bytes that no later byte can save. */
  lemma {:induction false} NothingFoundKeepsRest(s: seq<byte>, t: seq<byte>, cap: nat)
    requires GetMessage(s, cap).Incomplete?
    ensures GetMessage(s + t, cap) == GetMessage(GetMessage(s, cap).rest + t, cap)
    ensures Waits(s + t) <==> Waits(GetMessage(s, cap).rest + t)
    decreases |s|
  {
    var w := s + t;
    if s == [] {
    } else {
      assert w[0] == s[0] && w[1..] == s[1..] + t;
      if s[0] == CHAR_O {
        if |s| >= 2 {
          assert w[1] == s[1];
          NothingFoundKeepsRest(s[1..], t, cap);
        }
      } else if s[0] == CHAR_D {
        if |s| >= 4 {
          MatchedExtends(s, t, 0);
          MatchedBounds(s[1..], 1);
          var m := Matched(s, 0);
          assert w[m..] == s[m..] + t;
          NothingFoundKeepsRest(s[m..], t, cap);
        }
      } else {
        NothingFoundKeepsRest(s[1..], t, cap);
      }
    }
  }

  /** All the messages of a byte stream. */
  function Messages(s: seq<byte>, cap: nat): seq<Message>
    decreases |s|
  {
    if Waits(s) then []
    else match GetMessage(s, cap)
      case Incomplete(_) => []
      case Got(m, rest) => [m] + Messages(rest, cap)
  }

  /** Bytes arrive, or the firmware calls. A call that would have to wait for the rest of a data
      frame completes only when a later call event finds the frame whole. */
  datatype Event = Arrive(bytes: seq<byte>) | Call

  function Arrived(events: seq<Event>): seq<byte>
    decreases |events|
  {
    if events == [] then []
    else (if events[0].Arrive? then events[0].bytes else []) + Arrived(events[1..])
  }

  /** The bytes left in the buffer and the messages returned. */
  function Run(buffer: seq<byte>, events: seq<Event>, cap: nat): (seq<byte>, seq<Message>)
    decreases |events|
  {
    if events == [] then (buffer, [])
    else match events[0]
      case Arrive(bytes) => Run(buffer + bytes, events[1..], cap)
      case Call =>
        if Waits(buffer) then Run(buffer, events[1..], cap)
        else match GetMessage(buffer, cap)
          case Incomplete(rest) => Run(rest, events[1..], cap)
          case Got(m, rest) =>
            var later := Run(rest, events[1..], cap);
            (later.0, [m] + later.1)
  }

  /** The messages returned, followed by those still in the buffer, are the messages of the
      whole stream, however it was split across calls. */
  lemma {:induction false} FragmentationIndependent(buffer: seq<byte>, events: seq<Event>, cap: nat)
    ensures var end := Run(buffer, events, cap);
            end.1 + Messages(end.0, cap) == Messages(buffer + Arrived(events), cap)
    decreases |events|
  {
    if events == [] {
      assert buffer + [] == buffer;
    } else {
      var later := Arrived(events[1..]);
      match events[0]
      case Arrive(bytes) =>
        assert buffer + (bytes + later) == buffer + bytes + later;
        FragmentationIndependent(buffer + bytes, events[1..], cap);
      case Call =>
        assert [] + later == later;
        if Waits(buffer) {
          FragmentationIndependent(buffer, events[1..], cap);
        } else {
          match GetMessage(buffer, cap)
          case Incomplete(rest) =>
            NothingFoundKeepsRest(buffer, later, cap);
            FragmentationIndependent(rest, events[1..], cap);
          case Got(m, rest) =>
            FoundStaysFound(buffer, later, cap);
            FragmentationIndependent(rest, events[1..], cap);
        }
    }
  }

  /** Two ways of splitting one stream that both end with nothing left to report return the same
      messages in the same order. */
  lemma SplittingDoesNotMatter(a: seq<Event>, b: seq<Event>, cap: nat)
    requires Arrived(a) == Arrived(b)
    requires Messages(Run([], a, cap).0, cap) == [] && Messages(Run([], b, cap).0, cap) == []
    ensures Run([], a, cap).1 == Run([], b, cap).1
  {
    FragmentationIndependent([], a, cap);
    FragmentationIndependent([], b, cap);
    assert Run([], a, cap).1 + [] == Run([], a, cap).1;
    assert Run([], b, cap).1 + [] == Run([], b, cap).1;
  }

  // ----- What follows a stray partial "DONE" -----

  lemma {:induction false} MatchedPrefix(k: nat, n: nat, s: seq<byte>)
    requires n <= k < 4
    requires s == [] || s[0] != DONE[k]
    ensures Matched(DONE[n..k] + s, n) == k - n
    decreases k - n
  {
    if n < k {
      assert (DONE[n..k] + s)[1..] == DONE[n + 1..k] + s;
      MatchedPrefix(k, n + 1, s);
    } else {
      assert DONE[n..k] + s == s;
    }
  }

  /** A call skips exactly the partial "DONE" in front of a byte that does not continue it. */
  lemma PartialDoneSkipped(k: nat, s: seq<byte>, cap: nat)
    requires 0 < k < 4 && s != [] && s[0] != DONE[k] && k + |s| >= 4
    ensures GetMessage(DONE[..k] + s, cap) == GetMessage(s, cap)
  {
    var w := DONE[..k] + s;
    assert w == DONE[0..k] + s && w[0] == CHAR_D;
    MatchedPrefix(k, 0, s);
    assert w[k..] == s;
  }

  /** A data frame behind a partial "DONE" is never swallowed. */
  lemma FrameAfterPartialDone(k: nat, payload: seq<byte>, rest: seq<byte>, cap: nat)
    requires k < 4 && |payload| <= cap
    ensures GetMessage(DONE[..k] + [CHAR_HASH] + Frame(payload) + rest, cap) == Got(Data(payload), rest)
  {
    var s := [CHAR_HASH] + (Frame(payload) + rest);
    assert s[1..] == Frame(payload) + rest;
    RoundTrip(payload, rest, cap);
    assert GetMessage(s, cap) == Got(Data(payload), rest);
    assert DONE[..k] + [CHAR_HASH] + Frame(payload) + rest == DONE[..k] + s;
    if k > 0 {
      StuffLength([], WithChecksum(payload));
      PartialDoneSkipped(k, s, cap);
    } else {
      assert DONE[..0] + s == s;
    }
  }

  /** An "OK" behind a partial "DONE" is swallowed exactly when the partial word is the single
      letter D, whose next letter is also an O. */
  lemma AckAfterPartialDone(k: nat, rest: seq<byte>, cap: nat)
    requires 0 < k < 4
    ensures GetMessage(DONE[..k] + OK + rest, cap) == Got(Ack, rest) <==> k != 1
  {
    var s := OK + rest;
    assert s[2..] == rest && s[1..] == [CHAR_K] + rest;
    assert DONE[..k] + OK + rest == DONE[..k] + s;
    if k != 1 {
      PartialDoneSkipped(k, s, cap);
    } else {
      var w := DONE[..1] + s;
      assert w[0] == CHAR_D && w[1] == CHAR_O && w[2] == CHAR_K && |w| == 3 + |rest|;
      if |w| >= 4 {
        assert w[1..][1..] == [CHAR_K] + rest;
        assert Matched(w[1..][1..], 2) == 0;
        assert Matched(w[1..], 1) == 1;
        assert Matched(w, 0) == 2;
        assert w[2..] == [CHAR_K] + rest;
        assert GetMessage(w, cap) == GetMessage([CHAR_K] + rest, cap);
        assert ([CHAR_K] + rest)[1..] == rest;
        assert GetMessage([CHAR_K] + rest, cap) == GetMessage(rest, cap);
      }
    }
  }

  // ----- Waiting for an acknowledgement -----

  function Concat(arrivals: seq<seq<byte>>): seq<byte>
    decreases |arrivals|
  {
    if arrivals == [] then [] else arrivals[0] + Concat(arrivals[1..])
  }

  /** How a series of polls ends: whether it found an acknowledgement, the messages it was
      given, what is left in the buffer, the bytes that have not arrived yet, and whether no
      poll met a data frame that stayed unfinished. */
  datatype Wait = Wait(ok: bool, heard: seq<Message>, rest: seq<byte>, later: seq<seq<byte>>, timely: bool)

  function Hearing(heard: seq<Message>, w: Wait): Wait {
    w.(heard := heard + w.heard)
  }

  /** Poll once behind every arrival until an acknowledgement, a DONE or an error is found; data
      messages on the way are thrown away. There are as many arrivals as polls fit the
      deadline. */
  function WaitForAck(s: seq<byte>, cap: nat, arrivals: seq<seq<byte>>): (w: Wait)
    ensures w.ok ==> w.heard != []
    decreases |arrivals|
  {
    if arrivals == [] then Wait(false, [], s, [], true)
    else
      var buffer := s + arrivals[0];
      match GetMessage(buffer, cap)
      case Incomplete(rest) => WaitForAck(rest, cap, arrivals[1..])
      case Got(m, rest) =>
        if m.Data? then Hearing([m], WaitForAck(rest, cap, arrivals[1..]))
        else Wait(m.Ack?, [m], rest, arrivals[1..], !Waits(buffer))
  }

  /** Poll once behind every arrival, whatever is found. */
  function Listen(s: seq<byte>, cap: nat, arrivals: seq<seq<byte>>): (w: Wait)
    ensures w.later == []
    decreases |arrivals|
  {
    if arrivals == [] then Wait(false, [], s, [], true)
    else
      var buffer := s + arrivals[0];
      match GetMessage(buffer, cap)
      case Incomplete(rest) => Listen(rest, cap, arrivals[1..])
      case Got(m, rest) =>
        var w := Hearing([m], Listen(rest, cap, arrivals[1..]));
        w.(timely := w.timely && !Waits(buffer))
  }

  /** A data frame that never completes is an error, not a message. */
  lemma {:induction false} WaitingEndsInError(s: seq<byte>, cap: nat)
    requires Waits(s)
    ensures GetMessage(s, cap).Got? && GetMessage(s, cap).message.Error?
    decreases |s|
  {
    if s[0] == CHAR_O {
      WaitingEndsInError(s[1..], cap);
    } else if s[0] == CHAR_D {
      MatchedBounds(s[1..], 1);
      WaitingEndsInError(s[Matched(s, 0)..], cap);
    } else if s[0] == CHAR_HASH {
      NoDelimiterNoPayload(START, s[1..], cap);
    } else {
      WaitingEndsInError(s[1..], cap);
    }
  }

  lemma {:induction false} NoDelimiterNoPayload(d: Decoder, s: seq<byte>, cap: nat)
    requires 0 !in s
    ensures !Receive(d, s, cap).0.Delimited?
    decreases |s|
  {
    if s != [] {
      NoDelimiterNoPayload(Step(d, s[0]), s[1..], cap);
    }
  }

  /** The messages that a poll returned: none or one. */
  function Returned(p: Poll): seq<Message> {
    if p.Got? then [p.message] else []
  }

  /** What a poll takes from a stream is its next message, and only that. */
  lemma PollTakesNext(s: seq<byte>, later: seq<byte>, cap: nat)
    requires !Waits(s)
    ensures var p := GetMessage(s, cap);
            Messages(s + later, cap) == Returned(p) + Messages(p.rest + later, cap)
  {
    if GetMessage(s, cap).Incomplete? {
      NothingFoundKeepsRest(s, later, cap);
    } else {
      FoundStaysFound(s, later, cap);
    }
  }

  /** A poll that finds nothing, or anything but an error, has not met an unfinished frame. */
  lemma NoErrorNoWait(s: seq<byte>, cap: nat)
    requires GetMessage(s, cap).Got? ==> !GetMessage(s, cap).message.Error?
    ensures !Waits(s)
  {
    if Waits(s) {
      WaitingEndsInError(s, cap);
      assert false;
    }
  }

  /** One poll behind the bytes `first`, with `others` and `future` still to come. */
  lemma PollAmongArrivals(s: seq<byte>, first: seq<byte>, others: seq<byte>, future: seq<byte>, cap: nat)
    requires !Waits(s + first)
    ensures var p := GetMessage(s + first, cap);
            Messages(s + (first + others) + future, cap) == Returned(p) + Messages(p.rest + others + future, cap)
  {
    PollTakesNext(s + first, others + future, cap);
    Regrouped(s, first, others, future);
    JoinedThrice(GetMessage(s + first, cap).rest, others, future);
  }

  lemma Regrouped(a: seq<byte>, b: seq<byte>, c: seq<byte>, d: seq<byte>)
    ensures a + (b + c) + d == a + b + (c + d)
  {
  }

  lemma JoinedThrice(a: seq<byte>, b: seq<byte>, c: seq<byte>)
    ensures a + b + c == a + (b + c)
  {
  }

  lemma HeardInOrder(all: seq<Message>, one: seq<Message>, next: seq<Message>, heard: seq<Message>, left: seq<Message>)
    requires all == one + next && next == heard + left
    ensures all == one + heard + left
  {
  }

  /** Whatever a wait hears, it hears from the front of the stream, and it leaves the rest of
      the stream to later polls, with any bytes `future` behind it. */
  lemma {:induction false} WaitHears(s: seq<byte>, cap: nat, arrivals: seq<seq<byte>>, future: seq<byte>)
    requires WaitForAck(s, cap, arrivals).timely
    ensures var w := WaitForAck(s, cap, arrivals);
            Messages(s + Concat(arrivals) + future, cap) == w.heard + Messages(w.rest + Concat(w.later) + future, cap)
    decreases |arrivals|
  {
    if arrivals != [] {
      var p, others := GetMessage(s + arrivals[0], cap), Concat(arrivals[1..]);
      if p.Incomplete? || p.message.Data? {
        NoErrorNoWait(s + arrivals[0], cap);
        WaitHears(p.rest, cap, arrivals[1..], future);
        var w := WaitForAck(p.rest, cap, arrivals[1..]);
        PollAmongArrivals(s, arrivals[0], others, future, cap);
        HeardInOrder(Messages(s + Concat(arrivals) + future, cap), Returned(p), Messages(p.rest + others + future, cap),
                     w.heard, Messages(w.rest + Concat(w.later) + future, cap));
      } else {
        PollAmongArrivals(s, arrivals[0], others, future, cap);
      }
    }
  }

  lemma {:induction false} ListenHears(s: seq<byte>, cap: nat, arrivals: seq<seq<byte>>, future: seq<byte>)
    requires Listen(s, cap, arrivals).timely
    ensures var w := Listen(s, cap, arrivals);
            Messages(s + Concat(arrivals) + future, cap) == w.heard + Messages(w.rest + future, cap)
    decreases |arrivals|
  {
    if arrivals == [] {
      assert s + [] + future == s + future;
    } else {
      var p, others := GetMessage(s + arrivals[0], cap), Concat(arrivals[1..]);
      if p.Incomplete? {
        NoErrorNoWait(s + arrivals[0], cap);
      }
      ListenHears(p.rest, cap, arrivals[1..], future);
      var w := Listen(p.rest, cap, arrivals[1..]);
      PollAmongArrivals(s, arrivals[0], others, future, cap);
      HeardInOrder(Messages(s + Concat(arrivals) + future, cap), Returned(p), Messages(p.rest + others + future, cap),
                   w.heard, Messages(w.rest + future, cap));
    }
  }

  /** Data messages and then one acknowledgement. */
  ghost predicate DataThenAck(heard: seq<Message>) {
    && heard != [] && heard[|heard| - 1] == Ack
    && forall j :: 0 <= j < |heard| - 1 ==> heard[j].Data?
  }

  lemma {:induction false} AckIsHeard(s: seq<byte>, cap: nat, arrivals: seq<seq<byte>>)
    requires WaitForAck(s, cap, arrivals).ok
    ensures DataThenAck(WaitForAck(s, cap, arrivals).heard) && WaitForAck(s, cap, arrivals).timely
    decreases |arrivals|
  {
    var buffer := s + arrivals[0];
    match GetMessage(buffer, cap)
    case Incomplete(rest) => AckIsHeard(rest, cap, arrivals[1..]);
    case Got(m, rest) =>
      if m.Data? {
        AckIsHeard(rest, cap, arrivals[1..]);
      } else {
        NoErrorNoWait(buffer, cap);
      }
  }

  /** A wait that succeeds has consumed exactly one acknowledgement of the stream of all bytes
      before, during and after it: the first message behind any data messages. So two waits
      never share one. */
  lemma WaitConsumesOneAck(s: seq<byte>, cap: nat, arrivals: seq<seq<byte>>, future: seq<byte>)
    requires WaitForAck(s, cap, arrivals).ok
    ensures var w := WaitForAck(s, cap, arrivals);
            && DataThenAck(w.heard)
            && Messages(s + Concat(arrivals) + future, cap) == w.heard + Messages(w.rest + Concat(w.later) + future, cap)
  {
    AckIsHeard(s, cap, arrivals);
    WaitHears(s, cap, arrivals, future);
  }

  /** The last `n` of the arrivals bring nothing. */
  predicate QuietTail(arrivals: seq<seq<byte>>, n: nat) {
    n <= |arrivals| && forall k :: |arrivals| - n <= k < |arrivals| ==> arrivals[k] == []
  }

  lemma {:induction false} AllQuiet(arrivals: seq<seq<byte>>)
    requires QuietTail(arrivals, |arrivals|)
    ensures Concat(arrivals) == []
    decreases |arrivals|
  {
    if arrivals != [] {
      AllQuiet(arrivals[1..]);
    }
  }

  lemma QuietTailBehind(arrivals: seq<seq<byte>>, n: nat)
    requires arrivals != [] && QuietTail(arrivals, n)
    ensures QuietTail(arrivals[1..], if n == |arrivals| then n - 1 else n)
    ensures n == |arrivals| ==> Concat(arrivals[1..]) == []
  {
    if n == |arrivals| {
      AllQuiet(arrivals[1..]);
    }
  }

  /** A wait finds the acknowledgement that its bytes hold behind `n` data messages, however they
      arrive, if no poll meets an unfinished frame and the polls go on for `n + 1` times behind the
      last byte. */
  lemma {:induction false} WaitFindsAck(s: seq<byte>, cap: nat, arrivals: seq<seq<byte>>, n: nat, quiet: nat)
    requires AckAt(Messages(s + Concat(arrivals), cap), n)
    requires QuietTail(arrivals, quiet) && quiet > n && WaitForAck(s, cap, arrivals).timely
    ensures WaitForAck(s, cap, arrivals).ok && |WaitForAck(s, cap, arrivals).heard| == n + 1
    decreases |arrivals|
  {
    var buffer, later := s + arrivals[0], Concat(arrivals[1..]);
    QuietTailBehind(arrivals, quiet);
    if Waits(buffer) {
      WaitingEndsInError(buffer, cap);
      assert false;
    }
    var p := GetMessage(buffer, cap);
    JoinedThrice(s, arrivals[0], later);
    PollKeepsAck(buffer, later, cap, n);
    if p.Incomplete? {
      WaitFindsAck(p.rest, cap, arrivals[1..], n, quiet);
    } else if n > 0 {
      WaitFindsAck(p.rest, cap, arrivals[1..], n - 1, if quiet == |arrivals| then quiet - 1 else quiet);
    }
  }

  /** The messages hold an acknowledgement behind `n` data messages. */
  predicate AckAt(messages: seq<Message>, n: nat) {
    n < |messages| && messages[n] == Ack && forall j :: 0 <= j < n ==> messages[j].Data?
  }

  /** A poll takes the first of the data messages in front of an acknowledgement, or that itself;
      it finds nothing only if more is to come. */
  lemma PollKeepsAck(buffer: seq<byte>, later: seq<byte>, cap: nat, n: nat)
    requires !Waits(buffer) && AckAt(Messages(buffer + later, cap), n)
    ensures var p := GetMessage(buffer, cap);
            && (p.Incomplete? ==> later != [] && AckAt(Messages(p.rest + later, cap), n))
            && (p.Got? && n == 0 ==> p.message == Ack)
            && (p.Got? && n > 0 ==> p.message.Data? && AckAt(Messages(p.rest + later, cap), n - 1))
  {
    var p := GetMessage(buffer, cap);
    var others := Messages(p.rest + later, cap);
    PollTakesNext(buffer, later, cap);
    if p.Got? {
      assert ([p.message] + others)[0] == p.message;
      if n > 0 {
        AckBehind(p.message, others, n);
      }
    } else {
      assert [] + others == others;
      assert buffer + [] == buffer;
    }
  }

  lemma AckBehind(m: Message, others: seq<Message>, n: nat)
    requires n > 0 && AckAt([m] + others, n)
    ensures m.Data? && AckAt(others, n - 1)
  {
    assert ([m] + others)[0] == m;
    forall j | 0 <= j < n - 1 ensures others[j].Data? {
      assert ([m] + others)[j + 1] == others[j];
    }
  }

  /** Whole words are returned as what they say, behind any bytes that begin no message. */
  lemma WordsFound(rest: seq<byte>, cap: nat)
    ensures GetMessage(OK + rest, cap) == Got(Ack, rest)
    ensures GetMessage(DONE + rest, cap) == Got(Done, rest)
  {
    assert (OK + rest)[2..] == rest;
    var s := DONE + rest;
    assert s[4..] == rest;
    assert s[1..][1..] == s[2..] && s[1..][1..][1..] == s[3..];
    assert Matched(s[3..], 3) == 1 + Matched(s[3..][1..], 4);
    assert Matched(s[1..][1..], 2) == 2;
    assert Matched(s[1..], 1) == 3;
  }

  lemma JunkSkipped(b: byte, s: seq<byte>, cap: nat)
    requires b !in {CHAR_O, CHAR_D, CHAR_HASH}
    ensures GetMessage([b] + s, cap) == GetMessage(s, cap)
  {
    assert ([b] + s)[1..] == s;
  }

  /** A whole "DONE" behind a partial one is found. */
  lemma DoneAfterPartialDone(k: nat, rest: seq<byte>, cap: nat)
    requires k < 4
    ensures GetMessage(DONE[..k] + DONE + rest, cap) == Got(Done, rest)
  {
    WordsFound(rest, cap);
    assert DONE[..k] + DONE + rest == DONE[..k] + (DONE + rest);
    if k > 0 {
      PartialDoneSkipped(k, DONE + rest, cap);
    } else {
      assert DONE[..0] + (DONE + rest) == DONE + rest;
    }
  }

  // ----- The firmware's own form -----

  /** The non-blocking call. Bytes that arrive before the inter-byte deadline are in `port.rx`. */
  method OpGetMessage(port: SerialPort, buffer: array<byte>) returns (message: Poll, size: nat)
    modifies port`rx, buffer
    ensures message == GetMessage(old(port.rx), buffer.Length)
    ensures port.rx == message.rest
    ensures message.Got? && message.message.Data? ==>
              size == |message.message.bytes| <= buffer.Length && buffer[..size] == message.message.bytes
  {
    size := 0;
    while port.rx != []
      invariant GetMessage(port.rx, buffer.Length) == GetMessage(old(port.rx), buffer.Length)
      decreases |port.rx|
    {
      var peek := port.rx[0];
      if peek == CHAR_O {
        if |port.rx| < 2 {
          return Incomplete(port.rx), 0;
        }
        var o := port.Read();
        if port.rx[0] == CHAR_K {
          var k := port.Read();
          return Got(Ack, port.rx), 0;
        }
      } else if peek == CHAR_D {
        if |port.rx| < 4 {
          return Incomplete(port.rx), 0;
        }
        var matched := ConsumeDone(port);
        if matched == 4 {
          return Got(Done, port.rx), 0;
        }
      } else if peek == CHAR_HASH {
        var hash := port.Read();
        var res := ReadData(port, buffer, buffer.Length);
        if res < 0 {
          return Got(Error(res), port.rx), 0;
        }
        size := res;
        return Got(Data(buffer[..res]), port.rx), res;
      } else {
        var junk := port.Read();
      }
    }
    return Incomplete([]), 0;
  }

  /** Consume bytes while they continue "DONE". */
  method ConsumeDone(port: SerialPort) returns (matched: nat)
    modifies port`rx
    ensures matched == Matched(old(port.rx), 0) <= |old(port.rx)| && matched <= 4
    ensures port.rx == old(port.rx)[matched..]
  {
    matched := 0;
    while matched < 4 && port.rx != [] && port.rx[0] == DONE[matched]
      invariant matched <= 4 && matched <= |old(port.rx)|
      invariant port.rx == old(port.rx)[matched..]
      invariant matched + Matched(port.rx, matched) == Matched(old(port.rx), 0)
    {
      var b := port.Read();
      matched := matched + 1;
    }
  }

  /** Wait for an acknowledgement for as many polls as fit the deadline; `arrivals` are the bytes
      that come in before each of them. */
  method OpWaitForAck(port: SerialPort, buffer: array<byte>, arrivals: seq<seq<byte>>)
    returns (ok: bool, left: seq<seq<byte>>, ghost wait: Wait)
    modifies port`rx, buffer
    ensures wait == WaitForAck(old(port.rx), buffer.Length, arrivals)
    ensures ok == wait.ok && left == wait.later && port.rx == wait.rest
  {
    ghost var heard: seq<Message> := [];
    left := arrivals;
    while left != []
      invariant Hearing(heard, WaitForAck(port.rx, buffer.Length, left))
             == WaitForAck(old(port.rx), buffer.Length, arrivals)
      decreases |left|
    {
      port.Arrive(left[0]);
      ghost var waiting := port.rx;
      var found, size := OpGetMessage(port, buffer);
      left := left[1..];
      if found.Got? {
        HeardOneMore(heard, found.message, WaitForAck(port.rx, buffer.Length, left));
        heard := heard + [found.message];
        if !found.message.Data? {
          return found.message.Ack?, left, Wait(found.message.Ack?, heard, port.rx, left, !Waits(waiting));
        }
      }
    }
    return false, [], Wait(false, heard, port.rx, [], true);
  }

  /** Poll for messages, once behind every arrival. */
  method OpListen(port: SerialPort, buffer: array<byte>, arrivals: seq<seq<byte>>)
    returns (any: bool, ghost wait: Wait)
    modifies port`rx, buffer
    ensures wait == Listen(old(port.rx), buffer.Length, arrivals)
    ensures any == (wait.heard != []) && port.rx == wait.rest
  {
    if arrivals == [] {
      return false, Wait(false, [], port.rx, [], true);
    }
    port.Arrive(arrivals[0]);
    ghost var waiting := port.rx;
    var found, size := OpGetMessage(port, buffer);
    any, wait := OpListen(port, buffer, arrivals[1..]);
    if found.Got? {
      any, wait := true, Hearing([found.message], wait).(timely := wait.timely && !Waits(waiting));
    }
  }

  lemma HeardOneMore(heard: seq<Message>, m: Message, w: Wait)
    ensures Hearing(heard, Hearing([m], w)) == Hearing(heard + [m], w)
  {
    assert heard + ([m] + w.heard) == heard + [m] + w.heard;
  }
}
