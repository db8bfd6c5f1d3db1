/** The page write of the 28C EEPROM family: bytes are loaded one after the other, and each
    stretch inside one physical page is polled for completion and read back on its own. */
module PageWrite {
  import opened Bytes

  const PAGE_SIZE_FALLBACK: bv16 := 64
  const PAGE_SIZE_MAX: bv16 := 512
  const POLL_MAX_READS := 2000

  // ----- Pages -----

  /** The flush mask of a delivered page size: a power of two up to 512, or the fallback. */
  function PageMask(requested: bv16): bv32 {
    if requested == 0 then (PAGE_SIZE_FALLBACK as bv32) - 1
    else if requested <= PAGE_SIZE_MAX && requested & (requested - 1) == 0 then (requested as bv32) - 1
    else (PAGE_SIZE_FALLBACK as bv32) - 1
  }

  /** Every page size that the mask may stand for. */
  predicate PageSize(x: bv16) {
    x == 1 || x == 2 || x == 4 || x == 8 || x == 16 || x == 32 || x == 64 || x == 128 || x == 256 || x == 512
  }

  /** The mask is one less than a page size: the delivered one where it is a page size, and 64
      for any other value, 0 included. */
  lemma MaskOfAnySize(requested: bv16)
    ensures PageMask(requested) == ((if PageSize(requested) then requested else 64) as bv32) - 1
    ensures LowBits(PageMask(requested))
  {
  }

  /** A mask of low bits. */
  predicate LowBits(mask: bv32) {
    mask & (mask + 1) == 0
  }

  /** The address of byte `i` of the block; addresses wrap at 32 bits. */
  function AddressOf(start: bv32, i: nat): bv32 {
    if i == 0 then start else AddressOf(start, i - 1) + 1
  }

  /** The physical page of an address, as the address of its first byte. */
  function PageOf(address: bv32, mask: bv32): bv32 {
    address & !mask
  }

  predicate Boundary(address: bv32, mask: bv32) {
    address & mask == 0
  }

  lemma NextStaysOnPage(address: bv32, mask: bv32)
    requires LowBits(mask) && !Boundary(address + 1, mask)
    ensures PageOf(address + 1, mask) == PageOf(address, mask)
  {
  }

  // ----- Windows -----

  /** Bytes `first` up to and excluding `end`, flushed together and read back from operation
      number `read` on. */
  datatype Window = Window(first: nat, end: nat, read: nat)

  /** Bytes `j` and `k` of the block lie on the same physical page. */
  predicate SamePage(start: bv32, mask: bv32, j: nat, k: nat) {
    PageOf(AddressOf(start, j), mask) == PageOf(AddressOf(start, k), mask)
  }

  /** The window lies inside one page and cannot be longer: it begins at the start of the block
      or of a page, and it ends at the end of the block or of its page. */
  predicate OnePage(start: bv32, mask: bv32, size: nat, first: nat, end: nat) {
    && first < end <= size
    && (forall k :: first <= k < end ==> SamePage(start, mask, first, k))
    && (first == 0 || Boundary(AddressOf(start, first), mask))
    && (end == size || Boundary(AddressOf(start, end), mask))
  }

  /** A window opened at byte `first` that has not reached the end of its page before byte `i`. */
  predicate Open(start: bv32, mask: bv32, size: nat, first: nat, i: nat) {
    && first <= i <= size
    && (forall k :: first <= k < i ==> SamePage(start, mask, first, k))
    && (i < size ==> SamePage(start, mask, first, i))
    && (first == 0 || first == size || Boundary(AddressOf(start, first), mask))
  }

  lemma OpenGrows(start: bv32, mask: bv32, size: nat, first: nat, i: nat)
    requires LowBits(mask) && Open(start, mask, size, first, i) && i + 1 < size
    requires !Boundary(AddressOf(start, i + 1), mask)
    ensures Open(start, mask, size, first, i + 1)
  {
    NextStaysOnPage(AddressOf(start, i), mask);
  }

  lemma OpenCloses(start: bv32, mask: bv32, size: nat, first: nat, i: nat)
    requires Open(start, mask, size, first, i) && i < size
    requires i + 1 == size || Boundary(AddressOf(start, i + 1), mask)
    ensures OnePage(start, mask, size, first, i + 1)
    ensures Open(start, mask, size, i + 1, i + 1)
  {
  }

  // ----- What happens on the socket -----

  /** A byte loaded, or a byte read and what the chip answered. */
  datatype Op = Load(address: bv32, value: byte) | Fetch(address: bv32, value: byte)

  /** Every read of the history is what the chip answered, `answer(n, a)` in operation number
      `n`, a read at address `a`. */
  ghost predicate Answered(answer: (nat, bv32) -> byte, history: seq<Op>)
    decreases |history|, 1
  {
    history != [] ==> LastAnswered(answer, history[..|history| - 1], history[|history| - 1])
  }

  ghost predicate LastAnswered(answer: (nat, bv32) -> byte, past: seq<Op>, op: Op)
    decreases |past|, 2
  {
    Answered(answer, past) && (op.Fetch? ==> op.value == answer(|past|, op.address))
  }

  lemma OneMoreAnswered(answer: (nat, bv32) -> byte, past: seq<Op>, op: Op)
    requires Answered(answer, past) && (op.Fetch? ==> op.value == answer(|past|, op.address))
    ensures Answered(answer, past + [op])
  {
    assert (past + [op])[..|past|] == past;
    assert LastAnswered(answer, past, op);
  }

  lemma {:induction false} AnsweredAt(answer: (nat, bv32) -> byte, history: seq<Op>, n: nat)
    requires Answered(answer, history) && n < |history| && history[n].Fetch?
    ensures history[n].value == answer(n, history[n].address)
    decreases |history|
  {
    assert LastAnswered(answer, history[..|history| - 1], history[|history| - 1]);
    if n < |history| - 1 {
      AnsweredAt(answer, history[..|history| - 1], n);
    }
  }

  /** The bytes loaded, in order. */
  function Loads(history: seq<Op>): seq<(bv32, byte)>
    decreases |history|
  {
    if history == [] then []
    else
      var past, op := Loads(history[..|history| - 1]), history[|history| - 1];
      if op.Load? then past + [(op.address, op.value)] else past
  }

  lemma LoadsAppend(history: seq<Op>, op: Op)
    ensures Loads(history + [op]) == if op.Load? then Loads(history) + [(op.address, op.value)] else Loads(history)
  {
    assert (history + [op])[..|history|] == history;
  }

  /** The first `n` bytes of the block, each at its own address. */
  function Block(start: bv32, data: seq<byte>, n: nat): seq<(bv32, byte)>
    requires n <= |data|
  {
    seq(n, k requires 0 <= k < n => (AddressOf(start, k), data[k]))
  }

  lemma BlockGrows(start: bv32, data: seq<byte>, n: nat)
    requires n < |data|
    ensures Block(start, data, n + 1) == Block(start, data, n) + [(AddressOf(start, n), data[n])]
  {
  }

  /** The data-polling bit of a byte. */
  function Dq7(b: byte): bool {
    b >= 0x80
  }

  /** A read at `address` that saw the polling bit of `expected`. */
  predicate Settled(op: Op, address: bv32, expected: byte) {
    op.Fetch? && op.address == address && Dq7(op.value) == Dq7(expected)
  }

  /** The window was polled and read back: its last byte showed the right polling bit on the two
      reads before, each of its bytes then read equal, and at that moment exactly the bytes up
      to its end had been loaded. */
  ghost predicate Proven(start: bv32, data: seq<byte>, history: seq<Op>, w: Window) {
    && w.first < w.end <= |data| && 2 <= w.read && w.read + (w.end - w.first) <= |history|
    && Settled(history[w.read - 2], AddressOf(start, w.end - 1), data[w.end - 1])
    && Settled(history[w.read - 1], AddressOf(start, w.end - 1), data[w.end - 1])
    && history[w.read..w.read + (w.end - w.first)] == Answers(start, data, w.first, w.end)
    && Loads(history[..w.read]) == Block(start, data, w.end)
  }

  /** Reads of bytes `first..end` that found each of them right. */
  function Answers(start: bv32, data: seq<byte>, first: nat, end: nat): seq<Op>
    requires first <= end <= |data|
  {
    seq(end - first, k requires 0 <= k < end - first => Fetch(AddressOf(start, first + k), data[first + k]))
  }

  lemma ProvenAt(start: bv32, data: seq<byte>, polled: seq<Op>, first: nat, last: nat)
    requires first <= last < |data| && |polled| >= 2 && Loads(polled) == Block(start, data, last + 1)
    requires Settled(polled[|polled| - 2], AddressOf(start, last), data[last])
    requires Settled(polled[|polled| - 1], AddressOf(start, last), data[last])
    ensures Proven(start, data, polled + Answers(start, data, first, last + 1), Window(first, last + 1, |polled|))
  {
    var answers := Answers(start, data, first, last + 1);
    assert (polled + answers)[..|polled|] == polled;
    assert (polled + answers)[|polled|..|polled| + |answers|] == answers;
  }

  lemma ProvenStays(start: bv32, data: seq<byte>, before: seq<Op>, after: seq<Op>, w: Window)
    requires Proven(start, data, before, w) && before <= after
    ensures Proven(start, data, after, w)
  {
    assert after[..w.read] == before[..w.read];
    var end := w.read + (w.end - w.first);
    assert after[w.read..end] == before[w.read..end];
  }

  /** Every window was polled and read back. */
  ghost predicate AllProven(start: bv32, data: seq<byte>, history: seq<Op>, windows: seq<Window>)
    decreases |windows|, 1
  {
    windows != [] ==> LastProven(start, data, history, windows)
  }

  ghost predicate LastProven(start: bv32, data: seq<byte>, history: seq<Op>, windows: seq<Window>)
    requires windows != []
    decreases |windows|, 0
  {
    var n := |windows| - 1;
    Proven(start, data, history, windows[n]) && AllProven(start, data, history, windows[..n])
  }

  lemma {:induction false} AllStayProven(start: bv32, data: seq<byte>, before: seq<Op>, ops: seq<Op>, windows: seq<Window>)
    requires AllProven(start, data, before, windows)
    ensures AllProven(start, data, before + ops, windows)
    decreases |windows|
  {
    if windows != [] {
      var n := |windows| - 1;
      assert LastProven(start, data, before, windows);
      ProvenStays(start, data, before, before + ops, windows[n]);
      AllStayProven(start, data, before, ops, windows[..n]);
    }
  }

  lemma OneMoreProven(start: bv32, data: seq<byte>, history: seq<Op>, windows: seq<Window>, w: Window)
    requires AllProven(start, data, history, windows) && Proven(start, data, history, w)
    ensures AllProven(start, data, history, windows + [w])
  {
    assert (windows + [w])[..|windows|] == windows;
    assert LastProven(start, data, history, windows + [w]);
  }

  lemma {:induction false} EachProven(start: bv32, data: seq<byte>, history: seq<Op>, windows: seq<Window>, i: nat)
    requires AllProven(start, data, history, windows) && i < |windows|
    ensures Proven(start, data, history, windows[i])
    decreases |windows|
  {
    assert LastProven(start, data, history, windows);
    if i < |windows| - 1 {
      EachProven(start, data, history, windows[..|windows| - 1], i);
    }
  }

  /** The windows cover `0..end` without gap or overlap, each inside one page. */
  predicate Covers(start: bv32, mask: bv32, size: nat, windows: seq<Window>, end: nat)
    decreases |windows|
  {
    if windows == [] then end == 0
    else
      var w := windows[|windows| - 1];
      && w.end == end && OnePage(start, mask, size, w.first, w.end)
      && Covers(start, mask, size, windows[..|windows| - 1], w.first)
  }

  lemma CoversAppend(start: bv32, mask: bv32, size: nat, windows: seq<Window>, w: Window)
    requires Covers(start, mask, size, windows, w.first) && OnePage(start, mask, size, w.first, w.end)
    ensures Covers(start, mask, size, windows + [w], w.end)
  {
    assert (windows + [w])[..|windows|] == windows;
  }

  /** Each byte of a covered range belongs to one of the windows. */
  lemma {:induction false} CoveredByOne(start: bv32, mask: bv32, size: nat, windows: seq<Window>, end: nat, k: nat)
    requires Covers(start, mask, size, windows, end) && k < end
    ensures exists i :: 0 <= i < |windows| && windows[i].first <= k < windows[i].end
    decreases |windows|
  {
    var n := |windows| - 1;
    if k < windows[n].first {
      CoveredByOne(start, mask, size, windows[..n], windows[n].first, k);
      var i :| 0 <= i < n && windows[..n][i].first <= k < windows[..n][i].end;
      assert windows[i].first <= k < windows[i].end;
    }
  }

  lemma ProvenByte(start: bv32, data: seq<byte>, history: seq<Op>, w: Window, k: nat)
    requires Proven(start, data, history, w) && w.first <= k < w.end
    ensures Fetch(AddressOf(start, k), data[k]) in history
  {
    assert history[w.read..w.read + (w.end - w.first)][k - w.first] == history[w.read + (k - w.first)];
  }

  /** Where the windows cover the block and are proven, the chip answered every byte right. */
  lemma EveryByteAnswered(
    start: bv32, mask: bv32, data: seq<byte>, answer: (nat, bv32) -> byte, history: seq<Op>, windows: seq<Window>, k: nat)
    requires Answered(answer, history) && k < |data|
    requires Covers(start, mask, |data|, windows, |data|) && AllProven(start, data, history, windows)
    ensures exists n :: 0 <= n < |history| && answer(n, AddressOf(start, k)) == data[k]
  {
    CoveredByOne(start, mask, |data|, windows, |data|, k);
    var i :| 0 <= i < |windows| && windows[i].first <= k < windows[i].end;
    EachProven(start, data, history, windows, i);
    ProvenByte(start, data, history, windows[i], k);
    var n :| 0 <= n < |history| && history[n] == Fetch(AddressOf(start, k), data[k]);
    AnsweredAt(answer, history, n);
  }

  /** The operations from number `n` on are reads, and each is what the chip answered. */
  ghost predicate AnsweredFrom(answer: (nat, bv32) -> byte, n: nat, ops: seq<Op>) {
    forall m :: 0 <= m < |ops| ==> ops[m].Fetch? && ops[m].value == answer(n + m, ops[m].address)
  }

  /** Reads change nothing that was loaded. */
  lemma {:induction false} ReadsFollow(answer: (nat, bv32) -> byte, history: seq<Op>, ops: seq<Op>)
    requires Answered(answer, history) && AnsweredFrom(answer, |history|, ops)
    ensures Answered(answer, history + ops) && Loads(history + ops) == Loads(history)
    decreases |ops|
  {
    if ops == [] {
      assert history + ops == history;
    } else {
      var past, op := ops[..|ops| - 1], ops[|ops| - 1];
      ReadsFollow(answer, history, past);
      assert history + ops == history + past + [op];
      OneMoreAnswered(answer, history + past, op);
      LoadsAppend(history + past, op);
    }
  }

  /** No two operations in a row saw the right polling bit. */
  ghost predicate NeverSettled(ops: seq<Op>, address: bv32, expected: byte) {
    forall m :: 0 < m < |ops| ==> !(Settled(ops[m - 1], address, expected) && Settled(ops[m], address, expected))
  }

  /** A poll that goes on: reads at one address, never settled, the last one wrong. */
  ghost predicate Polling(ops: seq<Op>, address: bv32, expected: byte) {
    && (forall m :: 0 <= m < |ops| ==> ops[m].Fetch? && ops[m].address == address)
    && NeverSettled(ops, address, expected)
    && (ops != [] ==> !Settled(ops[|ops| - 1], address, expected))
  }

  lemma PollGoesOn(ops: seq<Op>, address: bv32, expected: byte, b: byte)
    requires Polling(ops, address, expected) && Dq7(b) != Dq7(expected)
    ensures Polling(ops + [Fetch(address, b)], address, expected)
  {
  }

  lemma PollUnconfirmed(ops: seq<Op>, address: bv32, expected: byte, b: byte, c: byte)
    requires Polling(ops, address, expected) && Dq7(b) == Dq7(expected) != Dq7(c)
    ensures Polling(ops + [Fetch(address, b)] + [Fetch(address, c)], address, expected)
  {
  }

  /** A poll that gave up: reads at one address, as many as it is allowed, and never settled. */
  ghost predicate PollFailed(ops: seq<Op>, address: bv32, expected: byte) {
    && POLL_MAX_READS <= |ops|
    && (forall m :: 0 <= m < |ops| ==> ops[m].Fetch? && ops[m].address == address)
    && NeverSettled(ops, address, expected)
  }

  /** A read-back that gave up: its last operation read a byte of `first..end` wrong. */
  ghost predicate ReadWrong(start: bv32, data: seq<byte>, ops: seq<Op>, first: nat, end: nat)
    requires end <= |data|
  {
    && ops != [] && ops[|ops| - 1].Fetch?
    && exists k :: first <= k < end && ops[|ops| - 1].address == AddressOf(start, k)
                   && ops[|ops| - 1].value != data[k]
  }

  ghost predicate GaveUp(start: bv32, data: seq<byte>, ops: seq<Op>, first: nat, last: nat)
    requires last < |data|
  {
    PollFailed(ops, AddressOf(start, last), data[last]) || ReadWrong(start, data, ops, first, last + 1)
  }

  // ----- The programmer -----

  /** The socket during one block: everything that happened on it, and the windows that have
      been read back. `answer(n, a)` is what the chip returns in operation number `n`, a read at
      address `a`. */
  class Socket {
    const start: bv32
    const data: seq<byte>
    const answer: (nat, bv32) -> byte
    var history: seq<Op>
    var error: bool
    ghost var verified: seq<Window>

    constructor (start: bv32, data: seq<byte>, answer: (nat, bv32) -> byte)
      ensures this.start == start && this.data == data && this.answer == answer
      ensures history == [] && !error && verified == []
    {
      this.start, this.data, this.answer := start, data, answer;
      history, error, verified := [], false, [];
    }

    ghost predicate Truthful()
      reads this
    {
      Answered(answer, history)
    }

    method GetData(address: bv32) returns (b: byte)
      modifies this`history
      ensures b == answer(|old(history)|, address) && history == old(history) + [Fetch(address, b)]
    {
      b := answer(|history|, address);
      history := history + [Fetch(address, b)];
    }

    /** One more read behind the reads `ops` that followed `before`. */
    method ReadNext(address: bv32, ghost before: seq<Op>, ghost ops: seq<Op>) returns (b: byte, ghost more: seq<Op>)
      requires history == before + ops && AnsweredFrom(answer, |before|, ops)
      modifies this`history
      ensures history == before + more && AnsweredFrom(answer, |before|, more)
      ensures more == ops + [Fetch(address, b)]
    {
      b := GetData(address);
      more := ops + [Fetch(address, b)];
      assert before + more == before + ops + [Fetch(address, b)];
    }

    /** Wait until the polling bit matches on two consecutive reads. */
    method WaitForPageWrite(address: bv32, expected: byte) returns (ok: bool, ghost ops: seq<Op>)
      modifies this`history, this`error
      ensures history == old(history) + ops && AnsweredFrom(answer, |old(history)|, ops)
      ensures ok ==> error == old(error) && |ops| >= 2
      ensures ok ==> Settled(ops[|ops| - 2], address, expected) && Settled(ops[|ops| - 1], address, expected)
      ensures !ok ==> error && PollFailed(ops, address, expected)
    {
      ghost var before := history;
      ops := [];
      var j := 0;
      while j < POLL_MAX_READS
        invariant 0 <= j <= POLL_MAX_READS && j <= |ops|
        invariant history == before + ops && AnsweredFrom(answer, |before|, ops) && error == old(error)
        invariant Polling(ops, address, expected)
      {
        ghost var seen := ops;
        var observed;
        observed, ops := ReadNext(address, before, ops);
        if Dq7(observed) == Dq7(expected) {
          var confirm;
          confirm, ops := ReadNext(address, before, ops);
          if Dq7(confirm) == Dq7(expected) {
            return true, ops;
          }
          PollUnconfirmed(seen, address, expected, observed, confirm);
        } else {
          PollGoesOn(seen, address, expected, observed);
        }
        j := j + 1;
      }
      error := true;
      return false, ops;
    }

    /** Read one window back and compare it with the block. */
    method VerifyReadback(first: nat, last: nat) returns (ok: bool, ghost ops: seq<Op>)
      requires first <= last < |data|
      modifies this`history, this`error
      ensures history == old(history) + ops && AnsweredFrom(answer, |old(history)|, ops)
      ensures ok ==> error == old(error) && ops == Answers(start, data, first, last + 1)
      ensures !ok ==> error && ReadWrong(start, data, ops, first, last + 1)
    {
      ghost var before := history;
      ops := [];
      var k := first;
      var addr := AddressOf(start, first);
      while k <= last
        invariant first <= k <= last + 1 && error == old(error)
        invariant addr == AddressOf(start, k)
        invariant history == before + ops && AnsweredFrom(answer, |before|, ops)
        invariant ops == Answers(start, data, first, k)
      {
        var observed;
        observed, ops := ReadNext(addr, before, ops);
        if observed != data[k] {
          error := true;
          return false, ops;
        }
        k := k + 1;
        addr := addr + 1;
      }
      return true, ops;
    }

    /** Poll and read back the window that ends with byte `last`. */
    method Flush(mask: bv32, address: bv32, first: nat, last: nat) returns (ok: bool)
      requires first <= last < |data| && !error && Truthful()
      requires address == AddressOf(start, last) && LoadedUpTo(last + 1)
      requires Covers(start, mask, |data|, verified, first) && AllProven(start, data, history, verified)
      requires OnePage(start, mask, |data|, first, last + 1)
      modifies this`history, this`error, this`verified
      ensures Truthful() && LoadedUpTo(last + 1) && AllProven(start, data, history, verified)
      ensures ok <==> !error
      ensures ok ==> Covers(start, mask, |data|, verified, last + 1)
      ensures !ok ==> Covers(start, mask, |data|, verified, first) && Stuck(first, last)
    {
      ok := Check(address, first, last);
      if ok {
        ghost var w := Window(first, last + 1, |history| - (last + 1 - first));
        CoversAppend(start, mask, |data|, verified, w);
        OneMoreProven(start, data, history, verified, w);
        verified := verified + [w];
      }
    }

    /** Poll for completion, and only then read the window back. */
    method Check(address: bv32, first: nat, last: nat) returns (ok: bool)
      requires first <= last < |data| && !error && Truthful()
      requires address == AddressOf(start, last) && LoadedUpTo(last + 1)
      requires AllProven(start, data, history, verified)
      modifies this`history, this`error
      ensures Truthful() && LoadedUpTo(last + 1) && AllProven(start, data, history, verified)
      ensures ok <==> !error
      ensures ok ==> |history| >= last + 1 - first
      ensures ok ==> Proven(start, data, history, Window(first, last + 1, |history| - (last + 1 - first)))
      ensures !ok ==> Stuck(first, last)
    {
      ok := Poll(address, first, last);
      if ok {
        ok := Compare(first, last);
      }
    }

    method Poll(address: bv32, ghost first: nat, last: nat) returns (ok: bool)
      requires last < |data| && !error && Truthful()
      requires address == AddressOf(start, last) && LoadedUpTo(last + 1)
      requires AllProven(start, data, history, verified)
      modifies this`history, this`error
      ensures Truthful() && LoadedUpTo(last + 1) && AllProven(start, data, history, verified)
      ensures ok <==> !error
      ensures ok ==> Polled(last)
      ensures !ok ==> Stuck(first, last)
    {
      ghost var before := history;
      ghost var polls;
      ok, polls := WaitForPageWrite(address, data[last]);
      ReadsFollow(answer, before, polls);
      AllStayProven(start, data, before, polls, verified);
      assert history[|before|..] == polls;
    }

    method Compare(first: nat, last: nat) returns (ok: bool)
      requires first <= last < |data| && !error && Truthful() && Polled(last)
      requires LoadedUpTo(last + 1) && AllProven(start, data, history, verified)
      modifies this`history, this`error
      ensures Truthful() && LoadedUpTo(last + 1) && AllProven(start, data, history, verified)
      ensures ok <==> !error
      ensures ok ==> |history| >= last + 1 - first
      ensures ok ==> Proven(start, data, history, Window(first, last + 1, |history| - (last + 1 - first)))
      ensures !ok ==> Stuck(first, last)
    {
      ghost var polled := history;
      ghost var back;
      ok, back := VerifyReadback(first, last);
      ReadsFollow(answer, polled, back);
      AllStayProven(start, data, polled, back, verified);
      assert history[|polled|..] == back;
      if ok {
        ProvenAt(start, data, polled, first, last);
      }
    }

    /** The last two operations saw the right polling bit of byte `last`. */
    ghost predicate Polled(last: nat)
      requires last < |data|
      reads this
    {
      && |history| >= 2
      && Settled(history[|history| - 2], AddressOf(start, last), data[last])
      && Settled(history[|history| - 1], AddressOf(start, last), data[last])
    }

    /** The window that ends with byte `last` failed its poll or its read-back. */
    ghost predicate Stuck(first: nat, last: nat)
      requires last < |data|
      reads this
    {
      exists n :: 0 <= n <= |history| && GaveUp(start, data, history[n..], first, last)
    }

    /** Bytes `0..n` have been loaded, each at its own address, and nothing else. */
    ghost predicate LoadedUpTo(n: nat)
      reads this
    {
      n <= |data| && Loads(history) == Block(start, data, n)
    }

    /** The address behind byte `i`. */
    method Successor(address: bv32, i: nat) returns (next: bv32)
      requires address == AddressOf(start, i)
      ensures next == AddressOf(start, i + 1)
    {
      next := address + 1;
    }

    method SetData(address: bv32, i: nat)
      requires LoadedUpTo(i) && i < |data| && address == AddressOf(start, i)
      requires Truthful() && AllProven(start, data, history, verified)
      modifies this`history
      ensures LoadedUpTo(i + 1)
      ensures Truthful() && AllProven(start, data, history, verified)
    {
      var load := Load(address, data[i]);
      OneMoreAnswered(answer, history, load);
      LoadsAppend(history, load);
      BlockGrows(start, data, i);
      AllStayProven(start, data, history, [load], verified);
      history := history + [load];
    }

    /** The windows before byte `first` were read back equal, the window that ends with byte
        `last` failed, and nothing behind it was loaded. */
    ghost predicate StoppedAt(mask: bv32, first: nat, last: nat)
      reads this
    {
      && OnePage(start, mask, |data|, first, last + 1)
      && Covers(start, mask, |data|, verified, first)
      && AllProven(start, data, history, verified)
      && LoadedUpTo(last + 1) && Stuck(first, last)
    }

    /** Load the block, flushing at every page end and after the last byte. Every read is what
        the chip answered. On success the windows cover the block, so the chip answered every
        byte right in its own window, behind two right polls of that window and before any
        byte behind it was loaded. On a failure the bytes loaded are exactly those up to the
        end of the window whose poll or read-back failed. */
    method WriteExecute(pageSize: bv16) returns (ok: bool, ghost first: nat, ghost last: nat)
      requires history == [] && !error && verified == []
      modifies this
      ensures Truthful()
      ensures ok <==> !error
      ensures ok ==> LoadedUpTo(|data|)
      ensures ok ==> Covers(start, PageMask(pageSize), |data|, verified, |data|)
      ensures ok ==> AllProven(start, data, history, verified)
      ensures !ok ==> StoppedAt(PageMask(pageSize), first, last)
    {
      MaskOfAnySize(pageSize);
      ok, first, last := WriteWindows(PageMask(pageSize));
    }

    /** Byte `i` is the next to load, in the window that begins at `windowStart`. */
    ghost predicate Progress(mask: bv32, windowStart: nat, i: nat)
      reads this
    {
      && LoadedUpTo(i)
      && Open(start, mask, |data|, windowStart, i)
      && Covers(start, mask, |data|, verified, windowStart)
      && AllProven(start, data, history, verified)
    }

    /** Flush the window that byte `i`, just loaded, ends. */
    method CloseWindow(mask: bv32, address: bv32, windowStart: nat, i: nat) returns (ok: bool)
      requires LowBits(mask) && i < |data| && !error && Truthful() && address == AddressOf(start, i)
      requires LoadedUpTo(i + 1) && Open(start, mask, |data|, windowStart, i)
      requires Covers(start, mask, |data|, verified, windowStart) && AllProven(start, data, history, verified)
      requires Boundary(AddressOf(start, i + 1), mask) || i == |data| - 1
      modifies this`history, this`error, this`verified
      ensures Truthful()
      ensures ok <==> !error
      ensures ok ==> Progress(mask, i + 1, i + 1)
      ensures !ok ==> StoppedAt(mask, windowStart, i)
    {
      OpenCloses(start, mask, |data|, windowStart, i);
      ok := Flush(mask, address, windowStart, i);
    }

    method WriteWindows(mask: bv32) returns (ok: bool, ghost first: nat, ghost last: nat)
      requires LowBits(mask)
      requires history == [] && !error && verified == []
      modifies this
      ensures Truthful()
      ensures ok <==> !error
      ensures ok ==> LoadedUpTo(|data|)
      ensures ok ==> Covers(start, mask, |data|, verified, |data|) && AllProven(start, data, history, verified)
      ensures !ok ==> StoppedAt(mask, first, last)
    {
      first, last := 0, 0;
      var windowStart := 0;
      var i := 0;
      var address := start;
      while i < |data|
        invariant i <= |data| && !error && Truthful()
        invariant address == AddressOf(start, i)
        invariant Progress(mask, windowStart, i)
        invariant i == |data| ==> windowStart == |data|
      {
        SetData(address, i);
        var next := Successor(address, i);
        var pageEnd := Boundary(next, mask);
        var lastByte := i == |data| - 1;
        if pageEnd || lastByte {
          ok := CloseWindow(mask, address, windowStart, i);
          if !ok {
            return false, windowStart, i;
          }
          windowStart := i + 1;
        } else {
          OpenGrows(start, mask, |data|, windowStart, i);
        }
        i := i + 1;
        address := next;
      }
      ok := true;
    }
  }
}
