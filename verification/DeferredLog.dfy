/** The queue of log frames held back while the wire is the data bus: four slots, and a rule for
    what gives way when they are full. */
module DeferredLog {
  import opened Bytes

  const SLOTS := 4
  const PARAM_MAX := 8

  datatype Frame = Frame(id: byte, params: seq<byte>)

  /** Information and warning frames, by their id band. */
  predicate Droppable(f: Frame) {
    0x40 <= f.id < 0xA0
  }

  /** The part of a frame that a slot holds. */
  function Clipped(f: Frame): Frame {
    if |f.params| > PARAM_MAX then f.(params := f.params[..PARAM_MAX]) else f
  }

  /** A slot holds the id and the first bytes of the parameters, all of them if they fit. */
  lemma ClippedFits(f: Frame)
    ensures Clipped(f).id == f.id && Clipped(f).params <= f.params
    ensures |Clipped(f).params| == if |f.params| <= 8 then |f.params| else 8
  {
  }

  /** One past the newest droppable frame, 0 if there is none. */
  function NewestDroppable(q: seq<Frame>): (n: nat)
    ensures n <= |q|
    ensures n > 0 ==> Droppable(q[n - 1])
    ensures forall k :: n <= k < |q| ==> !Droppable(q[k])
    decreases |q|
  {
    if q == [] then 0
    else if Droppable(q[|q| - 1]) then |q|
    else NewestDroppable(q[..|q| - 1])
  }

  function Without(q: seq<Frame>, k: nat): seq<Frame>
    requires k < |q|
  {
    q[..k] + q[k + 1..]
  }

  /** One push: the queue after it, and whether the frame was taken. */
  function Push(q: seq<Frame>, f: Frame): (seq<Frame>, bool) {
    if |q| < SLOTS then (q + [Clipped(f)], true)
    else if Droppable(f) then (q, false)
    else
      var n := NewestDroppable(q);
      if n == 0 then (q, false) else (Without(q, n - 1) + [Clipped(f)], true)
  }

  /** The queue after a sequence of pushes. */
  function Run(pushes: seq<Frame>): seq<Frame>
    decreases |pushes|
  {
    if pushes == [] then []
    else Push(Run(pushes[..|pushes| - 1]), pushes[|pushes| - 1]).0
  }

  // ----- What the queue holds -----

  /** The frames of one kind, in order, as they are stored. */
  function OfKind(frames: seq<Frame>, droppable: bool): seq<Frame>
    decreases |frames|
  {
    if frames == [] then []
    else
      var f := frames[|frames| - 1];
      OfKind(frames[..|frames| - 1], droppable) + if Droppable(f) == droppable then [Clipped(f)] else []
  }

  function First(n: nat, frames: seq<Frame>): seq<Frame> {
    if |frames| <= n then frames else frames[..n]
  }

  /** `q` keeps the order of `s`: it is `s` with some frames left out, as they are stored. */
  predicate InOrderPart(q: seq<Frame>, s: seq<Frame>)
    decreases |s|
  {
    if q == [] then true
    else if s == [] then false
    else
      || (q[|q| - 1] == Clipped(s[|s| - 1]) && InOrderPart(q[..|q| - 1], s[..|s| - 1]))
      || InOrderPart(q, s[..|s| - 1])
  }

  lemma OfKindAppend(frames: seq<Frame>, f: Frame, droppable: bool)
    ensures OfKind(frames + [f], droppable)
         == OfKind(frames, droppable) + if Droppable(f) == droppable then [Clipped(f)] else []
  {
    assert (frames + [f])[..|frames|] == frames;
  }

  /** Clipping changes neither the kind of a frame nor a clipped frame. */
  lemma ClippedAgain(f: Frame)
    ensures Clipped(Clipped(f)) == Clipped(f) && (Droppable(Clipped(f)) <==> Droppable(f))
  {
  }

  lemma {:induction false} KindsAddUp(frames: seq<Frame>)
    ensures |OfKind(frames, true)| + |OfKind(frames, false)| == |frames|
    decreases |frames|
  {
    if frames != [] {
      KindsAddUp(frames[..|frames| - 1]);
    }
  }

  lemma WithoutLast(q: seq<Frame>)
    requires q != []
    ensures Without(q, |q| - 1) == q[..|q| - 1]
  {
  }

  lemma WithoutInner(q: seq<Frame>, k: nat)
    requires k < |q| - 1
    ensures Without(q, k) == Without(q[..|q| - 1], k) + [q[|q| - 1]]
  {
  }

  lemma OfKindLast(q: seq<Frame>, droppable: bool)
    requires q != []
    ensures OfKind(q, droppable) == OfKind(q[..|q| - 1], droppable)
              + if Droppable(q[|q| - 1]) == droppable then [Clipped(q[|q| - 1])] else []
  {
  }

  lemma DropLast(s: seq<Frame>, f: Frame)
    ensures s + [] == s && (s + [f])[..|s + [f]| - 1] == s
  {
  }

  /** Taking out the newest droppable frame takes the last one of that kind and no other. */
  lemma {:induction false} WithoutNewest(q: seq<Frame>)
    requires NewestDroppable(q) > 0
    ensures var rest := Without(q, NewestDroppable(q) - 1);
            && OfKind(rest, false) == OfKind(q, false)
            && OfKind(q, true) != []
            && OfKind(rest, true) == OfKind(q, true)[..|OfKind(q, true)| - 1]
    decreases |q|
  {
    var m := |q| - 1;
    var last := q[m];
    OfKindLast(q, true);
    OfKindLast(q, false);
    if Droppable(last) {
      WithoutLast(q);
      DropLast(OfKind(q[..m], true), Clipped(last));
      DropLast(OfKind(q[..m], false), last);
    } else {
      WithoutNewest(q[..m]);
      var k := NewestDroppable(q) - 1;
      WithoutInner(q, k);
      OfKindAppend(Without(q[..m], k), last, true);
      OfKindAppend(Without(q[..m], k), last, false);
      DropLast(OfKind(q[..m], true), last);
      DropLast(OfKind(Without(q[..m], k), true), last);
    }
  }

  lemma {:induction false} NoneDroppable(q: seq<Frame>)
    requires NewestDroppable(q) == 0
    ensures OfKind(q, true) == []
    decreases |q|
  {
    if q != [] {
      NoneDroppable(q[..|q| - 1]);
    }
  }

  lemma {:induction false} PartExtends(q: seq<Frame>, s: seq<Frame>, f: Frame)
    requires InOrderPart(q, s)
    ensures InOrderPart(q, s + [f]) && InOrderPart(q + [Clipped(f)], s + [f])
  {
    assert (s + [f])[..|s|] == s;
    assert (q + [Clipped(f)])[..|q|] == q;
  }

  lemma {:induction false} PartWithout(q: seq<Frame>, s: seq<Frame>, k: nat)
    requires InOrderPart(q, s) && k < |q|
    ensures InOrderPart(Without(q, k), s)
    decreases |s|
  {
    var m, n := |q| - 1, |s| - 1;
    if q[m] == Clipped(s[n]) && InOrderPart(q[..m], s[..n]) {
      if k == m {
        assert Without(q, m) == q[..m];
        PartExtends(q[..m], s[..n], s[n]);
        assert s[..n] + [s[n]] == s;
      } else {
        PartWithout(q[..m], s[..n], k);
        var rest := Without(q[..m], k);
        assert Without(q, k) == rest + [q[m]];
        assert Without(q, k)[..|rest|] == rest;
      }
    } else {
      PartWithout(q, s[..n], k);
    }
  }

  /** What the queue owes to the pushes so far. */
  predicate Kept(q: seq<Frame>, pushes: seq<Frame>) {
    && |q| == (if |pushes| < SLOTS then |pushes| else SLOTS)
    && OfKind(q, false) == First(SLOTS, OfKind(pushes, false))
    && OfKind(q, true) <= OfKind(pushes, true)
    && (|pushes| < SLOTS ==> OfKind(q, true) == OfKind(pushes, true))
    && InOrderPart(q, pushes)
  }

  lemma PushToFree(q: seq<Frame>, pushes: seq<Frame>, f: Frame)
    requires Kept(q, pushes) && |q| < SLOTS
    ensures Kept(q + [Clipped(f)], pushes + [f])
  {
    ClippedAgain(f);
    OfKindAppend(q, Clipped(f), true);
    OfKindAppend(q, Clipped(f), false);
    OfKindAppend(pushes, f, true);
    OfKindAppend(pushes, f, false);
    KindsAddUp(pushes);
    PartExtends(q, pushes, f);
  }

  lemma PushDropped(q: seq<Frame>, pushes: seq<Frame>, f: Frame)
    requires Kept(q, pushes) && |q| == SLOTS && (Droppable(f) || NewestDroppable(q) == 0)
    ensures Kept(q, pushes + [f])
  {
    OfKindAppend(pushes, f, true);
    OfKindAppend(pushes, f, false);
    PartExtends(q, pushes, f);
    if !Droppable(f) {
      NoneDroppable(q);
      KindsAddUp(q);
    }
  }

  lemma PushEvicts(q: seq<Frame>, pushes: seq<Frame>, f: Frame)
    requires Kept(q, pushes) && |q| == SLOTS && !Droppable(f) && NewestDroppable(q) > 0
    ensures Kept(Without(q, NewestDroppable(q) - 1) + [Clipped(f)], pushes + [f])
  {
    var n := NewestDroppable(q);
    var rest := Without(q, n - 1);
    WithoutNewest(q);
    KindsAddUp(q);
    ClippedAgain(f);
    OfKindAppend(rest, Clipped(f), true);
    OfKindAppend(rest, Clipped(f), false);
    OfKindAppend(pushes, f, true);
    OfKindAppend(pushes, f, false);
    PartWithout(q, pushes, n - 1);
    PartExtends(rest, pushes, f);
  }

  /** After any pushes from empty, the queue is an in-order part of them; it holds exactly the
      first four frames that may not be dropped, and the droppable frames it still holds are the
      first ones pushed. */
  lemma {:induction false} QueueKeeps(pushes: seq<Frame>)
    ensures Kept(Run(pushes), pushes)
    decreases |pushes|
  {
    if pushes != [] {
      var past, f := pushes[..|pushes| - 1], pushes[|pushes| - 1];
      QueueKeeps(past);
      assert pushes == past + [f];
      var q := Run(past);
      if |q| < SLOTS {
        PushToFree(q, past, f);
      } else if Droppable(f) || NewestDroppable(q) == 0 {
        PushDropped(q, past, f);
      } else {
        PushEvicts(q, past, f);
      }
    }
  }

  // ----- The firmware's own form -----

  class Log {
    var count: nat
    const frames: array<Frame>

    constructor ()
      ensures Valid() && Queue() == [] && fresh(frames)
    {
      count := 0;
      frames := new Frame[SLOTS](i => Frame(0, []));
    }

    ghost predicate Valid()
      reads this
    {
      frames.Length == SLOTS && count <= SLOTS
    }

    ghost function Queue(): seq<Frame>
      requires Valid()
      reads this, frames
    {
      frames[..count]
    }

    /** Search from the back for a frame that may be dropped. */
    method FindVictim() returns (found: bool, victim: nat)
      requires Valid() && count == SLOTS
      ensures found == (NewestDroppable(Queue()) > 0)
      ensures found ==> victim < SLOTS && NewestDroppable(Queue()) == victim + 1
    {
      victim := SLOTS;
      while true
        invariant NewestDroppable(Queue()) <= victim <= SLOTS
        decreases victim
      {
        if victim == 0 {
          return false, 0;
        }
        victim := victim - 1;
        assert Queue()[victim] == frames[victim];
        if Droppable(frames[victim]) {
          return true, victim;
        }
      }
    }

    /** Take one frame, or drop it. */
    method PushFrame(id: byte, params: seq<byte>) returns (taken: bool)
      requires Valid()
      modifies this, frames
      ensures Valid()
      ensures (Queue(), taken) == Push(old(Queue()), Frame(id, params))
    {
      if count >= SLOTS {
        if Droppable(Frame(id, params)) {
          return false;
        }
        var found, victim := FindVictim();
        if !found {
          return false;
        }
        DropSlot(victim);
      }
      ghost var room := Queue();
      var kept := if |params| > PARAM_MAX then params[..PARAM_MAX] else params;
      frames[count] := Frame(id, kept);
      count := count + 1;
      assert Queue() == room + [Clipped(Frame(id, params))];
      return true;
    }

    /** Take one frame out of the full queue. */
    method DropSlot(victim: nat)
      requires Valid() && count == SLOTS && victim < SLOTS
      modifies this, frames
      ensures Valid() && count == SLOTS - 1 && Queue() == Without(old(Queue()), victim)
    {
      MoveUp(victim);
      count := count - 1;
      assert Queue() == frames[..victim] + frames[victim..SLOTS - 1];
    }

    /** Move the frames behind a slot up over it. */
    method MoveUp(victim: nat)
      requires Valid() && victim < SLOTS
      modifies frames
      ensures frames[..victim] == old(frames[..victim])
      ensures frames[victim..SLOTS - 1] == old(frames[victim + 1..SLOTS])
    {
      var i := victim;
      while i + 1 < SLOTS
        invariant victim <= i < SLOTS
        invariant forall k :: 0 <= k < victim ==> frames[k] == old(frames[k])
        invariant forall k :: victim <= k < i ==> frames[k] == old(frames[k + 1])
        invariant forall k :: i < k < SLOTS ==> frames[k] == old(frames[k])
      {
        frames[i] := frames[i + 1];
        i := i + 1;
      }
    }
  }
}
