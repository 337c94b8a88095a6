/**
 * The message queue of mqcore/msgqueue.c on values: a ring of at most four buffers that are
 * allocated one at a time, each holding whole records. The class in MsgQueue.dfy computes exactly
 * these functions on arrays; here they are proved to implement a plain FIFO of messages.
 */
module Rings {
  import opened Bytes

  type Message = seq<byte>

  /** MSGQUEUE_PBUFS. */
  const SLOTS := 4

  /** sizeof(msgqueue_msghdr_t). */
  const HEADER := 4

  /** `held` are the messages of the allocated slots, from the read slot `r` round to the write
      slot; every slot has `cap` bytes. */
  datatype Ring = Ring(held: seq<seq<Message>>, r: nat, cap: nat)

  /** `i % SLOTS`, for the values that occur. */
  function Wrap(i: nat): (j: nat)
    requires i < 2 * SLOTS
    ensures j < SLOTS
  {
    if i < SLOTS then i else i - SLOTS
  }

  lemma WrapIsModulo(i: nat)
    requires i < 2 * SLOTS
    ensures Wrap(i) == i % SLOTS
  {
  }

  /** Bytes that the records of `msgs` take up. */
  function Size(msgs: seq<Message>): nat {
    if msgs == [] then 0 else HEADER + |msgs[0]| + Size(msgs[1..])
  }

  ghost predicate Valid(q: Ring) {
    && 1 <= |q.held| <= SLOTS && q.r < SLOTS && q.cap > 0
    && (forall k :: 0 <= k < |q.held| ==> Size(q.held[k]) <= q.cap)
  }

  /** The FIFO that the ring stands for. */
  ghost function Queue(q: Ring): seq<Message> {
    Flatten(q.held)
  }

  /** The second ring holds only messages of the first, and `m`. */
  ghost predicate HoldsOnly(q: Ring, q': Ring, m: Message) {
    q'.cap == q.cap && forall x :: x in Queue(q') ==> x in Queue(q) || x == m
  }

  /** The messages of the write slot. */
  function Last(q: Ring): seq<Message>
    requires q.held != []
  {
    q.held[|q.held| - 1]
  }

  /** msgqueue_create. */
  function Create(queueSize: nat): (q: Ring)
    requires queueSize >= SLOTS
    ensures Valid(q) && Queue(q) == []
  {
    Ring([[]], 0, queueSize / SLOTS)
  }

  /** The redo loop of msgqueue_push_msg, for a message that passed the size check: write into the
      write slot, or allocate the next one (msgqueue_wnext) and try again. */
  function PushLoop(q: Ring, m: Message): (r: (Ring, bool))
    requires 1 <= |q.held| <= SLOTS
    ensures r.0.r == q.r && r.0.cap == q.cap && |q.held| <= |r.0.held| <= SLOTS
    decreases SLOTS - |q.held|
  {
    if Size(Last(q)) + HEADER + |m| <= q.cap then
      (q.(held := q.held[|q.held| - 1 := Last(q) + [m]]), true)
    else if |q.held| == SLOTS then
      (q, false)
    else
      PushLoop(q.(held := q.held + [[]]), m)
  }

  /** msgqueue_push_msg. */
  function Push(q: Ring, m: Message): (r: (Ring, bool))
    requires 1 <= |q.held| <= SLOTS
    ensures r.0.r == q.r && r.0.cap == q.cap && |q.held| <= |r.0.held| <= SLOTS
  {
    if |m| > q.cap then (q, false) else PushLoop(q, m)
  }

  /** The redo loop that peek and pop share: give back drained slots in front of the first record
      (msgqueue_rnext). */
  function Settle(q: Ring): (q': Ring)
    requires 1 <= |q.held| <= SLOTS && q.r < SLOTS
    ensures 1 <= |q'.held| <= SLOTS && q'.r < SLOTS && q'.cap == q.cap
    decreases |q.held|
  {
    if q.held[0] != [] || |q.held| == 1 then q
    else Settle(q.(held := q.held[1..], r := Wrap(q.r + 1)))
  }

  /** msgqueue_peek. */
  function Peek(q: Ring): (r: (Ring, Option<Message>))
    requires 1 <= |q.held| <= SLOTS && q.r < SLOTS
  {
    var q' := Settle(q);
    (q', if q'.held[0] == [] then None else Some(q'.held[0][0]))
  }

  /** msgqueue_pop_msg. */
  function Pop(q: Ring): (r: (Ring, bool))
    requires 1 <= |q.held| <= SLOTS && q.r < SLOTS
  {
    var q' := Settle(q);
    if q'.held[0] == [] then (q', false)
    else (q'.(held := q'.held[0 := q'.held[0][1..]]), true)
  }

  // ---------------------------------------------------------------------------
  // The ring refines a FIFO
  // ---------------------------------------------------------------------------

  lemma {:induction false} SizeSnoc(ms: seq<Message>, m: Message)
    ensures Size(ms + [m]) == Size(ms) + HEADER + |m|
  {
    if ms == [] {
      assert [m][1..] == [];
    } else {
      SizeSnoc(ms[1..], m);
      assert (ms + [m])[1..] == ms[1..] + [m];
    }
  }

  /** Writing to the last slot appends to the FIFO. */
  lemma FlattenAppendLast(held: seq<seq<Message>>, m: Message)
    requires held != []
    ensures Flatten(held[|held| - 1 := held[|held| - 1] + [m]]) == Flatten(held) + [m]
  {
    var n := |held| - 1;
    var init, last := held[..n], held[n];
    assert held == init + [last] && held[n := last + [m]] == init + [last + [m]];
    FlattenSnoc(init, last);
    FlattenSnoc(init, last + [m]);
  }

  /** A push appends the message to the FIFO or leaves the FIFO alone, and accepts a message exactly
      when it fits with its header into the write slot or into a slot still to be allocated. */
  lemma {:induction false} PushLoopRefines(q: Ring, m: Message)
    requires Valid(q)
    ensures var (q', ok) := PushLoop(q, m);
            && Valid(q')
            && Queue(q') == (if ok then Queue(q) + [m] else Queue(q))
            && (ok <==> HEADER + |m| <= q.cap
                        && (Size(Last(q)) + HEADER + |m| <= q.cap || |q.held| < SLOTS))
            && (!ok ==> |q'.held| == SLOTS)
            && q.held[0] <= q'.held[0]
    decreases SLOTS - |q.held|
  {
    if Size(Last(q)) + HEADER + |m| <= q.cap {
      SizeSnoc(Last(q), m);
      FlattenAppendLast(q.held, m);
    } else if |q.held| < SLOTS {
      FlattenSnoc(q.held, []);
      PushLoopRefines(q.(held := q.held + [[]]), m);
    }
  }

  lemma PushRefinesFifo(q: Ring, m: Message)
    requires Valid(q)
    ensures var (q', ok) := Push(q, m);
            && Valid(q')
            && Queue(q') == (if ok then Queue(q) + [m] else Queue(q))
            && (ok <==> HEADER + |m| <= q.cap
                        && (Size(Last(q)) + HEADER + |m| <= q.cap || |q.held| < SLOTS))
  {
    if |m| <= q.cap {
      PushLoopRefines(q, m);
    }
  }

  /** A rejected push is not always without effect: it allocates the whole ring exactly when the
      message passes the size check, does not fit a buffer together with its header, and slots are
      still free. The condition can be evaluated before the call. */
  lemma RejectedPushFillsRing(q: Ring, m: Message)
    requires Valid(q) && !Push(q, m).1
    ensures Push(q, m).0 != q <==> |m| <= q.cap < HEADER + |m| && |q.held| < SLOTS
    ensures Push(q, m).0 != q ==> |Push(q, m).0.held| == SLOTS
  {
    if |m| <= q.cap {
      PushLoopRefines(q, m);
    }
  }

  /** A message that fits a buffer together with its header is refused without effect. */
  lemma RefusedKeepsRing(q: Ring, m: Message)
    requires Valid(q) && HEADER + |m| <= q.cap && !Push(q, m).1
    ensures Push(q, m).0 == q
  {
    RejectedPushFillsRing(q, m);
  }

  lemma {:induction false} SettleRefines(q: Ring)
    requires Valid(q)
    ensures var q' := Settle(q);
            && Valid(q') && Queue(q') == Queue(q)
            && (q'.held[0] == [] <==> Queue(q) == [])
            && (q'.held[0] != [] ==> Queue(q) == q'.held[0] + Flatten(q'.held[1..]))
    decreases |q.held|
  {
    if q.held[0] == [] {
      if |q.held| == 1 {
        assert Flatten(q.held[1..]) == [];
      } else {
        SettleRefines(q.(held := q.held[1..], r := Wrap(q.r + 1)));
      }
    }
  }

  /** Peek returns the first message, and fails exactly when the FIFO is empty. */
  lemma PeekRefinesFifo(q: Ring)
    requires Valid(q)
    ensures var (q', top) := Peek(q);
            && Valid(q') && Queue(q') == Queue(q)
            && top == (if Queue(q) == [] then None else Some(Queue(q)[0]))
  {
    SettleRefines(q);
  }

  /** Pop removes exactly the first message, and fails exactly when the FIFO is empty. */
  lemma PopRefinesFifo(q: Ring)
    requires Valid(q)
    ensures var (q', ok) := Pop(q);
            && Valid(q') && (ok <==> Queue(q) != [])
            && Queue(q') == (if Queue(q) == [] then [] else Queue(q)[1..])
  {
    SettleRefines(q);
    var q1 := Settle(q);
    if q1.held[0] != [] {
      var q2 := Pop(q).0;
      assert q2.held[1..] == q1.held[1..];
      assert Size(q1.held[0][1..]) <= Size(q1.held[0]);
    }
  }

  /** What a peek returned stays in front: pushes, accepted or not, only append to the slot that is
      being read, and the next peek or pop finds the same record without touching the ring. */
  lemma PushKeepsFront(q: Ring, m: Message)
    requires Valid(q)
    ensures var q' := Push(q, m).0;
            && q.held[0] <= q'.held[0]
            && (q.held[0] != [] ==> Settle(q) == q && Settle(q') == q')
  {
    if |m| <= q.cap {
      PushLoopRefines(q, m);
    }
  }

  // ---------------------------------------------------------------------------
  // Sizes
  // ---------------------------------------------------------------------------

  /** A message of more than half a buffer of two megabytes, header included. */
  predicate IsBig(m: Message) {
    1048572 < |m| <= 2097148
  }

  /** Two megabytes to a buffer, and one big message in each. */
  ghost predicate HoldsBig(q: Ring, ms: seq<Message>) {
    && q.cap == 2097152 && |q.held| == |ms| && forall k :: 0 <= k < |ms| ==> q.held[k] == [ms[k]] && IsBig(ms[k])
  }

  lemma SizeOfOne(m: Message)
    ensures Size([]) == 0 && Size([m]) == 4 + |m|
  {
    var ms := [m];
    assert ms[1..] == [];
  }

  lemma OneBigMore(q: Ring, ms: seq<Message>, m: Message)
    requires 0 < |ms| <= 4 && HoldsBig(q, ms) && IsBig(m)
    ensures if |ms| < 4 then Push(q, m).1 && HoldsBig(Push(q, m).0, ms + [m]) else Push(q, m) == (q, false)
  {
    SizeOfOne(ms[|ms| - 1]);
    assert Last(q) == [ms[|ms| - 1]];
    if |ms| < 4 {
      var more := q.(held := q.held + [[]]);
      assert PushLoop(q, m) == PushLoop(more, m);
      assert Last(more) + [m] == [m];
      assert PushLoop(more, m) == (more.(held := more.held[|ms| := [m]]), true);
    }
  }

  function PushEach(q: Ring, ms: seq<Message>): (q': Ring)
    requires 1 <= |q.held| <= SLOTS
    ensures 1 <= |q'.held| <= SLOTS
  {
    if ms == [] then q else Push(PushEach(q, ms[..|ms| - 1]), ms[|ms| - 1]).0
  }

  lemma FirstBig(m: Message)
    requires IsBig(m)
    ensures HoldsBig(Push(Create(8388608), m).0, [m])
  {
    SizeOfOne(m);
    assert Last(Create(8388608)) + [m] == [m];
  }

  /** A queue of eight megabytes takes four big messages, one for each buffer, and no fifth. */
  lemma {:induction false} FourBigMessages(ms: seq<Message>, m: Message)
    requires 0 < |ms| <= 4 && IsBig(m) && forall x :: x in ms ==> IsBig(x)
    ensures HoldsBig(PushEach(Create(8388608), ms), ms)
    ensures Push(PushEach(Create(8388608), ms), m).1 <==> |ms| < 4
    decreases |ms|
  {
    var init, last := ms[..|ms| - 1], ms[|ms| - 1];
    assert ms == init + [last];
    if init == [] {
      FirstBig(last);
    } else {
      FourBigMessages(init, last);
      OneBigMore(PushEach(Create(8388608), init), init, last);
    }
    OneBigMore(PushEach(Create(8388608), ms), ms, m);
  }

  /** The longest message that a buffer of two megabytes takes: there are four bytes of header. */
  lemma LongestMessage(m: Message)
    ensures Push(Create(8388608), m).1 <==> |m| <= 2097148
  {
    PushRefinesFifo(Create(8388608), m);
  }
}
