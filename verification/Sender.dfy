/**
 * The resumable sender of stomp/stomp_subr.c, on values: one subscriber's queue, the number of
 * bytes of its first message that are still to be sent, and everything the socket has accepted.
 * What send() returns is a parameter: any integer, of which negative ones are failures and the
 * others are cut down to the number of bytes offered.
 */
module Senders {
  import opened Bytes
  import opened Rings

  datatype Sender = Sender(ring: Ring, slen: nat, sent: seq<byte>)

  ghost predicate Consistent(s: Sender) {
    && Rings.Valid(s.ring)
    && (s.slen > 0 ==> s.ring.held[0] != [] && s.slen <= |s.ring.held[0][0]|)
  }

  /** The bytes that ss_sbuf and ss_slen describe: the unsent end of the first message. */
  function Pending(s: Sender): seq<byte>
    requires s.slen > 0 ==> s.ring.held != [] && s.ring.held[0] != [] && s.slen <= |s.ring.held[0][0]|
  {
    if s.slen == 0 then [] else s.ring.held[0][0][|s.ring.held[0][0]| - s.slen..]
  }

  /** Everything that is still to be sent: the pending bytes, then the messages behind them. */
  ghost function Outstanding(s: Sender): seq<byte>
    requires Consistent(s)
  {
    if s.slen > 0 && Queue(s.ring) != [] then Pending(s) + Flatten(Queue(s.ring)[1..])
    else Flatten(Queue(s.ring))
  }

  /** sf_send for an offer of `len` bytes. */
  function SendResult(n: int, len: nat): (k: int)
    ensures -1 <= k <= len
  {
    if n < 0 then -1 else if n > len then len else n
  }

  /** What send() returns in the callback for slot i; any outcome for any slot can be given. */
  function NetAt(net: seq<int>, i: nat): int {
    if i < |net| then net[i] else 0
  }

  /** The second half of stomp_send_resume: offer the pending bytes, and drop the message once all
      of it is sent. */
  function SendPending(s: Sender, n: int): (r: (Sender, int))
    requires Consistent(s) && s.slen > 0
  {
    var k := SendResult(n, s.slen);
    if k < 0 then (s, -1)
    else
      (Sender(if k == s.slen then Pop(s.ring).0 else s.ring, s.slen - k, s.sent + Pending(s)[..k]), 0)
  }

  /** stomp_send_resume on a session with a queue; the second result is its return value. */
  function SendResume(s: Sender, n: int): (r: (Sender, int))
    requires Consistent(s)
  {
    if s.slen > 0 then SendPending(s, n)
    else
      PeekRefinesFifo(s.ring);
      var (q, top) := Peek(s.ring);
      if top.None? || top.value == [] then (s.(ring := q), 0)
      else SendPending(Sender(q, |top.value|, s.sent), n)
  }

  /** msgqueue_push_msg with its callback: an accepted message triggers a send. */
  function Deliver(s: Sender, m: Message, n: int): (r: (Sender, bool))
    requires Consistent(s)
  {
    PushRefinesFifo(s.ring, m);
    PushKeepsFront(s.ring, m);
    var (q, ok) := Push(s.ring, m);
    (if ok then SendResume(s.(ring := q), n).0 else s.(ring := q), ok)
  }

  // ---------------------------------------------------------------------------
  // Conservation
  // ---------------------------------------------------------------------------

  lemma FrontOfQueue(s: Sender)
    requires Consistent(s)
    ensures s.ring.held[0] != [] ==>
              Queue(s.ring) != [] && Queue(s.ring)[0] == s.ring.held[0][0] && Settle(s.ring) == s.ring
  {
    if s.ring.held[0] != [] {
      SettleRefines(s.ring);
    }
  }

  lemma SendPendingConserves(s: Sender, n: int)
    requires Consistent(s) && s.slen > 0
    ensures var s' := SendPending(s, n).0;
            && Consistent(s') && s.sent <= s'.sent
            && s'.sent + Outstanding(s') == s.sent + Outstanding(s)
  {
    FrontOfQueue(s);
    var k := SendResult(n, s.slen);
    if k >= 0 {
      var p, behind := Pending(s), Flatten(Queue(s.ring)[1..]);
      if k == s.slen {
        PopRefinesFifo(s.ring);
        assert p[..k] == p;
        ConcatAssoc(s.sent, p, behind);
      } else {
        assert p == p[..k] + p[k..];
        assert Pending(SendPending(s, n).0) == p[k..];
        ConcatAssoc(p[..k], p[k..], behind);
        ConcatAssoc(s.sent, p[..k], p[k..] + behind);
      }
    }
  }

  /** Whatever the socket takes moves from what is outstanding to what is sent, in order. */
  lemma SendResumeConserves(s: Sender, n: int)
    requires Consistent(s)
    ensures var s' := SendResume(s, n).0;
            && Consistent(s') && s.sent <= s'.sent
            && s'.sent + Outstanding(s') == s.sent + Outstanding(s)
  {
    if s.slen > 0 {
      SendPendingConserves(s, n);
    } else {
      PeekRefinesFifo(s.ring);
      var (q, top) := Peek(s.ring);
      if top.Some? && top.value != [] {
        var s1 := Sender(q, |top.value|, s.sent);
        assert Queue(q) == [top.value] + Queue(q)[1..];
        assert Pending(s1) == top.value;
        SendPendingConserves(s1, n);
      }
    }
  }

  /** Sending takes at most the first message off the ring. */
  lemma SendResumeMessages(s: Sender, n: int)
    requires Consistent(s)
    ensures var q, q' := s.ring, SendResume(s, n).0.ring;
            q'.cap == q.cap && (Queue(q') == Queue(q) || (Queue(q) != [] && Queue(q') == Queue(q)[1..]))
  {
    PeekRefinesFifo(s.ring);
    PopRefinesFifo(s.ring);
    if s.slen == 0 {
      PopRefinesFifo(Peek(s.ring).0);
    }
  }

  /** What is pending depends on the first message of the front slot only. */
  lemma PendingKept(s: Sender, q: Ring)
    requires Consistent(s) && Rings.Valid(q) && s.ring.held[0] <= q.held[0]
    ensures Consistent(s.(ring := q)) && Pending(s.(ring := q)) == Pending(s)
  {
    assert s.slen > 0 ==> q.held[0][0] == s.ring.held[0][0];
  }

  lemma RefusedKeeps(s: Sender, m: Message)
    requires Consistent(s) && !Push(s.ring, m).1
    ensures var s' := s.(ring := Push(s.ring, m).0);
            Consistent(s') && Outstanding(s') == Outstanding(s)
  {
    PushRefinesFifo(s.ring, m);
    PushKeepsFront(s.ring, m);
    PendingKept(s, Push(s.ring, m).0);
  }

  lemma PushedIsLast(s: Sender, m: Message)
    requires Consistent(s) && Push(s.ring, m).1
    ensures var s' := s.(ring := Push(s.ring, m).0);
            Consistent(s') && Outstanding(s') == Outstanding(s) + m
  {
    PushRefinesFifo(s.ring, m);
    PushKeepsFront(s.ring, m);
    FrontOfQueue(s);
    var q := Push(s.ring, m).0;
    if s.slen > 0 {
      var behind := Queue(s.ring)[1..];
      assert Queue(q)[1..] == behind + [m];
      FlattenSnoc(behind, m);
      ConcatAssoc(Pending(s), Flatten(behind), m);
    } else {
      FlattenSnoc(Queue(s.ring), m);
    }
  }

  /** A delivery adds the message behind everything outstanding, or changes nothing but the ring. */
  lemma DeliverConserves(s: Sender, m: Message, n: int)
    requires Consistent(s)
    ensures var (s', ok) := Deliver(s, m, n);
            && Consistent(s') && s.sent <= s'.sent
            && s'.sent + Outstanding(s') == s.sent + Outstanding(s) + (if ok then m else [])
            && ok == Push(s.ring, m).1
  {
    if Push(s.ring, m).1 {
      PushedIsLast(s, m);
      ConcatAssoc(s.sent, Outstanding(s), m);
      SendResumeConserves(s.(ring := Push(s.ring, m).0), n);
    } else {
      RefusedKeeps(s, m);
      ConcatNothing(s.sent + Outstanding(s));
    }
  }

  // ---------------------------------------------------------------------------
  // What a send takes
  // ---------------------------------------------------------------------------

  /** The bytes that are offered to send() next: what is left of the first message of the FIFO, or all
      of it. */
  ghost function Offer(q: seq<Message>, slen: nat): seq<byte>
    requires slen > 0 ==> q != [] && slen <= |q[0]|
  {
    if q == [] then [] else if slen > 0 then q[0][|q[0]| - slen..] else q[0]
  }

  /** From a FIFO `q` of which `slen` bytes of the first message are pending, one send: it takes as
      much of the offer as `n` says, or all, or nothing if it fails; what it leaves is pending, and
      the message goes exactly if nothing is left of it. */
  ghost predicate SentFrom(q: seq<Message>, slen: nat, sent: seq<byte>, s': Sender, n: int) {
    (slen > 0 ==> q != [] && slen <= |q[0]|) &&
    var offer := Offer(q, slen);
    var k := if n < 0 then 0 else if n < |offer| then n else |offer|;
    && s'.sent == sent + offer[..k] && s'.slen == |offer| - k
    && Queue(s'.ring) == if 0 < k == |offer| then q[1..] else q
  }

  lemma SendPendingTakes(s: Sender, n: int)
    requires Consistent(s) && s.slen > 0
    ensures SentFrom(Queue(s.ring), s.slen, s.sent, SendPending(s, n).0, n)
    ensures SendPending(s, n).1 == if n < 0 then -1 else 0
  {
    FrontOfQueue(s);
    PopRefinesFifo(s.ring);
    ConcatNothing(s.sent);
  }

  /** A send with nothing pending looks at the first message. Only a failing send() makes it fail. */
  lemma SendResumeTakes(s: Sender, n: int)
    requires Consistent(s)
    ensures s.slen > 0 ==> Queue(s.ring) != [] && s.slen <= |Queue(s.ring)[0]|
    ensures SentFrom(Queue(s.ring), s.slen, s.sent, SendResume(s, n).0, n)
    ensures SendResume(s, n).1 == if n < 0 && Offer(Queue(s.ring), s.slen) != [] then -1 else 0
  {
    if s.slen > 0 {
      SendPendingTakes(s, n);
    } else {
      PeekRefinesFifo(s.ring);
      ConcatNothing(s.sent);
      var (q, top) := Peek(s.ring);
      if top.Some? && top.value != [] {
        SendPendingTakes(Sender(q, |top.value|, s.sent), n);
      }
    }
  }

  /** A message that is accepted is at the end of the FIFO, and then there is one send, whatever was
      pending; one that is refused changes neither the FIFO nor what is sent. */
  lemma DeliverTakes(s: Sender, m: Message, n: int)
    requires Consistent(s)
    ensures var s' := Deliver(s, m, n).0;
            if Push(s.ring, m).1 then SentFrom(Queue(s.ring) + [m], s.slen, s.sent, s', n)
            else s'.sent == s.sent && s'.slen == s.slen && Queue(s'.ring) == Queue(s.ring)
  {
    FrontOfQueue(s);
    PushRefinesFifo(s.ring, m);
    PushKeepsFront(s.ring, m);
    if Push(s.ring, m).1 {
      SendResumeTakes(s.(ring := Push(s.ring, m).0), n);
    }
  }

  // ---------------------------------------------------------------------------
  // Every run
  // ---------------------------------------------------------------------------

  datatype Event = Publish(m: Message, n: int) | Writable(n: int)

  function Step(s: Sender, e: Event): (r: (Sender, seq<Message>))
    requires Consistent(s)
  {
    match e
    case Publish(m, n) =>
      var (s', ok) := Deliver(s, m, n);
      (s', if ok then [m] else [])
    case Writable(n) => (SendResume(s, n).0, [])
  }

  lemma StepConserves(s: Sender, e: Event)
    requires Consistent(s)
    ensures var (s', new_) := Step(s, e);
            && Consistent(s') && s.sent <= s'.sent
            && s'.sent + Outstanding(s') == s.sent + Outstanding(s) + Flatten(new_)
  {
    match e
    case Publish(m, n) =>
      DeliverConserves(s, m, n);
      assert Flatten([m]) == m;
    case Writable(n) =>
      SendResumeConserves(s, n);
  }

  /** A run, with the messages accepted on the way. */
  ghost function Run(s: Sender, es: seq<Event>): (r: (Sender, seq<Message>))
    requires Consistent(s)
    decreases |es|
  {
    if es == [] then (s, [])
    else
      StepConserves(s, es[0]);
      var (s1, new_) := Step(s, es[0]);
      var (s2, more) := Run(s1, es[1..]);
      (s2, new_ + more)
  }

  lemma {:induction false} RunConservesFrom(s: Sender, es: seq<Event>)
    requires Consistent(s)
    ensures var (s', accepted) := Run(s, es);
            && Consistent(s') && s.sent <= s'.sent
            && s'.sent + Outstanding(s') == s.sent + Outstanding(s) + Flatten(accepted)
    decreases |es|
  {
    if es != [] {
      StepConserves(s, es[0]);
      var (s1, new_) := Step(s, es[0]);
      RunConservesFrom(s1, es[1..]);
      var more := Run(s1, es[1..]).1;
      FlattenConcat(new_, more);
      ConcatAssoc(s.sent + Outstanding(s), Flatten(new_), Flatten(more));
    }
  }

  function Start(queueSize: nat): (s: Sender)
    requires queueSize >= SLOTS
    ensures Consistent(s)
  {
    Sender(Create(queueSize), 0, [])
  }

  /** Over every run of pushes, push callbacks and writable events, with every send cut short
      anywhere or failing: what was sent, then the unsent rest of the current message, then the
      messages queued behind it, is the concatenation of the accepted messages. */
  lemma {:induction false} StreamConservation(queueSize: nat, es: seq<Event>)
    requires queueSize >= SLOTS
    ensures var (s, accepted) := Run(Start(queueSize), es);
            Consistent(s) && s.sent + Outstanding(s) == Flatten(accepted)
  {
    RunConservesFrom(Start(queueSize), es);
  }

  // ---------------------------------------------------------------------------
  // Progress
  // ---------------------------------------------------------------------------

  lemma SizeBounds(ms: seq<Message>)
    ensures ms != [] ==> |ms[0]| <= Size(ms)
  {
  }

  function WithoutFirst(q: seq<Message>): seq<Message> {
    if q == [] || q[0] == [] then q else q[1..]
  }

  /** A writable event on a socket that takes everything removes the first message if it has bytes,
      and does nothing to the FIFO otherwise. */
  lemma DrainStep(s: Sender)
    requires Consistent(s)
    ensures var s' := SendResume(s, s.ring.cap).0;
            && Consistent(s') && s'.ring.cap == s.ring.cap
            && Queue(s'.ring) == WithoutFirst(Queue(s.ring)) && s'.slen == 0
  {
    SendResumeConserves(s, s.ring.cap);
    FrontOfQueue(s);
    PeekRefinesFifo(s.ring);
    SizeBounds(s.ring.held[0]);
    if s.slen > 0 {
      PopRefinesFifo(s.ring);
    } else {
      var (q, top) := Peek(s.ring);
      SizeBounds(q.held[0]);
      PopRefinesFifo(q);
    }
  }

  /** Whatever the socket takes, it is something: without empty messages no event is wasted. */
  lemma ResumeAdvances(s: Sender, n: int)
    requires Consistent(s) && [] !in Queue(s.ring) && n > 0 && Outstanding(s) != []
    ensures |SendResume(s, n).0.sent| > |s.sent|
  {
    if s.slen == 0 {
      PeekRefinesFifo(s.ring);
    }
  }

  type Sending = s: Sender | Consistent(s) witness Start(SLOTS)

  function DrainOnce(s: Sending): Sending {
    DrainStep(s);
    SendResume(s, s.ring.cap).0
  }

  ghost function QueueOf(s: Sending): seq<Message> {
    Queue(s.ring)
  }

  function Iterate<T>(f: T -> T, x: T, k: nat): T {
    if k == 0 then x else Iterate(f, f(x), k - 1)
  }

  /** k writable events on a socket that takes everything it is offered. */
  function Drain(s: Sending, k: nat): Sending {
    Iterate(DrainOnce, s, k)
  }

  /** `f` takes the first message off what `q` sees. */
  ghost predicate TakesFirst<T(!new)>(f: T -> T, q: T -> seq<Message>) {
    forall x {:trigger f(x)} :: q(f(x)) == WithoutFirst(q(x))
  }

  lemma {:induction false} IterateEmpties<T(!new)>(f: T -> T, q: T -> seq<Message>, x: T)
    requires TakesFirst(f, q) && [] !in q(x)
    ensures q(Iterate(f, x, |q(x)|)) == []
    decreases |q(x)|
  {
    if q(x) != [] {
      assert q(f(x)) == q(x)[1..];
      IterateEmpties(f, q, f(x));
    }
  }

  lemma StaysInTail<T>(x: T, s: seq<T>)
    requires x in s && s[0] != x
    ensures x in s[1..]
  {
    var i :| 0 <= i < |s| && s[i] == x;
    assert s[1..][i - 1] == x;
  }

  lemma {:induction false} IterateSticks<T(!new)>(f: T -> T, q: T -> seq<Message>, x: T, k: nat)
    requires TakesFirst(f, q) && [] in q(x)
    ensures [] in q(Iterate(f, x, k))
    decreases k
  {
    if k > 0 {
      assert [] in q(f(x)) by {
        if q(x)[0] != [] {
          StaysInTail([], q(x));
        }
      }
      IterateSticks(f, q, f(x), k - 1);
    }
  }

  /** Delivery completes exactly when no queued message is empty: an empty one is peeked at over
      and over, and never popped. */
  lemma DrainsUnlessEmptyMessage(s: Sending)
    ensures (exists k: nat :: QueueOf(Drain(s, k)) == []) <==> [] !in QueueOf(s)
  {
    forall x: Sending
      ensures QueueOf(DrainOnce(x)) == WithoutFirst(QueueOf(x))
    {
      DrainStep(x);
    }
    assert TakesFirst(DrainOnce, QueueOf);
    if [] in QueueOf(s) {
      forall k: nat
        ensures QueueOf(Drain(s, k)) != []
      {
        IterateSticks(DrainOnce, QueueOf, s, k);
      }
    } else {
      IterateEmpties(DrainOnce, QueueOf, s);
      assert QueueOf(Drain(s, |QueueOf(s)|)) == [];
    }
  }
}
