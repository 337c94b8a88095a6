/** What a run does to one queue and to one binding: which publications a queue accepts, what its
    ring holds, and whose turn it is. */
module Histories {
  import opened Bytes
  import opened Rings
  import opened Frames
  import opened Forwarding
  import opened Brokers
  import opened BrokerSteps
  import opened Protocol
  import opened Subscribers

  // ---------------------------------------------------------------------------
  // One queue
  // ---------------------------------------------------------------------------

  /** The event is a SEND that is pushed to queue q. */
  ghost predicate PushesTo(w: World, e: Event, q: Id) {
    Publication(w, e) != [] && q in Targets(w.st, Destination(e.f).value)
  }

  /** What an event may do to a queue: a new one is empty, one that is pushed to takes the message if
      it has room, and any other only sends. */
  ghost predicate QueueStep(w: World, e: Event, st': State, q: Id)
    requires q in st'.queues
  {
    var mq' := st'.queues[q];
    if q !in w.st.queues then mq' == NewQueue(mq'.owner)
    else if PushesTo(w, e, q) then
      Offered(w.st.queues[q], mq', w.st.published + Publication(w, e), |w.st.published|)
    else
      var mq := w.st.queues[q];
      mq'.log == mq.log && mq.sent <= mq'.sent && forall m :: HoldsOnly(mq.ring, mq'.ring, m)
  }

  lemma QuietQueues(w: World, e: Event, st': State, q: Id)
    requires Quiet(w.st, st') && q in st'.queues && Publication(w, e) == []
    ensures QueueStep(w, e, st', q)
  {
    assert QuietQueue(w.st, st', q);
  }

  lemma WritableQueues(w: World, s: Sid, n: int, q: Id)
    requires Inv(w.st) && !SendsStale(w.st, s) && q in Writable(w.st, s, n).queues
    ensures QueueStep(w, WritableSocket(s, n), Writable(w.st, s, n), q)
  {
    if s in w.st.sessions && w.st.sessions[s].msgq.Some? {
      OwnStream(w.st, s);
      ResumeKeeps(w.st, w.st.sessions[s].msgq.value, n);
    }
  }

  lemma SendQueues(w: World, s: Sid, f: seq<byte>, net: seq<int>, q: Id)
    requires Inv(w.st) && Handler(w, s, f) == Some(Send) && Publishes(f) && SendDefined(w, f)
    requires q in HandleSend(w, f, net).0.st.queues
    ensures QueueStep(w, FrameIn(s, f, net), HandleSend(w, f, net).0.st, q)
  {
    EnqueueDelivers(w.st, Destination(f).value, SentMessage(w, f), net);
  }

  lemma {:induction false} FrameQueues(w: World, s: Sid, f: seq<byte>, net: seq<int>, q: Id)
    requires Defined(w, FrameIn(s, f, net)) && q in Step(w, FrameIn(s, f, net)).st.queues
    ensures QueueStep(w, FrameIn(s, f, net), Step(w, FrameIn(s, f, net)).st, q)
  {
    var e := FrameIn(s, f, net);
    var st' := Step(w, e).st;
    PublicationOf(w, s, f, net);
    match Handler(w, s, f)
    case None =>
    case Some(Connect) =>
    case Some(Disconnect) =>
      DestroyKeeps(w.st, s);
      QuietQueues(w, e, st', q);
    case Some(Send) =>
      if Publishes(f) {
        SendQueues(w, s, f, net, q);
      }
    case Some(Subscribe) =>
      if Destination(f).Some? {
        SubscribeIsQuiet(w.st, s, Destination(f).value);
        QuietQueues(w, e, st', q);
      }
    case Some(Unsubscribe) =>
      if Destination(f).Some? {
        UnsubscribeKeeps(w.st, s, Destination(f).value);
        QuietQueues(w, e, st', q);
      }
  }

  lemma {:induction false} StepQueues(w: World, e: Event, q: Id)
    requires Defined(w, e) && q in Step(w, e).st.queues
    ensures QueueStep(w, e, Step(w, e).st, q)
  {
    match e
    case SessionStart(s) =>
    case SessionEnd(s) =>
      DestroyKeeps(w.st, s);
      QuietQueues(w, e, Step(w, e).st, q);
    case WritableSocket(s, n) => WritableQueues(w, s, n, q);
    case FrameIn(s, f, net) => FrameQueues(w, s, f, net, q);
  }

  // ---------------------------------------------------------------------------
  // What a queue accepts
  // ---------------------------------------------------------------------------

  /** The publication that an event adds to the log of queue q: the queue is a target of the message
      and has room for it. */
  ghost function Accepts(w: World, e: Event, q: Id): seq<nat> {
    if PushesTo(w, e, q) && q in w.st.queues && Rings.Valid(w.st.queues[q].ring)
       && Push(w.st.queues[q].ring, Publication(w, e)[0]).1
    then [|w.st.published|] else []
  }

  /** All of them in a run, since the queue was created. */
  ghost function AcceptedIn(es: seq<Event>, q: Id): seq<nat> {
    if es == [] then []
    else
      var n := |es| - 1;
      var w := Run(es[..n]);
      if q in w.st.queues then AcceptedIn(es[..n], q) + Accepts(w, es[n], q) else []
  }

  lemma StepAccepts(w: World, e: Event, q: Id)
    requires Defined(w, e) && q in Step(w, e).st.queues
    ensures Step(w, e).st.queues[q].log ==
            if q in w.st.queues then w.st.queues[q].log + Accepts(w, e, q) else []
  {
    StepQueues(w, e, q);
    if q in w.st.queues {
      assert QueueSound(w.st, q);
    }
  }

  /** A queue's log is exactly the publications that were pushed to it while it had room. */
  lemma {:induction false} LogHistory(es: seq<Event>, q: Id)
    requires DefinedRun(es) && q in Run(es).st.queues
    ensures Run(es).st.queues[q].log == AcceptedIn(es, q)
    decreases |es|
  {
    if es != [] {
      var n := |es| - 1;
      LastStep(es, Run(es[..n]), es[n]);
      StepAccepts(Run(es[..n]), es[n], q);
      if q in Run(es[..n]).st.queues {
        LogHistory(es[..n], q);
      }
    }
  }

  // ---------------------------------------------------------------------------
  // What a ring holds
  // ---------------------------------------------------------------------------

  /** Buffers of two megabytes, and no empty message. */
  ghost predicate RingOk(q: Ring) {
    q.cap == 2097152 && [] !in Rings.Queue(q)
  }

  ghost predicate AllRingsOk(st: State) {
    forall q :: q in st.queues ==> RingOk(st.queues[q].ring)
  }

  lemma StepRing(w: World, e: Event, q: Id)
    requires Defined(w, e) && q in Step(w, e).st.queues && AllRingsOk(w.st)
    ensures RingOk(Step(w, e).st.queues[q].ring)
  {
    StepQueues(w, e, q);
    var q' := Step(w, e).st.queues[q].ring;
    if q in w.st.queues {
      if PushesTo(w, e, q) {
        assert HoldsOnly(w.st.queues[q].ring, q', SentMessage(w, e.f));
      } else {
        assert HoldsOnly(w.st.queues[q].ring, q', [NUL]);
      }
    }
  }

  lemma {:induction false} EveryRing(es: seq<Event>)
    requires DefinedRun(es)
    ensures AllRingsOk(Run(es).st)
    decreases |es|
  {
    if es != [] {
      var n := |es| - 1;
      LastStep(es, Run(es[..n]), es[n]);
      EveryRing(es[..n]);
      forall q | q in Run(es).st.queues
        ensures RingOk(Run(es).st.queues[q].ring)
      {
        StepRing(Run(es[..n]), es[n], q);
      }
    }
  }

  /** soi_max_msgsize. */
  const FRAME_MAX := 1048576

  /** No message of the broker is refused with an effect: frames are at most a megabyte, so that every
      message fits a buffer together with its header. */
  lemma RefusedWithoutEffect(es: seq<Event>, q: Id, f: seq<byte>)
    requires DefinedRun(es) && q in Run(es).st.queues && |f| <= FRAME_MAX && SkipCommand(f).Some?
    ensures var ring, m := Run(es).st.queues[q].ring, SentMessage(Run(es), f);
            Rings.Valid(ring) && (!Push(ring, m).1 ==> Push(ring, m).0 == ring)
  {
    EveryRun(es);
    EveryRing(es);
    assert QueueSound(Run(es).st, q);
    MessageLength(f, NextId(Run(es)));
    var ring, m := Run(es).st.queues[q].ring, SentMessage(Run(es), f);
    if !Push(ring, m).1 {
      RefusedKeepsRing(ring, m);
    }
  }
}
