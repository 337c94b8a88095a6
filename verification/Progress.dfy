/** Every message that a queue has accepted is sent once its socket takes enough bytes. */
module Progress {
  import opened Bytes
  import opened Rings
  import opened Brokers
  import opened Protocol
  import opened Histories
  import Senders

  /** Writable events of session s, with what send() returns in each of them. */
  function Writables(s: Sid, ns: seq<int>): (es: seq<Event>)
    ensures |es| == |ns|
  {
    seq(|ns|, i requires 0 <= i < |ns| => WritableSocket(s, ns[i]))
  }

  /** All bytes that queue q has accepted. */
  ghost function Total(st: State, q: Id): seq<byte>
    requires q in st.queues && StreamOk(st, q)
  {
    Flatten(Accepted(st.published, st.queues[q].log))
  }

  /** Session s has queue q and is not stale. */
  ghost predicate Sends(st: State, s: Sid, q: Id) {
    s in st.sessions && st.sessions[s].msgq == Some(q) && !Stale(st, s) && q in st.queues && StreamOk(st, q)
  }

  /** After events in which the socket has taken `k` times a byte or more: the same messages are
      accepted, and at least `k` bytes more are sent, or all. */
  ghost predicate Advanced(st: State, st': State, s: Sid, q: Id, k: nat)
    requires Sends(st, s, q)
  {
    && Sends(st', s, q) && st'.published == st.published && st'.queues[q].log == st.queues[q].log
    && (|st'.queues[q].sent| >= |st.queues[q].sent| + k || st'.queues[q].sent == Total(st, q))
  }

  lemma OneWritable(w: World, s: Sid, n: int, q: Id)
    requires Inv(w.st) && AllRingsOk(w.st) && Sends(w.st, s, q) && n > 0
    ensures Defined(w, WritableSocket(s, n)) && Advanced(w.st, Step(w, WritableSocket(s, n)).st, s, q, 1)
  {
    var st, st' := w.st, Step(w, WritableSocket(s, n)).st;
    assert RingOk(st.queues[q].ring) && QueueOk(st, q) && SessionOk(st, s);
    WritableKeeps(st, s, n);
    ResumeKeeps(st, q, n);
    assert SenderOf(st', q) == Senders.SendResume(SenderOf(st, q), n).0;
    if Senders.Outstanding(SenderOf(st, q)) != [] {
      Senders.ResumeAdvances(SenderOf(st, q), n);
    } else {
      ConcatNothing(st.queues[q].sent);
    }
  }

  lemma AdvancedThen(st: State, st1: State, st': State, s: Sid, q: Id, k: nat)
    requires Sends(st, s, q) && Advanced(st, st1, s, q, k) && Advanced(st1, st', s, q, 1)
    ensures Advanced(st, st', s, q, k + 1)
  {
    if st1.queues[q].sent == Total(st, q) {
      assert |st'.queues[q].sent| <= |Total(st, q)|;
    }
  }

  lemma OneMore(es: seq<Event>, w: World, s: Sid, n: int, q: Id)
    requires DefinedRun(es) && Run(es) == w && Sends(w.st, s, q) && n > 0
    ensures var es' := es + [WritableSocket(s, n)];
            DefinedRun(es') && Advanced(w.st, Run(es').st, s, q, 1)
  {
    EveryRun(es);
    EveryRing(es);
    OneWritable(w, s, n, q);
    StepTo(es, WritableSocket(s, n), w, Step(w, WritableSocket(s, n)));
  }

  /** The run `es` has advanced by `k` since state `st`, and advances by one more. */
  lemma AdvanceOne(es: seq<Event>, w: World, st: State, s: Sid, n: int, q: Id, k: nat)
    requires DefinedRun(es) && Run(es) == w && n > 0
    requires Sends(st, s, q) && Advanced(st, w.st, s, q, k)
    ensures var es' := es + [WritableSocket(s, n)];
            DefinedRun(es') && Advanced(st, Run(es').st, s, q, k + 1)
  {
    OneMore(es, w, s, n, q);
    AdvancedThen(st, w.st, Run(es + [WritableSocket(s, n)]).st, s, q, k);
  }

  lemma WritablesSnoc(es: seq<Event>, s: Sid, ns: seq<int>)
    requires ns != []
    ensures var k := |ns| - 1;
            es + Writables(s, ns) == es + Writables(s, ns[..k]) + [WritableSocket(s, ns[k])]
  {
  }

  lemma {:induction false} WritablesAdvance(es: seq<Event>, st: State, s: Sid, ns: seq<int>, q: Id)
    requires DefinedRun(es) && Run(es).st == st && Sends(st, s, q) && forall i :: 0 <= i < |ns| ==> ns[i] > 0
    ensures var es' := es + Writables(s, ns);
            DefinedRun(es') && Advanced(st, Run(es').st, s, q, |ns|)
    decreases |ns|
  {
    if ns == [] {
      assert es + Writables(s, ns) == es;
    } else {
      var k := |ns| - 1;
      WritablesAdvance(es, st, s, ns[..k], q);
      WritablesSnoc(es, s, ns);
      AdvanceOne(es + Writables(s, ns[..k]), Run(es + Writables(s, ns[..k])), st, s, ns[k], q, k);
    }
  }

  /** In every run: if a session that is not stale has accepted messages, any writable events in which
      the socket takes at least one byte, as many as there are bytes left, send all of them. */
  lemma EverythingIsSent(es: seq<Event>, s: Sid, ns: seq<int>, q: Id)
    requires DefinedRun(es) && s in Run(es).st.sessions && Run(es).st.sessions[s].msgq == Some(q)
    requires !Stale(Run(es).st, s) && forall i :: 0 <= i < |ns| ==> ns[i] > 0
    ensures Inv(Run(es).st) && q in Run(es).st.queues && StreamOk(Run(es).st, q)
    ensures var es', total := es + Writables(s, ns), Total(Run(es).st, q);
            && DefinedRun(es') && q in Run(es').st.queues
            && (|Run(es).st.queues[q].sent| + |ns| >= |total| ==> Run(es').st.queues[q].sent == total)
  {
    EveryRun(es);
    OwnStream(Run(es).st, s);
    WritablesAdvance(es, Run(es).st, s, ns, q);
  }
}
