/** Who is bound to which name, and so who gets a message: over steps, and over runs. */
module Subscriptions {
  import opened Bytes
  import opened Rings
  import opened Frames
  import opened Forwarding
  import opened Brokers
  import opened BrokerSteps
  import opened Protocol
  import opened Dispatch
  import Members

  /** The name starts with "/queue/". */
  predicate QueueName(n: Name) {
    [47, 113, 117, 101, 117, 101, 47] <= n
  }

  /** The name starts with "/topic/". */
  predicate TopicName(n: Name) {
    [47, 116, 111, 112, 105, 99, 47] <= n
  }

  /** The session is bound to the binding of that name. */
  predicate IsBound(st: State, s: Sid, dest: Name) {
    && s in st.sessions && st.sessions[s].bind.Some? && st.sessions[s].bind.value in st.bindings
    && st.bindings[st.sessions[s].bind.value].name == dest
  }

  lemma BoundInTable(st: State, s: Sid, dest: Name)
    requires Linked(st)
    ensures IsBound(st, s, dest) <==>
            s in st.sessions && dest in st.table && st.sessions[s].bind == Some(st.table[dest])
  {
    if IsBound(st, s, dest) {
      assert BindingOk(st, st.sessions[s].bind.value);
    }
    assert dest in st.table ==> NameOk(st, dest);
  }

  lemma UnboundIsFree(st: State, s: Sid)
    requires Linked(st) && s in st.sessions
    ensures st.sessions[s].bind.None? <==> forall d :: !IsBound(st, s, d)
  {
    assert SessionOk(st, s);
    if st.sessions[s].bind.Some? {
      assert IsBound(st, s, st.bindings[st.sessions[s].bind.value].name);
    }
  }

  // ---------------------------------------------------------------------------
  // Who gets a message
  // ---------------------------------------------------------------------------

  /** The slots of a binding hold the queues of the sessions bound to it. */
  lemma SlotIsBound(st: State, dest: Name, q: Id)
    requires Linked(st) && dest in st.table
    ensures NameOk(st, dest)
    ensures Some(q) in st.bindings[st.table[dest]].slots <==>
            exists s :: IsBound(st, s, dest) && st.sessions[s].msgq == Some(q)
  {
    assert NameOk(st, dest);
    var b := st.table[dest];
    assert BindingOk(st, b);
    if Some(q) in st.bindings[b].slots {
      assert SlotOk(st, b, q) && QueueOk(st, q);
      assert IsBound(st, st.queues[q].owner, dest);
    }
    forall s | IsBound(st, s, dest) && st.sessions[s].msgq == Some(q)
      ensures Some(q) in st.bindings[b].slots
    {
      BoundInTable(st, s, dest);
      assert SessionOk(st, s);
    }
  }

  /** A name that nobody is bound to has no targets. */
  lemma TargetsNeedBound(st: State, dest: Name, q: Id)
    requires Linked(st) && q in Targets(st, dest)
    ensures exists s :: IsBound(st, s, dest) && st.sessions[s].msgq == Some(q)
  {
    assert NameOk(st, dest);
    assert Some(q) in st.bindings[st.table[dest]].slots;
    SlotIsBound(st, dest, q);
  }

  /** The targets of a topic are the queues of all sessions bound to it. */
  lemma TopicTargets(st: State, dest: Name, q: Id)
    requires Linked(st) && TopicName(dest)
    ensures q in Targets(st, dest) <==> exists s :: IsBound(st, s, dest) && st.sessions[s].msgq == Some(q)
  {
    if dest in st.table {
      SlotIsBound(st, dest, q);
      assert dest[1] == 116 && QUEUE_PREFIX[1] == 113;
      var b := st.table[dest];
      assert BindingOk(st, b);
      assert st.bindings[b].slots[0..] == st.bindings[b].slots;
    } else {
      forall s
        ensures !IsBound(st, s, dest)
      {
        BoundInTable(st, s, dest);
      }
    }
  }

  /** A queue has one target, the queue of a session bound to it, if there is such a session; if not it
      has none. */
  lemma QueueTarget(st: State, dest: Name)
    requires Linked(st) && QueueName(dest)
    ensures |Targets(st, dest)| == if exists s :: IsBound(st, s, dest) then 1 else 0
    ensures forall q :: q in Targets(st, dest) ==>
              exists s :: IsBound(st, s, dest) && st.sessions[s].msgq == Some(q)
  {
    forall q | q in Targets(st, dest)
      ensures exists s :: IsBound(st, s, dest) && st.sessions[s].msgq == Some(q)
    {
      TargetsNeedBound(st, dest, q);
    }
    if dest in st.table {
      assert NameOk(st, dest) && QUEUE_PREFIX <= dest;
      QueueHasOneTarget(st, dest);
      var q :| q in Targets(st, dest);
    } else {
      forall s
        ensures !IsBound(st, s, dest)
      {
        BoundInTable(st, s, dest);
      }
    }
  }

  /** A name is in the table exactly if a session is bound to it, and it is a queue or a topic. */
  lemma TableIsBound(st: State, dest: Name)
    requires Linked(st)
    ensures dest in st.table <==> exists s :: IsBound(st, s, dest)
    ensures dest in st.table ==> QueueName(dest) || TopicName(dest)
  {
    if dest in st.table {
      assert NameOk(st, dest);
      var b := st.table[dest];
      assert BindingOk(st, b);
      Members.CountBounds(st.bindings[b].slots);
      var i :| 0 <= i < |st.bindings[b].slots| && st.bindings[b].slots[i].Some?;
      SlotIsBound(st, dest, st.bindings[b].slots[i].value);
    }
    forall s | IsBound(st, s, dest)
      ensures dest in st.table
    {
      BoundInTable(st, s, dest);
    }
  }

  // ---------------------------------------------------------------------------
  // Leaving
  // ---------------------------------------------------------------------------

  ghost predicate InNoSlot(st: State, q: Id) {
    forall b :: b in st.bindings ==> Some(q) !in st.bindings[b].slots
  }

  /** Every queue but q is in the slot that it was in. */
  ghost predicate OthersStay(st: State, st': State, q: Id) {
    forall b, j :: b in st.bindings && 0 <= j < |st.bindings[b].slots| && st.bindings[b].slots[j].Some?
                   && st.bindings[b].slots[j] != Some(q) ==>
      && b in st'.bindings && st'.bindings[b].name == st.bindings[b].name
      && j < |st'.bindings[b].slots| && st'.bindings[b].slots[j] == st.bindings[b].slots[j]
  }

  /** Nobody joins: what is in a slot was in that slot before. */
  ghost predicate NobodyJoins(st: State, st': State) {
    forall b, j :: b in st'.bindings && 0 <= j < |st'.bindings[b].slots| && st'.bindings[b].slots[j].Some? ==>
      && b in st.bindings && j < |st.bindings[b].slots| && st'.bindings[b].slots[j] == st.bindings[b].slots[j]
  }

  lemma LeaveEmpties(st: State, s: Sid)
    requires Linked(st) && s in st.sessions && st.sessions[s].bind.Some?
    ensures st.sessions[s].msgq.Some?
    ensures var q, st' := st.sessions[s].msgq.value, Leave(st, s);
            InNoSlot(st', q) && OthersStay(st, st', q) && NobodyJoins(st, st')
  {
    assert SessionOk(st, s);
    var b, q := st.sessions[s].bind.value, st.sessions[s].msgq.value;
    assert BindingOk(st, b);
    Members.UnsubscribeLeaves(st.bindings[b].slots, q, 0);
    LeaveSlots(st, s);
    if st.bindings[b].count == 1 {
      forall j | 0 <= j < |st.bindings[b].slots| && st.bindings[b].slots[j].Some?
        ensures st.bindings[b].slots[j] == Some(q)
      {
        if st.bindings[b].slots[j] != Some(q) {
          TwoMembers(st.bindings[b].slots, q, st.bindings[b].slots[j].value);
        }
      }
    }
    forall k | k in st.bindings && k != b
      ensures Some(q) !in st.bindings[k].slots
    {
      assert BindingOk(st, k);
      assert Some(q) in st.bindings[k].slots ==> SlotOk(st, k, q);
      assert QueueOk(st, q);
    }
  }

  /** stomp_unsubscribe of a name that the session is bound to: the session is bound to nothing, its
      queue is in no slot, and everything else is as before; of any other name nothing changes. */
  lemma UnsubscribeLeaves(st: State, s: Sid, dest: Name)
    requires Linked(st)
    ensures var (st', rc) := Brokers.Unsubscribe(st, s, dest);
            if IsBound(st, s, dest) then
              && rc == 0 && st.sessions[s].msgq.Some? && InNoSlot(st', st.sessions[s].msgq.value)
              && OthersStay(st, st', st.sessions[s].msgq.value) && NobodyJoins(st, st')
              && st'.sessions == st.sessions[s := st.sessions[s].(bind := None)]
              && st'.queues == st.queues && st'.published == st.published
            else
              st' == st && rc == if s in st.sessions then 0 else -1
  {
    BoundInTable(st, s, dest);
    if IsBound(st, s, dest) {
      LeaveEmpties(st, s);
      LeaveIsQuiet(st, s);
    }
  }

  lemma UnboundInNoSlot(st: State, s: Sid)
    requires Linked(st) && s in st.sessions && st.sessions[s].bind.None? && st.sessions[s].msgq.Some?
    ensures InNoSlot(st, st.sessions[s].msgq.value)
  {
    var q := st.sessions[s].msgq.value;
    assert SessionOk(st, s);
    forall b | b in st.bindings
      ensures Some(q) !in st.bindings[b].slots
    {
      assert BindingOk(st, b);
      assert Some(q) in st.bindings[b].slots ==> SlotOk(st, b, q);
    }
  }

  /** stomp_destroy_session: with the session its queue is gone, from its slot, too. */
  lemma DestroyLeaves(st: State, s: Sid)
    requires Linked(st) && s in st.sessions
    ensures var st', q := Destroy(st, s), st.sessions[s].msgq;
            && st'.sessions == st.sessions - {s} && st'.published == st.published && NobodyJoins(st, st')
            && if q.None? then st'.queues == st.queues && st'.bindings == st.bindings
               else st'.queues == st.queues - {q.value} && InNoSlot(st', q.value) && OthersStay(st, st', q.value)
  {
    assert SessionOk(st, s);
    DestroyKeepsLinks(st, s);
    if st.sessions[s].bind.Some? {
      LeaveEmpties(st, s);
      LeaveIsQuiet(st, s);
    } else if st.sessions[s].msgq.Some? {
      UnboundInNoSlot(st, s);
    }
  }

  // ---------------------------------------------------------------------------
  // Joining
  // ---------------------------------------------------------------------------

  /** The session has a queue, its own or a new one, and is bound to the name with it; it has one slot
      there, and everybody else has theirs. */
  ghost predicate HasJoined(st: State, st': State, s: Sid, dest: Name) {
    && s in st.sessions && IsBound(st', s, dest) && st'.sessions[s].msgq.Some?
    && var b, q := st'.sessions[s].bind.value, st'.sessions[s].msgq.value;
    && (if st.sessions[s].msgq.Some? then q == st.sessions[s].msgq.value && st'.queues == st.queues
        else q !in st.queues && st'.queues == st.queues[q := MsgQueue(s, Create(8388608), [], [])])
    && st'.sessions == st.sessions[s := st.sessions[s].(bind := Some(b), msgq := Some(q))]
    && st'.published == st.published && OthersStay(st, st', q)
    && (forall k, p :: k in st'.bindings && Some(p) in st'.bindings[k].slots ==>
          (k == b && p == q) || (k in st.bindings && Some(p) in st.bindings[k].slots))
  }

  lemma JoinEnters(st: State, s: Sid, b: Id)
    requires Joinable(st, b) && s in st.sessions && st.sessions[s].msgq.Some? && st.sessions[s].bind.None?
    ensures HasJoined(st, Join(st, s, b), s, st.bindings[b].name)
  {
    JoinSlots(st, s, b);
    Members.SubscribeJoins(st.bindings[b].slots, st.sessions[s].msgq.value);
  }

  lemma JoinedNewBinding(st: State, n: Name, st': State, s: Sid)
    requires Linked(st) && HasJoined(AddBinding(st, n), st', s, n)
    ensures HasJoined(st, st', s, n)
  {
    assert st.nextId in st.bindings ==> BindingOk(st, st.nextId);
    var st1 := AddBinding(st, n);
    assert forall b, j :: b in st.bindings && 0 <= j < |st.bindings[b].slots| ==>
             st1.bindings[b].slots[j] == st.bindings[b].slots[j];
    assert forall p: Id :: Some(p) !in st1.bindings[st.nextId].slots;
  }

  lemma JoinedWithQueue(st: State, st': State, s: Sid, dest: Name)
    requires Linked(st) && s in st.sessions && HasJoined(WithQueue(st, s), st', s, dest)
    ensures HasJoined(st, st', s, dest)
  {
    assert st.nextId in st.queues ==> QueueOk(st, st.nextId);
  }

  /** A session with a queue that is bound to nothing. */
  lemma SubscribedJoins(st: State, s: Sid, dest: Name)
    requires Linked(st) && s in st.sessions && st.sessions[s].bind.None? && st.sessions[s].msgq.Some?
    requires QueueName(dest) || TopicName(dest)
    ensures Brokers.Subscribe(st, s, dest).1 == 0 && HasJoined(st, Brokers.Subscribe(st, s, dest).0, s, dest)
  {
    assert GoodName(dest);
    if dest in st.table {
      assert NameOk(st, dest) && BindingOk(st, st.table[dest]);
      JoinEnters(st, s, st.table[dest]);
    } else {
      AddBindingJoinable(st, dest);
      JoinEnters(AddBinding(st, dest), s, st.nextId);
      JoinedNewBinding(st, dest, Join(AddBinding(st, dest), s, st.nextId), s);
    }
  }

  lemma SubscribeWithQueue(st: State, s: Sid, dest: Name)
    requires Linked(st) && s in st.sessions && st.sessions[s].bind.None? && GoodName(dest)
    ensures Linked(WithQueue(st, s)) && WithQueue(st, s).sessions[s].bind.None?
    ensures Brokers.Subscribe(st, s, dest) == Brokers.Subscribe(WithQueue(st, s), s, dest)
  {
    if st.sessions[s].msgq.None? {
      AddQueueKeepsLinks(st, s);
    }
  }

  /** stomp_subscribe of a session that is bound to nothing, to a queue or a topic. */
  lemma SubscribeBinds(st: State, s: Sid, dest: Name)
    requires Linked(st) && s in st.sessions && st.sessions[s].bind.None? && (QueueName(dest) || TopicName(dest))
    ensures Brokers.Subscribe(st, s, dest).1 == 0 && HasJoined(st, Brokers.Subscribe(st, s, dest).0, s, dest)
  {
    SubscribeWithQueue(st, s, dest);
    SubscribedJoins(WithQueue(st, s), s, dest);
    JoinedWithQueue(st, Brokers.Subscribe(st, s, dest).0, s, dest);
  }

  /** stomp_subscribe of any other session, or to any other name, fails. It changes nothing, but for a
      name that is refused the session loses its queue. */
  lemma SubscribeFails(st: State, s: Sid, dest: Name)
    requires Linked(st)
    requires s in st.sessions && st.sessions[s].bind.None? ==> !QueueName(dest) && !TopicName(dest)
    ensures var (st', rc) := Brokers.Subscribe(st, s, dest);
            && rc == -1 && st'.bindings == st.bindings && st'.table == st.table && st'.published == st.published
            && if s in st.sessions && st.sessions[s].bind.None? then
                 && st'.sessions == st.sessions[s := st.sessions[s].(msgq := None)]
                 && st'.queues == st.queues - (if st.sessions[s].msgq.Some? then {st.sessions[s].msgq.value} else {})
               else st' == st
  {
    if s in st.sessions && st.sessions[s].bind.None? {
      TableIsBound(st, dest);
      assert st.nextId in st.queues ==> QueueOk(st, st.nextId);
      assert st.queues[st.nextId := NewQueue(s)] - {st.nextId} == st.queues;
    }
  }

  // ---------------------------------------------------------------------------
  // Who is bound after an event
  // ---------------------------------------------------------------------------

  lemma SameLinksBound(st: State, st': State, k: Sid, d: Name)
    requires SameLinks(st, st')
    ensures IsBound(st', k, d) <==> IsBound(st, k, d)
  {
  }

  /** A session stays bound while its queue stays in its slot. */
  lemma StaysBound(st: State, st': State, q: Id, k: Sid, d: Name)
    requires Linked(st) && OthersStay(st, st', q) && k in st.sessions && st.sessions[k].msgq != Some(q)
    requires k in st'.sessions && st'.sessions[k].bind == st.sessions[k].bind
    ensures IsBound(st', k, d) <==> IsBound(st, k, d)
  {
    assert SessionOk(st, k);
    if st.sessions[k].bind.Some? {
      var slots := st.bindings[st.sessions[k].bind.value].slots;
      var j :| 0 <= j < |slots| && slots[j] == Some(st.sessions[k].msgq.value);
    }
  }

  lemma OwnQueues(st: State, s: Sid, k: Sid)
    requires Linked(st) && s in st.sessions && k in st.sessions && k != s && st.sessions[s].msgq.Some?
    ensures st.sessions[k].msgq != st.sessions[s].msgq
  {
    assert SessionOk(st, s) && SessionOk(st, k);
  }

  lemma UnsubscribeBound(st: State, s: Sid, dest: Name, k: Sid, d: Name)
    requires Linked(st)
    ensures IsBound(Brokers.Unsubscribe(st, s, dest).0, k, d) <==> IsBound(st, k, d) && !(k == s && d == dest)
  {
    UnsubscribeLeaves(st, s, dest);
    if IsBound(st, s, dest) && k != s && k in st.sessions {
      OwnQueues(st, s, k);
      StaysBound(st, Brokers.Unsubscribe(st, s, dest).0, st.sessions[s].msgq.value, k, d);
    }
  }

  lemma DestroyBound(st: State, s: Sid, k: Sid, d: Name)
    requires Linked(st)
    ensures IsBound(Destroy(st, s), k, d) <==> IsBound(st, k, d) && k != s
  {
    if s in st.sessions {
      DestroyLeaves(st, s);
      if k != s && k in st.sessions && st.sessions[s].msgq.Some? {
        OwnQueues(st, s, k);
        StaysBound(st, Destroy(st, s), st.sessions[s].msgq.value, k, d);
      }
    }
  }

  /** The session is bound to nothing, and the name is a queue or a topic. */
  ghost predicate CanSubscribe(st: State, s: Sid, dest: Name) {
    s in st.sessions && (forall d :: !IsBound(st, s, d)) && (QueueName(dest) || TopicName(dest))
  }

  lemma JoinedOthers(st: State, st': State, s: Sid, dest: Name, k: Sid, d: Name)
    requires Linked(st) && HasJoined(st, st', s, dest) && k in st.sessions && k != s
    ensures IsBound(st', k, d) <==> IsBound(st, k, d)
  {
    assert SessionOk(st, k) && SessionOk(st, s);
    StaysBound(st, st', st'.sessions[s].msgq.value, k, d);
  }

  lemma SubscribeBound(st: State, s: Sid, dest: Name, k: Sid, d: Name)
    requires Linked(st)
    ensures IsBound(Brokers.Subscribe(st, s, dest).0, k, d) <==>
            IsBound(st, k, d) || (k == s && d == dest && CanSubscribe(st, s, dest))
  {
    if s in st.sessions {
      UnboundIsFree(st, s);
    }
    if CanSubscribe(st, s, dest) {
      SubscribeBinds(st, s, dest);
      if k != s && k in st.sessions {
        JoinedOthers(st, Brokers.Subscribe(st, s, dest).0, s, dest, k, d);
      }
    } else {
      SubscribeFails(st, s, dest);
    }
  }

  lemma HandlerBinds(w: World, k: Sid, f: seq<byte>, net: seq<int>, s: Sid, dest: Name)
    requires Defined(w, FrameIn(k, f, net))
    ensures var c, mine := Handler(w, k, f), s == k && Destination(f) == Some(dest);
            IsBound(Input(w, k, f, net).0.st, s, dest) <==>
            || (c == Some(Subscribe) && mine && CanSubscribe(w.st, s, dest))
            || (IsBound(w.st, s, dest) && !(c == Some(Disconnect) && s == k) && !(c == Some(Unsubscribe) && mine))
  {
    match Handler(w, k, f)
    case None =>
    case Some(Connect) =>
    case Some(Disconnect) => DestroyBound(w.st, k, s, dest);
    case Some(Send) =>
      if Publishes(f) {
        EnqueueKeeps(w.st, Destination(f).value, SentMessage(w, f), net);
        SameLinksBound(w.st, Input(w, k, f, net).0.st, s, dest);
      }
    case Some(Subscribe) =>
      if Destination(f).Some? {
        SubscribeBound(w.st, k, Destination(f).value, s, dest);
      }
    case Some(Unsubscribe) =>
      if Destination(f).Some? {
        UnsubscribeBound(w.st, k, Destination(f).value, s, dest);
      }
  }

  /** A SUBSCRIBE frame for that name of a connected session that is bound to nothing. */
  ghost predicate Subscribes(w: World, e: Event, s: Sid, dest: Name) {
    e.FrameIn? && e.s == s && IsConnected(w.st, s) && IsSubscribe(e.f) && Destination(e.f) == Some(dest)
    && CanSubscribe(w.st, s, dest)
  }

  /** An UNSUBSCRIBE frame for that name, or the end of the session. */
  predicate Unsubscribes(w: World, e: Event, s: Sid, dest: Name) {
    Ends(w, e, s)
    || (e.FrameIn? && e.s == s && IsConnected(w.st, s) && IsUnsubscribe(e.f) && Destination(e.f) == Some(dest))
  }

  /** A session is bound to a name exactly if the event subscribes it, or if it was and the event does
      not unsubscribe it. */
  lemma StepBinds(w: World, e: Event, s: Sid, dest: Name)
    requires Defined(w, e)
    ensures IsBound(Step(w, e).st, s, dest) <==>
            Subscribes(w, e, s, dest) || (IsBound(w.st, s, dest) && !Unsubscribes(w, e, s, dest))
  {
    match e
    case SessionStart(k) =>
    case SessionEnd(k) => DestroyBound(w.st, k, s, dest);
    case WritableSocket(k, n) =>
      WritableKeeps(w.st, k, n);
      SameLinksBound(w.st, Step(w, e).st, s, dest);
    case FrameIn(k, f, net) =>
      HandlerBinds(w, k, f, net, s, dest);
      HandlerOf(w, k, f);
  }

  ghost function SubscribesAt(es: seq<Event>, s: Sid, dest: Name): nat -> bool {
    (j: nat) => j < |es| && Subscribes(Run(es[..j]), es[j], s, dest)
  }

  ghost function UnsubscribesAt(es: seq<Event>, s: Sid, dest: Name): nat -> bool {
    (j: nat) => j < |es| && Unsubscribes(Run(es[..j]), es[j], s, dest)
  }

  /** Some event of the run subscribed the session to that name, and nothing since has unsubscribed it. */
  ghost predicate HasSubscribed(es: seq<Event>, s: Sid, dest: Name) {
    Since(SubscribesAt(es, s, dest), UnsubscribesAt(es, s, dest), |es|)
  }

  lemma {:induction false} BoundUpTo(es: seq<Event>, s: Sid, dest: Name, n: nat)
    requires DefinedRun(es) && n <= |es|
    ensures IsBound(Run(es[..n]).st, s, dest) <==>
            Since(SubscribesAt(es, s, dest), UnsubscribesAt(es, s, dest), n)
  {
    if n > 0 {
      BoundUpTo(es, s, dest, n - 1);
      SinceNext(SubscribesAt(es, s, dest), UnsubscribesAt(es, s, dest), n - 1);
      RunAt(es, n - 1);
      StepBinds(Run(es[..n - 1]), es[n - 1], s, dest);
    }
  }

  /** After a run a session is bound to a name exactly if a SUBSCRIBE of it to that name succeeded and
      no UNSUBSCRIBE of that name, no DISCONNECT and no end of the session has followed. */
  lemma BoundHistory(es: seq<Event>, s: Sid, dest: Name)
    requires DefinedRun(es)
    ensures IsBound(Run(es).st, s, dest) <==> HasSubscribed(es, s, dest)
  {
    BoundUpTo(es, s, dest, |es|);
    assert es[..|es|] == es;
  }

  /** What is left out of the runs besides sends from a queue that is gone: a frame whose content-length
      header has 256 bytes or more, a SEND, SUBSCRIBE or UNSUBSCRIBE of a connected session with such a
      destination, and a subscription that creates a binding with a name of 64 bytes or more. */
  lemma OverflowsExactly(w: World, s: Sid, f: seq<byte>, net: seq<int>)
    requires Inv(w.st)
    ensures var len := HeaderValue(f, Parse(f, |f|).hdrs,
                                   [99, 111, 110, 116, 101, 110, 116, 45, 108, 101, 110, 103, 116, 104, 58]);
            Overflows(w, FrameIn(s, f, net)) <==>
            || (len.Some? && |len.value| >= 256)
            || (IsConnected(w.st, s) && Destination(f).Some? &&
                var dest := Destination(f).value;
                || ((IsSend(f) || IsSubscribe(f) || IsUnsubscribe(f)) && |dest| >= 256)
                || (IsSubscribe(f) && CanSubscribe(w.st, s, dest) && |dest| >= 64
                    && forall k :: !IsBound(w.st, k, dest)))
  {
    HandlerOf(w, s, f);
    if Destination(f).Some? {
      TableIsBound(w.st, Destination(f).value);
      if s in w.st.sessions {
        UnboundIsFree(w.st, s);
      }
    }
  }

  // ---------------------------------------------------------------------------
  // Who gets a message after a run
  // ---------------------------------------------------------------------------

  /** In terms of the owners of the queues. */
  lemma TargetOwners(st: State, dest: Name, q: Id)
    requires Linked(st)
    ensures q in Targets(st, dest) ==> q in st.queues && IsBound(st, st.queues[q].owner, dest)
    ensures q in st.queues && TopicName(dest) && IsBound(st, st.queues[q].owner, dest) ==> q in Targets(st, dest)
  {
    if q in Targets(st, dest) {
      TargetsNeedBound(st, dest, q);
      var s :| IsBound(st, s, dest) && st.sessions[s].msgq == Some(q);
      assert SessionOk(st, s);
    }
    if q in st.queues && TopicName(dest) {
      assert QueueOk(st, q);
      TopicTargets(st, dest, q);
    }
  }

  /** The next publication was offered once to these queues, and the others are as they were. */
  ghost predicate OfferedTo(st: State, st': State, targets: set<Id>) {
    forall q :: q in st.queues ==>
      && q in st'.queues
      && if q in targets then Offered(st.queues[q], st'.queues[q], st'.published, |st.published|)
         else st'.queues[q] == st.queues[q]
  }

  lemma SendOffers(w: World, s: Sid, f: seq<byte>, net: seq<int>)
    requires Defined(w, FrameIn(s, f, net)) && IsConnected(w.st, s) && IsSend(f)
    requires Destination(f).Some? && SkipCommand(f).Some?
    ensures OfferedTo(w.st, Step(w, FrameIn(s, f, net)).st, Targets(w.st, Destination(f).value))
  {
    SendFrame(w, s, f, net);
  }

  /** A SEND of a connected session after a run that ends in world `w`. */
  lemma SendAfter(es: seq<Event>, s: Sid, f: seq<byte>, net: seq<int>, w: World)
    requires DefinedRun(es) && w == Run(es) && EventDefined(w, FrameIn(s, f, net)) && HasConnected(es, s) && IsSend(f)
    requires Destination(f).Some? && SkipCommand(f).Some?
    ensures Inv(w.st) && OfferedTo(w.st, Next(w, FrameIn(s, f, net)).st, Targets(w.st, Destination(f).value))
  {
    EveryRun(es);
    SessionHistory(es, s);
    NextIsStep(w, FrameIn(s, f, net));
    SendOffers(w, s, f, net);
  }

  /** The owner of the queue has subscribed to the name. */
  ghost predicate HasSubscriber(es: seq<Event>, st: State, q: Id, dest: Name) {
    q in st.queues && HasSubscribed(es, st.queues[q].owner, dest)
  }

  lemma TargetsSubscribed(es: seq<Event>, w: World, dest: Name, q: Id)
    requires DefinedRun(es) && w == Run(es) && Inv(w.st)
    ensures q in Targets(w.st, dest) ==> HasSubscriber(es, w.st, q, dest)
    ensures TopicName(dest) && HasSubscriber(es, w.st, q, dest) ==> q in Targets(w.st, dest)
  {
    TargetOwners(w.st, dest, q);
    if q in w.st.queues {
      BoundHistory(es, w.st.queues[q].owner, dest);
    }
  }

  /** A SEND to a topic after a run is offered once to the queue of every session that has subscribed to
      that topic, and to no other queue. */
  lemma TopicSend(es: seq<Event>, s: Sid, f: seq<byte>, net: seq<int>, w: World)
    requires DefinedRun(es) && w == Run(es) && EventDefined(w, FrameIn(s, f, net)) && HasConnected(es, s) && IsSend(f)
    requires Destination(f).Some? && TopicName(Destination(f).value) && SkipCommand(f).Some?
    ensures var st' := Next(w, FrameIn(s, f, net)).st;
            forall q :: q in w.st.queues ==>
              && q in st'.queues
              && if HasSubscriber(es, w.st, q, Destination(f).value)
                 then Offered(w.st.queues[q], st'.queues[q], st'.published, |w.st.published|)
                 else st'.queues[q] == w.st.queues[q]
  {
    SendAfter(es, s, f, net, w);
    forall q | q in w.st.queues
      ensures q in Targets(w.st, Destination(f).value) <==> HasSubscriber(es, w.st, q, Destination(f).value)
    {
      TargetsSubscribed(es, w, Destination(f).value, q);
    }
  }

  lemma QueueHasSubscriber(es: seq<Event>, w: World, dest: Name)
    requires DefinedRun(es) && w == Run(es) && Inv(w.st) && QueueName(dest)
    ensures |Targets(w.st, dest)| == if exists k :: HasSubscribed(es, k, dest) then 1 else 0
  {
    QueueTarget(w.st, dest);
    forall k
      ensures IsBound(w.st, k, dest) <==> HasSubscribed(es, k, dest)
    {
      BoundHistory(es, k, dest);
    }
  }

  /** A SEND to a queue after a run is offered to the queue of one session that has subscribed to that
      name, if there is one; every other queue stays as it is. */
  lemma QueueSend(es: seq<Event>, s: Sid, f: seq<byte>, net: seq<int>, w: World) returns (targets: set<Id>)
    requires DefinedRun(es) && w == Run(es) && EventDefined(w, FrameIn(s, f, net)) && HasConnected(es, s) && IsSend(f)
    requires Destination(f).Some? && QueueName(Destination(f).value) && SkipCommand(f).Some?
    ensures |targets| == if exists k :: HasSubscribed(es, k, Destination(f).value) then 1 else 0
    ensures forall q :: q in targets ==> HasSubscriber(es, w.st, q, Destination(f).value)
    ensures OfferedTo(w.st, Next(w, FrameIn(s, f, net)).st, targets)
  {
    SendAfter(es, s, f, net, w);
    targets := Targets(w.st, Destination(f).value);
    QueueHasSubscriber(es, w, Destination(f).value);
    forall q | q in targets
      ensures HasSubscriber(es, w.st, q, Destination(f).value)
    {
      TargetsSubscribed(es, w, Destination(f).value, q);
    }
  }
}
