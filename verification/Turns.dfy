/** Whose turn it is in a queue binding, over runs. */
module Turns {
  import opened Bytes
  import opened Brokers
  import opened BrokerSteps
  import opened Protocol
  import opened Subscribers
  import Members
  import Senders

  /** Binding b is the queue binding of that name. */
  predicate QueueNamed(st: State, dest: Name, b: Id) {
    dest in st.table && st.table[dest] == b && b in st.bindings && st.bindings[b].kind == Queue
  }

  /** The event is a SEND to the queue binding b. */
  predicate PushesBinding(w: World, e: Event, b: Id) {
    Publication(w, e) != [] && QueueNamed(w.st, Destination(e.f).value, b)
  }

  /** The cursor of binding b after an event. */
  function RoundAfter(w: World, e: Event, b: Id): nat
    requires b in w.st.bindings && w.st.bindings[b].round < |w.st.bindings[b].slots|
  {
    var bi := w.st.bindings[b];
    if PushesBinding(w, e, b) then Members.Pick(bi.slots, bi.round, |bi.slots|).1 else bi.round
  }

  ghost predicate SameRounds(st: State, st': State) {
    forall b {:trigger st'.bindings[b]} :: b in st.bindings && b in st'.bindings ==>
      st'.bindings[b].round == st.bindings[b].round
  }

  lemma DestroyRounds(st: State, s: Sid)
    requires Linked(st)
    ensures SameRounds(st, Destroy(st, s))
  {
  }

  lemma SubscribeRounds(st: State, s: Sid, dest: Name)
    requires Linked(st)
    ensures SameRounds(st, Brokers.Subscribe(st, s, dest).0)
  {
    forall b | b in st.bindings
      ensures b < st.nextId
    {
      assert BindingOk(st, b);
    }
  }

  lemma TopicBindings(st: State, b: Id, net: seq<int>)
    requires CanPushLast(st, b) && st.bindings[b].kind == Topic
    ensures PushBinding(st, b, net).bindings == st.bindings
  {
    SlotsCanPush(st, b);
    TopicPushDelivers(st, st.bindings[b].slots, 0, |st.published| - 1, net);
  }

  lemma QueueBindings(st: State, b: Id, net: seq<int>)
    requires CanPushLast(st, b) && st.bindings[b].kind == Queue
    ensures PushBinding(st, b, net).bindings == Turned(st, b).bindings
  {
    var bi := st.bindings[b];
    var i := Members.Pick(bi.slots, bi.round, |bi.slots|).0;
    if i.Some? {
      var q := bi.slots[i.value].value;
      TargetsCanPush(st, b, q);
      TurnedCanPush(st, b, q);
      TurnedKeeps(st, b);
      DeliverKeeps(Turned(st, b), q, |st.published| - 1, Senders.NetAt(net, i.value));
    }
  }

  lemma EnqueueBindings(st: State, dest: Name, m: seq<byte>, net: seq<int>)
    requires Inv(st) && NonePushesStale(st, Targets(st, dest), m)
    ensures dest in st.table ==> NameOk(st, dest) && BindingOk(st, st.table[dest])
    ensures Enqueue(st, dest, m, net).bindings ==
            if dest in st.table && st.bindings[st.table[dest]].kind == Queue then Turned(st, st.table[dest]).bindings
            else st.bindings
  {
    if dest in st.table {
      var b := st.table[dest];
      assert NameOk(st, dest);
      PublishedCanPush(st, dest, m);
      if st.bindings[b].kind == Queue {
        QueueBindings(Publish(st, m), b, net);
      } else {
        TopicBindings(Publish(st, m), b, net);
      }
    }
  }

  lemma SendRounds(w: World, f: seq<byte>, net: seq<int>, b: Id)
    requires Inv(w.st) && SendDefined(w, f) && b in w.st.bindings
    ensures BindingOk(w.st, b) && b in HandleSend(w, f, net).0.st.bindings
    ensures HandleSend(w, f, net).0.st.bindings[b].round ==
            var bi := w.st.bindings[b];
            if Publishes(f) && QueueNamed(w.st, Destination(f).value, b)
            then Members.Pick(bi.slots, bi.round, |bi.slots|).1 else bi.round
  {
    assert BindingOk(w.st, b);
    if Publishes(f) {
      EnqueueBindings(w.st, Destination(f).value, SentMessage(w, f), net);
    }
  }

  lemma {:induction false} FrameRounds(w: World, s: Sid, f: seq<byte>, net: seq<int>, b: Id)
    requires Defined(w, FrameIn(s, f, net)) && b in w.st.bindings && b in Step(w, FrameIn(s, f, net)).st.bindings
    ensures BindingOk(w.st, b)
    ensures Step(w, FrameIn(s, f, net)).st.bindings[b].round == RoundAfter(w, FrameIn(s, f, net), b)
  {
    assert BindingOk(w.st, b);
    PublicationOf(w, s, f, net);
    match Handler(w, s, f)
    case None =>
    case Some(Connect) =>
    case Some(Disconnect) => DestroyRounds(w.st, s);
    case Some(Send) => SendRounds(w, f, net, b);
    case Some(Subscribe) =>
      if Destination(f).Some? {
        SubscribeRounds(w.st, s, Destination(f).value);
      }
    case Some(Unsubscribe) =>
  }

  /** The cursor of a binding moves exactly in a SEND to it, and then behind the member served. */
  lemma {:induction false} StepRounds(w: World, e: Event, b: Id)
    requires Defined(w, e) && b in w.st.bindings && b in Step(w, e).st.bindings
    ensures BindingOk(w.st, b) && Step(w, e).st.bindings[b].round == RoundAfter(w, e, b)
  {
    assert BindingOk(w.st, b);
    match e
    case SessionStart(s) =>
    case SessionEnd(s) => DestroyRounds(w.st, s);
    case WritableSocket(s, n) =>
      if s in w.st.sessions && w.st.sessions[s].msgq.Some? {
        OwnStream(w.st, s);
        ResumeKeeps(w.st, w.st.sessions[s].msgq.value, n);
      }
    case FrameIn(s, f, net) => FrameRounds(w, s, f, net, b);
  }

  // ---------------------------------------------------------------------------
  // Fairness
  // ---------------------------------------------------------------------------

  /** The slot that a SEND to binding b is for. */
  function Serves(w: World, e: Event, b: Id): seq<nat> {
    if PushesBinding(w, e, b) && w.st.bindings[b].round < |w.st.bindings[b].slots| then
      var bi := w.st.bindings[b];
      var i := Members.Pick(bi.slots, bi.round, |bi.slots|).0;
      if i.Some? then [i.value] else []
    else []
  }

  /** A message is pushed to the queue in that slot, and to no other. */
  lemma ServedIsTarget(w: World, e: Event, b: Id)
    requires Inv(w.st) && PushesBinding(w, e, b)
    ensures |Serves(w, e, b)| == 1
    ensures var i := Serves(w, e, b)[0];
            && i < |w.st.bindings[b].slots| && w.st.bindings[b].slots[i].Some?
            && Targets(w.st, Destination(e.f).value) == {w.st.bindings[b].slots[i].value}
  {
    assert BindingOk(w.st, b);
    var bi := w.st.bindings[b];
    Members.TurnIsOrder(bi.slots, bi.round);
    Members.PickRotates(bi.slots, bi.round);
  }

  /** From `round` on nobody is served, or the member whose turn it is. */
  ghost predicate TurnTaken(slots: seq<Option<Id>>, round: nat, served: seq<nat>, next: nat) {
    round < |slots| &&
    if served == [] then next == round
    else |served| == 1 && Members.Pick(slots, round, |slots|) == (Some(served[0]), next)
  }

  lemma ServesTurn(w: World, w': World, e: Event, b: Id)
    requires Defined(w, e) && w' == Step(w, e) && b in w.st.bindings && b in w'.st.bindings
    ensures TurnTaken(w.st.bindings[b].slots, w.st.bindings[b].round, Serves(w, e, b), w'.st.bindings[b].round)
  {
    StepRounds(w, e, b);
    if PushesBinding(w, e, b) {
      ServedIsTarget(w, e, b);
    }
  }

  /** `n` pushes from `round` on serve these slots, and leave the cursor at `at`. */
  ghost predicate AreServed(slots: seq<Option<Id>>, round: nat, served: seq<nat>, at: nat) {
    round < |slots| && Members.Picks(slots, round, |served|) == (served, at)
  }

  lemma OneMoreServed(slots: seq<Option<Id>>, round: nat, served: seq<nat>, at: nat, i: nat)
    requires AreServed(slots, round, served, at) && Members.Pick(slots, at, |slots|).0 == Some(i)
    ensures AreServed(slots, round, served + [i], Members.Pick(slots, at, |slots|).1)
  {
  }

  lemma TakenTurn(slots: seq<Option<Id>>, round: nat, served: seq<nat>, at: nat, more: seq<nat>, next: nat)
    requires AreServed(slots, round, served, at) && TurnTaken(slots, at, more, next)
    ensures AreServed(slots, round, served + more, next)
  {
    if more == [] {
      ConcatNothing(served);
    } else {
      assert more == [more[0]];
      OneMoreServed(slots, round, served, at, more[0]);
    }
  }

  /** The slots of binding b that the events serve, from world `w` on. */
  ghost function ServedFrom(w: World, es: seq<Event>, b: Id): seq<nat>
    decreases |es|
  {
    if es == [] then [] else Serves(w, es[0], b) + ServedFrom(Next(w, es[0]), es[1..], b)
  }

  /** Meanwhile nobody joins or leaves the binding. */
  ghost predicate SameSlots(w: World, es: seq<Event>, b: Id, slots: seq<Option<Id>>)
    decreases |es|
  {
    && b in w.st.bindings && w.st.bindings[b].slots == slots
    && (es == [] || SameSlots(Next(w, es[0]), es[1..], b, slots))
  }

  lemma ServedNext(w: World, w': World, e: Event, b: Id, slots: seq<Option<Id>>, round: nat, served: seq<nat>)
    requires Inv(w.st) && EventDefined(w, e) && w' == Next(w, e) && b in w.st.bindings && b in w'.st.bindings
    requires w.st.bindings[b].slots == slots && AreServed(slots, round, served, w.st.bindings[b].round)
    ensures Inv(w'.st) && AreServed(slots, round, served + Serves(w, e, b), w'.st.bindings[b].round)
  {
    NextIsStep(w, e);
    StepKeeps(w, e);
    ServesTurn(w, w', e, b);
    TakenTurn(slots, round, served, w.st.bindings[b].round, Serves(w, e, b), w'.st.bindings[b].round);
  }

  lemma FirstOfStretch(w: World, w': World, es: seq<Event>, b: Id, slots: seq<Option<Id>>)
    requires es != [] && DefinedFrom(w, es) && SameSlots(w, es, b, slots) && w' == Next(w, es[0])
    ensures EventDefined(w, es[0]) && DefinedFrom(w', es[1..]) && SameSlots(w', es[1..], b, slots)
    ensures b in w.st.bindings && w.st.bindings[b].slots == slots && b in w'.st.bindings
    ensures ServedFrom(w, es, b) == Serves(w, es[0], b) + ServedFrom(w', es[1..], b)
  {
  }

  /** So they serve the slots in the order of the rounds. */
  lemma {:induction false} ServedArePicks(w: World, es: seq<Event>, b: Id, slots: seq<Option<Id>>, round: nat,
                                          served: seq<nat>, now: nat) returns (at: nat)
    requires Inv(w.st) && DefinedFrom(w, es) && SameSlots(w, es, b, slots)
    requires now == w.st.bindings[b].round && AreServed(slots, round, served, now)
    ensures AreServed(slots, round, served + ServedFrom(w, es, b), at)
    decreases |es|
  {
    if es == [] {
      ConcatNothing(served);
      at := now;
    } else {
      var w' := Next(w, es[0]);
      FirstOfStretch(w, w', es, b, slots);
      ServedNext(w, w', es[0], b, slots, round, served);
      var more := Serves(w, es[0], b);
      at := ServedArePicks(w', es[1..], b, slots, round, served + more, w'.st.bindings[b].round);
      ConcatAssoc(served, more, ServedFrom(w', es[1..], b));
    }
  }

  /** Fairness over runs: while nobody joins or leaves a queue binding, the numbers of messages that
      are pushed to any two members differ by at most one, whatever else happens in between. */
  lemma RunIsFair(before: seq<Event>, es: seq<Event>, b: Id, slots: seq<Option<Id>>, i: nat, j: nat)
    requires DefinedRun(before + es) && SameSlots(Run(before), es, b, slots)
    requires i < |slots| && j < |slots| && slots[i].Some? && slots[j].Some?
    ensures var served := ServedFrom(Run(before), es, b);
            Members.Attempts(served, i) <= Members.Attempts(served, j) + 1
  {
    var w := Run(before);
    RunsOn(before, es);
    EveryRun(before);
    assert BindingOk(w.st, b);
    var round := w.st.bindings[b].round;
    var at := ServedArePicks(w, es, b, slots, round, [], round);
    assert [] + ServedFrom(w, es, b) == ServedFrom(w, es, b);
    Members.Fairness(slots, round, |ServedFrom(w, es, b)|, i, j);
  }
}
