/** The protocol states of stomp/stomp_proto.c on top of the broker: what a frame does. */
module Protocol {
  import opened Bytes
  import opened Rings
  import opened Frames
  import opened Forwarding
  import opened Brokers
  import opened BrokerSteps
  import Senders

  datatype Command = Connect | Disconnect | Send | Subscribe | Unsubscribe

  /** "CONNECT", "DISCONNECT", "SEND", "SUBSCRIBE" and "UNSUBSCRIBE". */
  const CONNECT: seq<byte> := [67, 79, 78, 78, 69, 67, 84]
  const DISCONNECT: seq<byte> := [68, 73, 83, 67, 79, 78, 78, 69, 67, 84]
  const SEND: seq<byte> := [83, 69, 78, 68]
  const SUBSCRIBE: seq<byte> := [83, 85, 66, 83, 67, 82, 73, 66, 69]
  const UNSUBSCRIBE: seq<byte> := [85, 78, 83, 85, 66, 83, 67, 82, 73, 66, 69]

  /** StompCommands: the commands of a session that is connected, or not yet. */
  function Table(connected: bool): (t: seq<(seq<byte>, Command)>)
    ensures forall i :: 0 <= i < |t| ==> (t[i].1 == Connect <==> !connected)
  {
    if connected then
      [(DISCONNECT, Disconnect), (SEND, Send), (SUBSCRIBE, Subscribe), (UNSUBSCRIBE, Unsubscribe)]
    else
      [(CONNECT, Connect)]
  }

  function Names(t: seq<(seq<byte>, Command)>): (r: seq<seq<byte>>)
    ensures |r| == |t|
  {
    seq(|t|, i requires 0 <= i < |t| => t[i].0)
  }

  /** The broker and the global MessageId. */
  datatype World = World(st: State, messageId: nat)

  datatype Event =
    | SessionStart(s: Sid)
    | SessionEnd(s: Sid)
    | FrameIn(s: Sid, f: seq<byte>, net: seq<int>)
    | WritableSocket(s: Sid, n: int)

  /** The handler that stomp_msg_input calls: none without session data or for an unknown command. */
  function Handler(w: World, s: Sid, f: seq<byte>): Option<Command> {
    if s !in w.st.sessions then None
    else
      var t := Table(w.st.sessions[s].connected);
      match ParseCommand(f, Names(t))
      case None => None
      case Some(i) => Some(t[i].1)
  }

  predicate IsConnected(st: State, s: Sid) {
    s in st.sessions && st.sessions[s].connected
  }

  /** The frame starts with "CONNECT", and so on. */
  predicate IsConnect(f: seq<byte>) {
    [67, 79, 78, 78, 69, 67, 84] <= f
  }

  predicate IsDisconnect(f: seq<byte>) {
    [68, 73, 83, 67, 79, 78, 78, 69, 67, 84] <= f
  }

  predicate IsSend(f: seq<byte>) {
    [83, 69, 78, 68] <= f
  }

  predicate IsSubscribe(f: seq<byte>) {
    [83, 85, 66, 83, 67, 82, 73, 66, 69] <= f
  }

  predicate IsUnsubscribe(f: seq<byte>) {
    [85, 78, 83, 85, 66, 83, 67, 82, 73, 66, 69] <= f
  }

  /** The first two bytes tell the commands of a connected session apart. */
  lemma ConnectedCommand(f: seq<byte>)
    ensures var r := ParseCommand(f, Names(Table(true)));
            && (r == Some(0) <==> IsDisconnect(f))
            && (r == Some(1) <==> IsSend(f))
            && (r == Some(2) <==> IsSubscribe(f))
            && (r == Some(3) <==> IsUnsubscribe(f))
  {
    var n := Names(Table(true));
    assert n[0] == [68, 73, 83, 67, 79, 78, 78, 69, 67, 84] && n[1] == [83, 69, 78, 68];
    assert n[2] == [83, 85, 66, 83, 67, 82, 73, 66, 69] && n[3] == [85, 78, 83, 85, 66, 83, 67, 82, 73, 66, 69];
    assert n[0] <= f ==> f[0] == 68 && f[1] == 73;
    assert n[1] <= f ==> f[0] == 83 && f[1] == 69;
    assert n[2] <= f ==> f[0] == 83 && f[1] == 85;
    assert n[3] <= f ==> f[0] == 85 && f[1] == 78;
  }

  /** Which frames have which handler: those of a session that is connected start with DISCONNECT,
      SEND, SUBSCRIBE or UNSUBSCRIBE, those of one that is not with CONNECT. */
  lemma HandlerOf(w: World, s: Sid, f: seq<byte>)
    ensures Handler(w, s, f) == Some(Connect) <==>
            s in w.st.sessions && !IsConnected(w.st, s) && IsConnect(f)
    ensures Handler(w, s, f) == Some(Disconnect) <==>
            IsConnected(w.st, s) && IsDisconnect(f)
    ensures Handler(w, s, f) == Some(Send) <==> IsConnected(w.st, s) && IsSend(f)
    ensures Handler(w, s, f) == Some(Subscribe) <==>
            IsConnected(w.st, s) && IsSubscribe(f)
    ensures Handler(w, s, f) == Some(Unsubscribe) <==>
            IsConnected(w.st, s) && IsUnsubscribe(f)
  {
    ConnectedCommand(f);
    assert Names(Table(false)) == [[67, 79, 78, 78, 69, 67, 84]];
  }

  function Destination(f: seq<byte>): Option<Name> {
    HeaderValue(f, Parse(f, |f|).hdrs, DESTINATION)
  }

  function NextId(w: World): nat {
    (w.messageId + 1) % 0x1_0000_0000
  }

  /** The message that stomp_connected_send makes, with the next message-id. */
  function SentMessage(w: World, f: seq<byte>): Message
    requires SkipCommand(f).Some?
  {
    Forwarded(f, NextId(w)).value
  }

  /** A frame that stomp_connected_send turns into a message. */
  predicate Publishes(f: seq<byte>) {
    Destination(f).Some? && SkipCommand(f).Some?
  }

  /** No push of the message sends from a queue that is gone. */
  ghost predicate SendDefined(w: World, f: seq<byte>) {
    Publishes(f) ==> NonePushesStale(w.st, Targets(w.st, Destination(f).value), SentMessage(w, f))
  }

  /** stomp_connected_send; the second result is its return value. */
  function HandleSend(w: World, f: seq<byte>, net: seq<int>): (World, int)
    requires Inv(w.st) && SendDefined(w, f)
  {
    if !Publishes(f) then (w, -1)
    else
      (World(Enqueue(w.st, Destination(f).value, SentMessage(w, f), net), NextId(w)), 0)
  }

  /** The state CONNECTED for a session. */
  function Connected(st: State, s: Sid): State
    requires s in st.sessions
  {
    st.(sessions := st.sessions[s := st.sessions[s].(connected := true)])
  }

  /** stomp_msg_input; after DISCONNECT the session data is gone. */
  function Input(w: World, s: Sid, f: seq<byte>, net: seq<int>): (World, int)
    requires Inv(w.st) && (Handler(w, s, f) == Some(Send) ==> SendDefined(w, f))
  {
    match Handler(w, s, f)
    case None => (w, -1)
    case Some(Connect) =>
      if Senders.NetAt(net, 0) < 0 then (w, -1) else (w.(st := Connected(w.st, s)), 0)
    case Some(Disconnect) => (w.(st := Destroy(w.st, s)), 0)
    case Some(Send) => HandleSend(w, f, net)
    case Some(Subscribe) =>
      if Destination(f).None? then (w, -1)
      else
        var (st, rc) := Brokers.Subscribe(w.st, s, Destination(f).value);
        (w.(st := st), rc)
    case Some(Unsubscribe) =>
      if Destination(f).None? then (w, -1)
      else
        var (st, rc) := Brokers.Unsubscribe(w.st, s, Destination(f).value);
        (w.(st := st), rc)
  }

  /** The event sends from a queue that is gone. */
  ghost predicate SendsFreed(w: World, e: Event) {
    match e
    case SessionStart(s) => false
    case SessionEnd(s) => false
    case FrameIn(s, f, net) => Handler(w, s, f) == Some(Send) && !SendDefined(w, f)
    case WritableSocket(s, n) => SendsStale(w.st, s)
  }

  /** The size of the buffers that stomp_read_header copies into, and BINDING_NAME_MAX. */
  const HEADER_BUFFER := 256
  const NAME_BUFFER := 64

  predicate TooLong(f: seq<byte>, key: seq<byte>) {
    var v := HeaderValue(f, Parse(f, |f|).hdrs, key);
    v.Some? && |v.value| >= HEADER_BUFFER
  }

  /** A header value, or the name of a new binding, is copied over the end of its buffer. */
  predicate Overflows(w: World, e: Event) {
    e.FrameIn? &&
    var c := Handler(w, e.s, e.f);
    || TooLong(e.f, CONTENT_LENGTH)
    || (c in {Some(Send), Some(Subscribe), Some(Unsubscribe)} && TooLong(e.f, DESTINATION))
    || (c == Some(Subscribe) && Destination(e.f).Some?
        && NamesBinding(w.st, e.s, Destination(e.f).value) && |Destination(e.f).value| >= NAME_BUFFER)
  }

  /** What the code does in these cases is open. */
  ghost predicate EventDefined(w: World, e: Event) {
    !SendsFreed(w, e) && !Overflows(w, e)
  }

  ghost predicate Defined(w: World, e: Event) {
    Inv(w.st) && EventDefined(w, e)
  }

  function Step(w: World, e: Event): World
    requires Defined(w, e)
  {
    match e
    case SessionStart(s) => w.(st := Open(w.st, s))
    case SessionEnd(s) => w.(st := Destroy(w.st, s))
    case FrameIn(s, f, net) => Input(w, s, f, net).0
    case WritableSocket(s, n) => w.(st := Writable(w.st, s, n))
  }

  // ---------------------------------------------------------------------------
  // The invariant
  // ---------------------------------------------------------------------------

  lemma ConnectedKeepsLinks(st: State, s: Sid)
    requires Linked(st) && s in st.sessions
    ensures Linked(Connected(st, s))
  {
    var st' := Connected(st, s);
    forall k | k in st'.sessions
      ensures SessionOk(st', k)
    {
      assert SessionOk(st, k);
    }
    forall q | q in st'.queues
      ensures QueueOk(st', q)
    {
      assert QueueOk(st, q);
    }
    forall b | b in st'.bindings
      ensures BindingOk(st', b)
    {
      assert BindingOk(st, b);
      forall p | Some(p) in st'.bindings[b].slots
        ensures SlotOk(st', b, p)
      {
        assert SlotOk(st, b, p);
      }
    }
    assert forall n :: n in st'.table ==> NameOk(st, n);
  }

  lemma ConnectedKeeps(st: State, s: Sid)
    requires Inv(st) && s in st.sessions
    ensures Inv(Connected(st, s)) && Quiet(st, Connected(st, s))
  {
    ConnectedKeepsLinks(st, s);
    QuietKeeps(st, Connected(st, s));
  }

  lemma EnqueueKeeps(st: State, dest: Name, m: Message, net: seq<int>)
    requires Inv(st) && NonePushesStale(st, Targets(st, dest), m)
    ensures var st' := Enqueue(st, dest, m, net);
            && Inv(st') && SameLinks(st, st') && SameStale(st, st') && st'.published == st.published + [m]
  {
    EnqueueDelivers(st, dest, m, net);
    PublishKeeps(st, m);
    SameLinksTrans(st, Publish(st, m), Enqueue(st, dest, m, net));
  }

  lemma InputKeeps(w: World, s: Sid, f: seq<byte>, net: seq<int>)
    requires Defined(w, FrameIn(s, f, net))
    ensures Inv(Input(w, s, f, net).0.st)
  {
    match Handler(w, s, f)
    case None =>
    case Some(Connect) => ConnectedKeeps(w.st, s);
    case Some(Disconnect) => DestroyKeeps(w.st, s);
    case Some(Send) =>
      if Publishes(f) {
        EnqueueKeeps(w.st, Destination(f).value, SentMessage(w, f), net);
      }
    case Some(Subscribe) =>
      if Destination(f).Some? {
        SubscribeKeeps(w.st, s, Destination(f).value);
      }
    case Some(Unsubscribe) =>
      if Destination(f).Some? {
        UnsubscribeKeeps(w.st, s, Destination(f).value);
      }
  }

  /** Every event keeps the invariant of the whole system. */
  lemma StepKeeps(w: World, e: Event)
    requires Defined(w, e)
    ensures Inv(Step(w, e).st)
  {
    match e
    case SessionStart(s) => OpenKeeps(w.st, s);
    case SessionEnd(s) => DestroyKeeps(w.st, s);
    case WritableSocket(s, n) => WritableKeeps(w.st, s, n);
    case FrameIn(s, f, net) => InputKeeps(w, s, f, net);
  }

  // ---------------------------------------------------------------------------
  // Stale sessions
  // ---------------------------------------------------------------------------

  /** The event that leaves session s with a stale buffer. */
  predicate StaleEvent(w: World, e: Event, s: Sid) {
    e.FrameIn? && e.s == s && IsConnected(w.st, s) && IsSubscribe(e.f)
    && Destination(e.f).Some? && LeavesStale(w.st, s, Destination(e.f).value)
  }

  /** A DISCONNECT frame of a connected session, or the end of the session. */
  predicate Ends(w: World, e: Event, s: Sid) {
    || e == SessionEnd(s)
    || (e.FrameIn? && e.s == s && IsConnected(w.st, s) && IsDisconnect(e.f))
  }

  lemma InputStaleness(w: World, k: Sid, f: seq<byte>, net: seq<int>, s: Sid)
    requires Defined(w, FrameIn(k, f, net))
    ensures var e := FrameIn(k, f, net);
            Stale(Step(w, e).st, s) <==> StaleEvent(w, e, s) || (Stale(w.st, s) && !Ends(w, e, s))
  {
    HandlerOf(w, k, f);
    match Handler(w, k, f)
    case None =>
    case Some(Connect) =>
    case Some(Disconnect) => DestroyKeeps(w.st, k);
    case Some(Send) =>
      if Publishes(f) {
        EnqueueKeeps(w.st, Destination(f).value, SentMessage(w, f), net);
      }
    case Some(Subscribe) =>
      if Destination(f).Some? {
        SubscribeStaleness(w.st, k, Destination(f).value, s);
      }
    case Some(Unsubscribe) =>
      if Destination(f).Some? {
        UnsubscribeKeeps(w.st, k, Destination(f).value);
        if s in w.st.sessions {
          QuietStaleness(w.st, Step(w, FrameIn(k, f, net)).st, s);
        }
      }
  }

  /** A session is stale exactly if the event leaves it stale, or if it was and the event does not
      end it. */
  lemma StepStaleness(w: World, e: Event, s: Sid)
    requires Defined(w, e)
    ensures Stale(Step(w, e).st, s) <==> StaleEvent(w, e, s) || (Stale(w.st, s) && !Ends(w, e, s))
  {
    match e
    case SessionStart(k) =>
    case SessionEnd(k) => DestroyKeeps(w.st, k);
    case WritableSocket(k, n) => WritableKeeps(w.st, k, n);
    case FrameIn(k, f, net) => InputStaleness(w, k, f, net, s);
  }

  ghost predicate NoneStale(st: State) {
    forall s :: !Stale(st, s)
  }

  /** Every queue's stream is in order, and a session without a queue has nothing to send. */
  ghost predicate AllInOrder(st: State) {
    && (forall q {:trigger StreamOk(st, q)} :: q in st.queues ==> StreamOk(st, q))
    && (forall s :: s in st.sessions && st.sessions[s].msgq.None? ==> st.sessions[s].slen == 0)
  }

  lemma InOrderUnlessStale(st: State)
    requires Inv(st)
    ensures AllInOrder(st) <==> NoneStale(st)
  {
    if NoneStale(st) {
      forall q | q in st.queues
        ensures StreamOk(st, q)
      {
        assert QueueSound(st, q);
      }
      forall s | s in st.sessions && st.sessions[s].msgq.None?
        ensures st.sessions[s].slen == 0
      {
        assert !Stale(st, s) && BufferOk(st, s);
      }
    }
    if AllInOrder(st) {
      forall s
        ensures !Stale(st, s)
      {
        if s in st.sessions && st.sessions[s].msgq.Some? {
          assert SessionOk(st, s) && StreamOk(st, st.sessions[s].msgq.value);
        }
      }
    }
  }

  lemma NoneSendsFreed(w: World, e: Event)
    requires NoneStale(w.st)
    ensures !SendsFreed(w, e)
  {
  }

  /** From a state in which everything is in order, an event keeps it so exactly if it leaves no
      session stale. */
  lemma StepKeepsOrderUnlessStale(w: World, e: Event)
    requires Inv(w.st) && AllInOrder(w.st) && !Overflows(w, e)
    ensures Defined(w, e) && (AllInOrder(Step(w, e).st) <==> forall s :: !StaleEvent(w, e, s))
  {
    InOrderUnlessStale(w.st);
    NoneSendsFreed(w, e);
    StepKeeps(w, e);
    InOrderUnlessStale(Step(w, e).st);
    forall s
      ensures Stale(Step(w, e).st, s) <==> StaleEvent(w, e, s)
    {
      StepStaleness(w, e, s);
    }
    assert NoneStale(Step(w, e).st) <==> forall s :: !StaleEvent(w, e, s);
  }

  /** The event makes session s send what is left in a queue that is gone: the session has a new
      queue, and its socket is writable or the new queue accepts a message. */
  ghost predicate ReadsFreed(w: World, e: Event, s: Sid) {
    && SendsStale(w.st, s) && w.st.sessions[s].sbuf.Some? && w.st.sessions[s].sbuf.value !in w.st.queues
    && match e
       case SessionStart(k) => false
       case SessionEnd(k) => false
       case WritableSocket(k, n) => k == s
       case FrameIn(k, f, net) =>
         var q := w.st.sessions[s].msgq.value;
         && Handler(w, k, f) == Some(Send) && Publishes(f) && q in Targets(w.st, Destination(f).value)
         && q in w.st.queues && Rings.Valid(w.st.queues[q].ring) && Push(w.st.queues[q].ring, SentMessage(w, f)).1
  }

  lemma PushReadsFreed(w: World, s: Sid, f: seq<byte>, net: seq<int>) returns (k: Sid)
    requires Inv(w.st) && SendsFreed(w, FrameIn(s, f, net))
    ensures ReadsFreed(w, FrameIn(s, f, net), k)
  {
    var dest, m := Destination(f).value, SentMessage(w, f);
    var q :| q in Targets(w.st, dest) && PushesStale(w.st, q, m);
    k := w.st.queues[q].owner;
    assert QueueOk(w.st, q) && QueueSound(w.st, q);
    StaleIsDangling(w.st, k);
  }

  lemma ReadsFreedSends(w: World, e: Event, s: Sid)
    requires Inv(w.st) && ReadsFreed(w, e, s)
    ensures SendsFreed(w, e)
  {
    if e.FrameIn? {
      var q := w.st.sessions[s].msgq.value;
      assert SessionOk(w.st, s);
      assert PushesStale(w.st, q, SentMessage(w, e.f));
    }
  }

  /** The events behind which nothing is known of the code are, but for overflows, exactly these. */
  lemma UndefinedReadsFreed(w: World, e: Event)
    requires Inv(w.st)
    ensures SendsFreed(w, e) <==> exists s :: ReadsFreed(w, e, s)
  {
    if SendsFreed(w, e) {
      if e.WritableSocket? {
        StaleIsDangling(w.st, e.s);
        assert ReadsFreed(w, e, e.s);
      } else {
        var k := PushReadsFreed(w, e.s, e.f, e.net);
      }
    }
    forall s | ReadsFreed(w, e, s)
      ensures SendsFreed(w, e)
    {
      ReadsFreedSends(w, e, s);
    }
  }

  // ---------------------------------------------------------------------------
  // Runs
  // ---------------------------------------------------------------------------

  const START := World(Init(), 0)

  ghost function Next(w: World, e: Event): World {
    if Defined(w, e) then Step(w, e) else w
  }

  ghost function Run(es: seq<Event>): World {
    if es == [] then START else Next(Run(es[..|es| - 1]), es[|es| - 1])
  }

  /** No event of the run sends from a queue that is gone, or overflows a buffer. */
  ghost predicate DefinedRun(es: seq<Event>) {
    es != [] ==>
      var n := |es| - 1;
      DefinedRun(es[..n]) && EventDefined(Run(es[..n]), es[n])
  }

  /** The invariant of the whole system holds after every such run. */
  lemma {:induction false} EveryRun(es: seq<Event>)
    requires DefinedRun(es)
    ensures Inv(Run(es).st)
    decreases |es|
  {
    if es != [] {
      var n := |es| - 1;
      EveryRun(es[..n]);
      StepKeeps(Run(es[..n]), es[n]);
    }
  }

  lemma NextIsStep(w: World, e: Event)
    requires Inv(w.st) && EventDefined(w, e)
    ensures Defined(w, e) && Next(w, e) == Step(w, e)
  {
  }

  lemma LastEvent(es: seq<Event>, w: World, e: Event)
    requires DefinedRun(es) && es != [] && w == Run(es[..|es| - 1]) && e == es[|es| - 1]
    ensures DefinedRun(es[..|es| - 1]) && EventDefined(w, e) && Run(es) == Next(w, e)
  {
  }

  /** The last event of a run, in world `w`. */
  lemma LastStep(es: seq<Event>, w: World, e: Event)
    requires DefinedRun(es) && es != [] && w == Run(es[..|es| - 1]) && e == es[|es| - 1]
    ensures DefinedRun(es[..|es| - 1]) && Defined(w, e) && Run(es) == Step(w, e)
  {
    LastEvent(es, w, e);
    EveryRun(es[..|es| - 1]);
    NextIsStep(w, e);
  }

  /** One event more. */
  lemma StepTo(es: seq<Event>, e: Event, w: World, w': World)
    requires DefinedRun(es) && Run(es) == w && Defined(w, e) && Step(w, e) == w'
    ensures DefinedRun(es + [e]) && Run(es + [e]) == w'
  {
    assert (es + [e])[..|es|] == es;
  }

  lemma {:induction false} RunPrefix(es: seq<Event>, n: nat)
    requires DefinedRun(es) && n <= |es|
    ensures DefinedRun(es[..n])
    decreases |es|
  {
    if n == |es| {
      assert es[..n] == es;
    } else {
      RunPrefix(es[..|es| - 1], n);
      assert es[..|es| - 1][..n] == es[..n];
    }
  }

  /** Events from a given world on. */
  ghost predicate DefinedFrom(w: World, es: seq<Event>)
    decreases |es|
  {
    es == [] || (EventDefined(w, es[0]) && DefinedFrom(Next(w, es[0]), es[1..]))
  }

  /** The rest of a run starts where its first part ends. */
  lemma {:induction false} RunsOn(before: seq<Event>, es: seq<Event>)
    requires DefinedRun(before + es)
    ensures DefinedRun(before) && DefinedFrom(Run(before), es)
    decreases |es|
  {
    RunPrefix(before + es, |before|);
    assert (before + es)[..|before|] == before;
    if es != [] {
      var next := before + [es[0]];
      assert next + es[1..] == before + es && next[..|before|] == before;
      RunsOn(next, es[1..]);
      LastEvent(next, Run(before), es[0]);
    }
  }

  // ---------------------------------------------------------------------------
  // Histories
  // ---------------------------------------------------------------------------

  /** Step j of n steps starts something, and none behind it ends it. */
  ghost predicate SinceStep(starts: nat -> bool, ends: nat -> bool, n: nat, j: nat) {
    j < n && starts(j) && forall k :: j < k < n ==> !ends(k)
  }

  ghost predicate Since(starts: nat -> bool, ends: nat -> bool, n: nat) {
    exists j: nat :: SinceStep(starts, ends, n, j)
  }

  lemma SinceNext(starts: nat -> bool, ends: nat -> bool, n: nat)
    ensures Since(starts, ends, n + 1) <==> starts(n) || (Since(starts, ends, n) && !ends(n))
  {
    if starts(n) {
      assert SinceStep(starts, ends, n + 1, n);
    }
    if Since(starts, ends, n) && !ends(n) {
      var j: nat :| SinceStep(starts, ends, n, j);
      assert SinceStep(starts, ends, n + 1, j);
    }
    if Since(starts, ends, n + 1) && !starts(n) {
      var j: nat :| SinceStep(starts, ends, n + 1, j);
      assert SinceStep(starts, ends, n, j);
    }
  }

  ghost function StaleAt(es: seq<Event>, s: Sid): nat -> bool {
    (j: nat) => j < |es| && StaleEvent(Run(es[..j]), es[j], s)
  }

  ghost function EndsAt(es: seq<Event>, s: Sid): nat -> bool {
    (j: nat) => j < |es| && Ends(Run(es[..j]), es[j], s)
  }

  /** The world in front of event n of a run, and behind it. */
  lemma {:induction false} RunAt(es: seq<Event>, n: nat)
    requires DefinedRun(es) && n < |es|
    ensures Defined(Run(es[..n]), es[n]) && Run(es[..n + 1]) == Step(Run(es[..n]), es[n])
    decreases |es|
  {
    var last := |es| - 1;
    LastStep(es, Run(es[..last]), es[last]);
    if n == last {
      assert es[..n + 1] == es;
    } else {
      RunAt(es[..last], n);
      assert es[..last][..n] == es[..n] && es[..last][..n + 1] == es[..n + 1];
    }
  }

  lemma {:induction false} StaleUpTo(es: seq<Event>, s: Sid, n: nat)
    requires DefinedRun(es) && n <= |es|
    ensures Stale(Run(es[..n]).st, s) <==> Since(StaleAt(es, s), EndsAt(es, s), n)
  {
    if n > 0 {
      StaleUpTo(es, s, n - 1);
      SinceNext(StaleAt(es, s), EndsAt(es, s), n - 1);
      RunAt(es, n - 1);
      StepStaleness(Run(es[..n - 1]), es[n - 1], s);
    }
  }

  /** Some event of the run left the session stale, and nothing since has ended it. */
  ghost predicate LeftStale(es: seq<Event>, s: Sid) {
    Since(StaleAt(es, s), EndsAt(es, s), |es|)
  }

  lemma StaleHistory(es: seq<Event>, s: Sid)
    requires DefinedRun(es)
    ensures Stale(Run(es).st, s) <==> LeftStale(es, s)
  {
    StaleUpTo(es, s, |es|);
    assert es[..|es|] == es;
  }

  /** So everything is in order after a run exactly if no session was left stale and has not ended
      since. */
  lemma RunInOrder(es: seq<Event>)
    requires DefinedRun(es)
    ensures AllInOrder(Run(es).st) <==> forall s :: !LeftStale(es, s)
  {
    EveryRun(es);
    InOrderUnlessStale(Run(es).st);
    forall s
      ensures Stale(Run(es).st, s) <==> LeftStale(es, s)
    {
      StaleHistory(es, s);
    }
  }
}
