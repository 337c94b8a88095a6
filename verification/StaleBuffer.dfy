/**
 * How a session turns stale and what comes of it: a run of frames that leads to a send from a queue
 * that is gone.
 */
module StaleBuffers {
  import opened Bytes
  import opened Rings
  import opened Frames
  import opened Forwarding
  import opened Building
  import opened Brokers
  import opened BrokerSteps
  import opened Protocol
  import Members
  import Senders

  /** What comes of a stale buffer: after the next subscription the session has a queue again, and
      its next send reads the destroyed one. */
  lemma StaleBufferIsUsed(st: State, s: Sid, dest: Name)
    requires Inv(st) && Stale(st, s) && st.sessions[s].bind.None? && GoodName(dest)
    ensures var st' := Brokers.Subscribe(st, s, dest).0;
            Inv(st') && SendsStale(st', s) && st'.sessions[s].sbuf.Some? && st'.sessions[s].sbuf.value !in st'.queues
  {
    SubscribeKeeps(st, s, dest);
    SubscribeStaleness(st, s, dest, s);
    StaleIsDangling(Brokers.Subscribe(st, s, dest).0, s);
  }

  // ---------------------------------------------------------------------------
  // Five frames
  // ---------------------------------------------------------------------------

  /** A frame with a destination, as a client writes it. */
  function FrameTo(cmd: seq<byte>, name: Name): seq<byte> {
    Build(cmd, [DESTINATION + name], [])
  }

  lemma DestinationIsHeader(name: Name)
    requires IsText(name)
    ensures IsHeaderText(DESTINATION + name)
  {
    var h := DESTINATION + name;
    forall b | b in h
      ensures b != NUL && b != LF && b != CR
    {
      assert b in DESTINATION || b in name;
    }
    assert h[..if |h| < HEADER_LEN_MAX then |h| else HEADER_LEN_MAX][11] == COLON;
  }

  lemma HeaderOfFrame(cmd: seq<byte>, name: Name, key: seq<byte>)
    requires IsText(cmd) && IsText(name) && LF !in key && TextOf([DESTINATION + name], key) != Some([])
    ensures var f := FrameTo(cmd, name);
            HeaderValue(f, Parse(f, |f|).hdrs, key) == TextOf([DESTINATION + name], key)
  {
    var h := DESTINATION + name;
    DestinationIsHeader(name);
    assert !IsHeader([] + [NUL], 0, HEADER_LEN_MAX);
    assert AllHeaders([h]) && Parts(cmd, [h], []);
    BuildIsParsed(cmd, [h], []);
    HeadersBehindCommand(cmd, [h], []);
    BuiltHeaderValue(FrameTo(cmd, name), |cmd| + 1, [h], [] + [NUL], key);
  }

  lemma DestinationOfFrame(cmd: seq<byte>, name: Name)
    requires IsText(cmd) && IsText(name) && !IsSpace(name[0])
    ensures Destination(FrameTo(cmd, name)) == Some(name)
    ensures cmd <= FrameTo(cmd, name)
  {
    var h := DESTINATION + name;
    assert h[|DESTINATION|..] == name;
    assert TextOf([h], DESTINATION) == Some(name);
    HeaderOfFrame(cmd, name, DESTINATION);
  }

  /** Such a frame fits the buffers that its values are copied into. */
  lemma FrameFits(w: World, cmd: seq<byte>, name: Name, net: seq<int>)
    requires IsText(cmd) && IsText(name) && !IsSpace(name[0]) && |name| < NAME_BUFFER
    ensures !Overflows(w, FrameIn(0, FrameTo(cmd, name), net))
  {
    DestinationOfFrame(cmd, name);
    var h := DESTINATION + name;
    assert h[0] == 100 && !(CONTENT_LENGTH <= h);
    assert TextOf([h], CONTENT_LENGTH) == None;
    HeaderOfFrame(cmd, name, CONTENT_LENGTH);
  }

  /** The first two bytes tell the commands of a connected session apart. */
  lemma CommandOfFrame(w: World, cmd: seq<byte>, f: seq<byte>, i: nat)
    requires 0 in w.st.sessions && w.st.sessions[0].connected
    requires i < |Table(true)| && cmd == Table(true)[i].0 && cmd <= f
    ensures Handler(w, 0, f) == Some(Table(true)[i].1)
  {
    var names := Names(Table(true));
    assert names[i] == cmd;
    var r := ParseCommand(f, names);
    assert r.Some? && names[r.value] <= f;
    assert names[r.value][0] == f[0] == cmd[0] && names[r.value][1] == f[1] == cmd[1];
    assert names[0] == DISCONNECT && names[1] == SEND && names[2] == SUBSCRIBE && names[3] == UNSUBSCRIBE;
  }

  // ---------------------------------------------------------------------------
  // Five states
  // ---------------------------------------------------------------------------

  /** The first session, connected. */
  const ALONE := Connected(Open(Init(), 0), 0)

  lemma AloneIsSound()
    ensures Inv(Init()) && Inv(Open(Init(), 0)) && Inv(ALONE) && 0 in ALONE.sessions
    ensures ALONE.sessions[0] == Session(true, None, None, None, 0)
  {
    OpenKeeps(Init(), 0);
    ConnectedKeeps(Open(Init(), 0), 0);
  }

  /** The first subscriber of a queue. */
  function FirstSubscriber(): (st: State)
    ensures Inv(st)
  {
    AloneIsSound();
    SubscribeKeeps(ALONE, 0, QUEUE_PREFIX);
    Brokers.Subscribe(ALONE, 0, QUEUE_PREFIX).0
  }

  /** The session is the only member of the only binding, and nothing was published yet. */
  ghost predicate JustSubscribed(st: State) {
    && Inv(st) && NoneStale(st)
    && st.sessions == map[0 := Session(true, Some(1), Some(0), None, 0)]
    && st.queues == map[0 := NewQueue(0)]
    && st.table == map[QUEUE_PREFIX := 1]
    && 1 in st.bindings && st.bindings[1].kind == Queue && st.bindings[1].round == 0
    && st.bindings[1].slots != [] && st.bindings[1].slots[0] == Some(0)
    && st.published == []
  }

  lemma FirstIsJustSubscribed()
    ensures JustSubscribed(FirstSubscriber())
  {
    var blank := Members.Blank<Id>(Members.INITIAL_SLOTS);
    assert Members.FirstFree(blank, 0) == Some(0);
  }

  /** Its socket takes nothing of the first message. */
  lemma NothingSent(m: seq<byte>)
    requires 0 < |m| <= 1024
    ensures Senders.Consistent(Senders.Start(QUEUE_SIZE))
    ensures var (snd, ok) := Senders.Deliver(Senders.Start(QUEUE_SIZE), m, 0);
            ok && snd.slen == |m|
  {
    var q := Create(QUEUE_SIZE);
    assert Last(q) == [] && Size(Last(q)) == 0;
    assert Last(q) + [m] == [m] && q.held[0 := [m]] == [[m]];
    var pushed := q.(held := [[m]]);
    assert PushLoop(q, m) == (pushed, true) && Push(q, m) == PushLoop(q, m);
    assert Settle(pushed) == pushed;
    assert Senders.SendResult(0, |m|) == 0;
  }

  /** A connected session in the middle of a message, and nobody else. */
  ghost predicate MidMessage(st: State, b: Id) {
    && Inv(st) && 0 in st.sessions && st.sessions[0].connected && st.sessions[0].slen > 0
    && st.sessions[0].bind == Some(b) && st.sessions[0].msgq.Some? && st.table == map[QUEUE_PREFIX := b]
  }

  lemma FirstDelivery(st: State, m: seq<byte>)
    requires JustSubscribed(st) && 0 < |m| <= 1024
    ensures NonePushesStale(st, Targets(st, QUEUE_PREFIX), m)
    ensures var st' := Enqueue(st, QUEUE_PREFIX, m, []);
            0 in st'.queues && st'.queues[0].owner in st'.sessions
            && SenderOf(st', 0) == Senders.Deliver(Senders.Start(QUEUE_SIZE), m, 0).0
  {
    PublishedCanPush(st, QUEUE_PREFIX, m);
    var st1 := Publish(st, m);
    var bi := st1.bindings[1];
    assert Members.Pick(bi.slots, 0, |bi.slots|) == (Some(0), Members.Next(0, |bi.slots|));
    TargetsCanPush(st1, 1, 0);
    TurnedCanPush(st1, 1, 0);
    assert SenderOf(Turned(st1, 1), 0) == Senders.Start(QUEUE_SIZE);
    DeliverIsSender(Turned(st1, 1), 0, 0, 0);
  }

  lemma FirstWaits(st: State, m: seq<byte>)
    requires JustSubscribed(st) && 0 < |m| <= 1024
    ensures NonePushesStale(st, Targets(st, QUEUE_PREFIX), m) && MidMessage(Enqueue(st, QUEUE_PREFIX, m, []), 1)
  {
    FirstDelivery(st, m);
    NothingSent(m);
    EnqueueDelivers(st, QUEUE_PREFIX, m, []);
    var st' := Enqueue(st, QUEUE_PREFIX, m, []);
    assert SameSession(st.sessions[0], st'.sessions[0]) && QueueOk(st', 0);
  }

  // ---------------------------------------------------------------------------
  // A run
  // ---------------------------------------------------------------------------

  /** A session connects, ... */
  function Connecting(): seq<Event> {
    [SessionStart(0)] + [FrameIn(0, Build(CONNECT, [], []), [0])]
  }

  /** ...subscribes to a queue, ... */
  function Subscribing(): seq<Event> {
    Connecting() + [FrameIn(0, FrameTo(SUBSCRIBE, QUEUE_PREFIX), [])]
  }

  /** ...the first message for it cannot be sent yet, ... */
  function Sending(): seq<Event> {
    Subscribing() + [FrameIn(0, FrameTo(SEND, QUEUE_PREFIX), [])]
  }

  /** ...it unsubscribes, ... */
  function Leaving(): seq<Event> {
    Sending() + [FrameIn(0, FrameTo(UNSUBSCRIBE, QUEUE_PREFIX), [])]
  }

  /** ...names neither a queue nor a topic, ... */
  function Refused(): Event {
    FrameIn(0, FrameTo(SUBSCRIBE, [120]), [])
  }

  /** ...and then the queue again. */
  function Returning(): seq<Event> {
    Leaving() + [Refused()] + [FrameIn(0, FrameTo(SUBSCRIBE, QUEUE_PREFIX), [])]
  }

  lemma ConnectStep(w: World)
    requires Inv(w.st) && 0 in w.st.sessions && !w.st.sessions[0].connected
    ensures var e := FrameIn(0, Build(CONNECT, [], []), [0]);
            Defined(w, e) && Step(w, e) == w.(st := Connected(w.st, 0))
  {
    var f := Build(CONNECT, [], []);
    assert CONNECT <= f;
    assert Names(Table(false)) == [CONNECT];
    assert Handler(w, 0, f) == Some(Connect);
  }

  lemma SubscribeInput(w: World, f: seq<byte>, name: Name)
    requires Inv(w.st) && Handler(w, 0, f) == Some(Subscribe) && Destination(f) == Some(name)
    requires !Overflows(w, FrameIn(0, f, []))
    ensures var e := FrameIn(0, f, []);
            && Defined(w, e) && Step(w, e) == w.(st := Brokers.Subscribe(w.st, 0, name).0)
            && (LeavesStale(w.st, 0, name) ==> StaleEvent(w, e, 0))
  {
  }

  lemma UnsubscribeInput(w: World, f: seq<byte>, name: Name)
    requires Inv(w.st) && Handler(w, 0, f) == Some(Unsubscribe) && Destination(f) == Some(name)
    requires !Overflows(w, FrameIn(0, f, []))
    ensures var e := FrameIn(0, f, []);
            Defined(w, e) && Step(w, e) == w.(st := Brokers.Unsubscribe(w.st, 0, name).0)
  {
  }

  /** The command with index i of a connected session, in a frame with a destination. */
  lemma FrameStep(w: World, i: nat, name: Name)
    requires 0 in w.st.sessions && w.st.sessions[0].connected && 1 <= i <= 3
    requires IsText(name) && !IsSpace(name[0]) && |name| < NAME_BUFFER
    ensures var (cmd, c) := Table(true)[i];
            var f := FrameTo(cmd, name);
            && Handler(w, 0, f) == Some(c) && Destination(f) == Some(name)
            && !Overflows(w, FrameIn(0, f, []))
  {
    var cmd := Table(true)[i].0;
    assert IsText(SEND) && IsText(SUBSCRIBE) && IsText(UNSUBSCRIBE);
    DestinationOfFrame(cmd, name);
    FrameFits(w, cmd, name, []);
    CommandOfFrame(w, cmd, FrameTo(cmd, name), i);
  }

  lemma SubscribeStep(w: World, name: Name)
    requires Inv(w.st) && 0 in w.st.sessions && w.st.sessions[0].connected
    requires IsText(name) && !IsSpace(name[0]) && |name| < NAME_BUFFER
    ensures var e := FrameIn(0, FrameTo(SUBSCRIBE, name), []);
            && Defined(w, e) && Step(w, e) == w.(st := Brokers.Subscribe(w.st, 0, name).0)
            && (LeavesStale(w.st, 0, name) ==> StaleEvent(w, e, 0))
  {
    FrameStep(w, 2, name);
    SubscribeInput(w, FrameTo(SUBSCRIBE, name), name);
  }

  lemma UnsubscribeStep(w: World, name: Name)
    requires Inv(w.st) && 0 in w.st.sessions && w.st.sessions[0].connected
    requires IsText(name) && !IsSpace(name[0]) && |name| < NAME_BUFFER
    ensures var e := FrameIn(0, FrameTo(UNSUBSCRIBE, name), []);
            Defined(w, e) && Step(w, e) == w.(st := Brokers.Unsubscribe(w.st, 0, name).0)
  {
    FrameStep(w, 3, name);
    UnsubscribeInput(w, FrameTo(UNSUBSCRIBE, name), name);
  }

  lemma MessageIsShort()
    ensures 0 < |Build(MESSAGE_COMMAND, [IdLine(1)] + [DESTINATION + QUEUE_PREFIX], [])| <= 1024
  {
    var t := [DESTINATION + QUEUE_PREFIX];
    var hs := [IdLine(1)] + t;
    assert t[1..] == [] && |HeaderLines(t)| == |t[0]| + 1;
    assert hs[1..] == t && |HeaderLines(hs)| == |hs[0]| + 1 + |HeaderLines(t)|;
    assert |Digits(1)| == 1;
  }

  /** The message that the broker makes of the SEND frame. */
  function FirstMessage(): (m: seq<byte>)
    ensures 0 < |m| <= 1024
    ensures Forwarded(FrameTo(SEND, QUEUE_PREFIX), 1) == Some(m)
  {
    ForwardedBuild(SEND, [DESTINATION + QUEUE_PREFIX], [], 1);
    MessageIsShort();
    Build(MESSAGE_COMMAND, [IdLine(1)] + [DESTINATION + QUEUE_PREFIX], [])
  }

  lemma ConnectingRun()
    ensures DefinedRun(Connecting()) && Run(Connecting()) == World(ALONE, 0)
  {
    AloneIsSound();
    var start, unconnected := SessionStart(0), World(Open(Init(), 0), 0);
    assert DefinedRun([]) && Run([]) == START;
    assert [] + [start] == [start];
    StepTo([], start, START, unconnected);
    ConnectStep(unconnected);
    StepTo([start], Connecting()[1], unconnected, World(ALONE, 0));
  }

  lemma SubscribeFrom(es: seq<Event>)
    requires DefinedRun(es) && Run(es) == World(ALONE, 0)
    ensures var es' := es + [FrameIn(0, FrameTo(SUBSCRIBE, QUEUE_PREFIX), [])];
            DefinedRun(es') && Run(es') == World(FirstSubscriber(), 0)
  {
    AloneIsSound();
    SubscribeStep(World(ALONE, 0), QUEUE_PREFIX);
    StepTo(es, FrameIn(0, FrameTo(SUBSCRIBE, QUEUE_PREFIX), []), World(ALONE, 0), World(FirstSubscriber(), 0));
  }

  lemma SentIsForwarded(w: World, f: seq<byte>, m: seq<byte>)
    requires w.messageId == 0 && Forwarded(f, 1) == Some(m)
    ensures SkipCommand(f).Some? && SentMessage(w, f) == m
  {
  }

  lemma SendFrom(es: seq<Event>, w: World, f: seq<byte>, m: seq<byte>)
    requires DefinedRun(es) && Run(es) == w && JustSubscribed(w.st) && w.messageId == 0
    requires !Overflows(w, FrameIn(0, f, []))
    requires Handler(w, 0, f) == Some(Send) && Destination(f) == Some(QUEUE_PREFIX)
    requires Forwarded(f, 1) == Some(m) && 0 < |m| <= 1024
    ensures DefinedRun(es + [FrameIn(0, f, [])]) && MidMessage(Run(es + [FrameIn(0, f, [])]).st, 1)
  {
    SentIsForwarded(w, f, m);
    FirstWaits(w.st, m);
    StepTo(es, FrameIn(0, f, []), w, World(Enqueue(w.st, QUEUE_PREFIX, m, []), NextId(w)));
  }

  lemma SubscribedWorld()
    ensures var w := Run(Subscribing());
            DefinedRun(Subscribing()) && JustSubscribed(w.st) && w.messageId == 0
  {
    ConnectingRun();
    SubscribeFrom(Connecting());
    FirstIsJustSubscribed();
  }

  lemma SendFrameFrom(es: seq<Event>, w: World)
    requires DefinedRun(es) && Run(es) == w && JustSubscribed(w.st) && w.messageId == 0
    ensures var es' := es + [FrameIn(0, FrameTo(SEND, QUEUE_PREFIX), [])];
            DefinedRun(es') && MidMessage(Run(es').st, 1)
  {
    FrameStep(w, 1, QUEUE_PREFIX);
    SendFrom(es, w, FrameTo(SEND, QUEUE_PREFIX), FirstMessage());
  }

  lemma SendingRun()
    ensures DefinedRun(Sending()) && MidMessage(Run(Sending()).st, 1)
  {
    SubscribedWorld();
    SendFrameFrom(Subscribing(), Run(Subscribing()));
  }

  /** Ready to be left stale by a refused name. */
  ghost predicate AboutToTurn(st: State) {
    Inv(st) && LeavesStale(st, 0, [120]) && st.sessions[0].connected
  }

  lemma LeaveTurns(st: State, b: Id)
    requires MidMessage(st, b)
    ensures AboutToTurn(Brokers.Unsubscribe(st, 0, QUEUE_PREFIX).0)
  {
    UnsubscribeKeeps(st, 0, QUEUE_PREFIX);
    LeaveKeeps(st, 0);
  }

  lemma LeaveFrom(es: seq<Event>, w: World, b: Id)
    requires DefinedRun(es) && Run(es) == w && MidMessage(w.st, b)
    ensures var es' := es + [FrameIn(0, FrameTo(UNSUBSCRIBE, QUEUE_PREFIX), [])];
            DefinedRun(es') && AboutToTurn(Run(es').st)
  {
    LeaveTurns(w.st, b);
    UnsubscribeStep(w, QUEUE_PREFIX);
    StepTo(es, FrameIn(0, FrameTo(UNSUBSCRIBE, QUEUE_PREFIX), []), w,
           w.(st := Brokers.Unsubscribe(w.st, 0, QUEUE_PREFIX).0));
  }

  ghost predicate HasTurned(st: State) {
    Inv(st) && Stale(st, 0) && st.sessions[0].connected && st.sessions[0].bind.None?
  }

  lemma TurnFrom(es: seq<Event>, w: World)
    requires DefinedRun(es) && Run(es) == w && AboutToTurn(w.st)
    ensures DefinedRun(es + [Refused()]) && StaleEvent(w, Refused(), 0) && HasTurned(Run(es + [Refused()]).st)
  {
    var st' := Brokers.Subscribe(w.st, 0, [120]).0;
    SubscribeStep(w, [120]);
    SubscribeKeeps(w.st, 0, [120]);
    SubscribeStaleness(w.st, 0, [120], 0);
    StepTo(es, Refused(), w, w.(st := st'));
  }

  lemma ReturnUses(w: World, n: int)
    requires HasTurned(w.st)
    ensures SendsFreed(w.(st := Brokers.Subscribe(w.st, 0, QUEUE_PREFIX).0), WritableSocket(0, n))
  {
    StaleBufferIsUsed(w.st, 0, QUEUE_PREFIX);
  }

  lemma ReturnFrom(es: seq<Event>, w: World, n: int)
    requires DefinedRun(es) && Run(es) == w && HasTurned(w.st)
    ensures var es' := es + [FrameIn(0, FrameTo(SUBSCRIBE, QUEUE_PREFIX), [])];
            DefinedRun(es') && SendsFreed(Run(es'), WritableSocket(0, n))
  {
    SubscribeStep(w, QUEUE_PREFIX);
    ReturnUses(w, n);
    StepTo(es, FrameIn(0, FrameTo(SUBSCRIBE, QUEUE_PREFIX), []), w,
           w.(st := Brokers.Subscribe(w.st, 0, QUEUE_PREFIX).0));
  }

  lemma LeavingRun()
    ensures DefinedRun(Leaving()) && AboutToTurn(Run(Leaving()).st)
  {
    SendingRun();
    LeaveFrom(Sending(), Run(Sending()), 1);
  }

  /** The refused subscription is a stale event of a defined run. */
  lemma StaleIsReachable()
    ensures DefinedRun(Leaving() + [Refused()]) && StaleEvent(Run(Leaving()), Refused(), 0)
    ensures Stale(Run(Leaving() + [Refused()]).st, 0)
  {
    LeavingRun();
    TurnFrom(Leaving(), Run(Leaving()));
  }

  /** And with one more subscription the next writable event sends from the queue that is gone. */
  lemma UndefinedIsReachable(n: int)
    ensures DefinedRun(Returning()) && SendsFreed(Run(Returning()), WritableSocket(0, n))
  {
    LeavingRun();
    TurnFrom(Leaving(), Run(Leaving()));
    ReturnFrom(Leaving() + [Refused()], Run(Leaving() + [Refused()]), n);
  }
}
