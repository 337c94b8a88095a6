/** What each frame does, by its first bytes, and which frames of a session are handled over a run. */
module Dispatch {
  import opened Bytes
  import opened Rings
  import opened Frames
  import opened Forwarding
  import opened Brokers
  import opened BrokerSteps
  import opened Protocol
  import Senders

  // ---------------------------------------------------------------------------
  // What a frame does
  // ---------------------------------------------------------------------------

  /** DISCONNECT of a connected session is the end of the session. */
  lemma DisconnectFrame(w: World, s: Sid, f: seq<byte>, net: seq<int>)
    requires Defined(w, FrameIn(s, f, net)) && IsConnected(w.st, s) && IsDisconnect(f)
    ensures var (w', rc) := Input(w, s, f, net);
            && rc == 0 && s !in w'.st.sessions && w'.st.sessions == w.st.sessions - {s}
            && w' == Step(w, SessionEnd(s))
  {
    HandlerOf(w, s, f);
    DestroyKeeps(w.st, s);
  }

  /** CONNECT of one that is not connected: if the reply can be sent, the session is connected, and
      nothing else changes; if not, nothing changes at all. */
  lemma ConnectFrame(w: World, s: Sid, f: seq<byte>, net: seq<int>)
    requires Defined(w, FrameIn(s, f, net)) && s in w.st.sessions && !IsConnected(w.st, s) && IsConnect(f)
    ensures var (w', rc) := Input(w, s, f, net);
            if net != [] && net[0] < 0 then rc == -1 && w' == w
            else rc == 0 && IsConnected(w'.st, s)
                 && w'.st == w.st.(sessions := w.st.sessions[s := w'.st.sessions[s]])
                 && w'.st.sessions[s] == w.st.sessions[s].(connected := true) && w'.messageId == w.messageId
  {
    HandlerOf(w, s, f);
  }

  /** SEND of a connected session: without a destination or a line feed it fails without effect;
      otherwise the message gets the next message-id, is published, and is offered once to each target
      of the destination. */
  lemma SendFrame(w: World, s: Sid, f: seq<byte>, net: seq<int>)
    requires Defined(w, FrameIn(s, f, net)) && IsConnected(w.st, s) && IsSend(f)
    ensures var (w', rc) := Input(w, s, f, net);
            if Destination(f).None? || SkipCommand(f).None? then rc == -1 && w' == w
            else
              && rc == 0 && w'.messageId == (w.messageId + 1) % 0x1_0000_0000
              && Forwarded(f, w'.messageId).Some?
              && var m := Forwarded(f, w'.messageId).value;
                 w'.st.published == w.st.published + [m]
                 && Reached(Publish(w.st, m), w'.st, Targets(w.st, Destination(f).value), |w.st.published|)
  {
    HandlerOf(w, s, f);
    if Publishes(f) {
      EnqueueDelivers(w.st, Destination(f).value, SentMessage(w, f), net);
    }
  }

  lemma SentIs(w: World, f: seq<byte>, m: Message)
    requires Forwarded(f, (w.messageId + 1) % 0x1_0000_0000) == Some(m)
    ensures SkipCommand(f).Some? && m == SentMessage(w, f)
  {
  }

  lemma SendInput(w: World, s: Sid, f: seq<byte>, net: seq<int>)
    requires Defined(w, FrameIn(s, f, net)) && IsConnected(w.st, s) && IsSend(f)
    ensures SendDefined(w, f) && Input(w, s, f, net) == HandleSend(w, f, net)
  {
    HandlerOf(w, s, f);
  }

  lemma HandleSendTakes(w: World, f: seq<byte>, net: seq<int>, j: nat, w': World, m: Message, n: int)
    requires Inv(w.st) && SendDefined(w, f) && Publishes(f) && IsTargetSlot(w.st, Destination(f).value, j)
    requires w' == HandleSend(w, f, net).0 && m == SentMessage(w, f) && n == Senders.NetAt(net, j)
    ensures Took(w.st, w'.st, SlotQueue(w.st, Destination(f).value, j), m, n)
  {
    EnqueueTook(w.st, Destination(f).value, SentMessage(w, f), net, j);
  }

  /** And each target, in slot j of the binding, sends as the result of send() for that slot says. */
  lemma SendFrameTakes(w: World, s: Sid, f: seq<byte>, net: seq<int>, j: nat, w': World, m: Message)
    requires Defined(w, FrameIn(s, f, net)) && IsConnected(w.st, s) && IsSend(f) && w' == Input(w, s, f, net).0
    requires Destination(f).Some? && Forwarded(f, (w.messageId + 1) % 0x1_0000_0000) == Some(m)
    requires IsTargetSlot(w.st, Destination(f).value, j)
    ensures Took(w.st, w'.st, SlotQueue(w.st, Destination(f).value, j), m, if j < |net| then net[j] else 0)
  {
    SendInput(w, s, f, net);
    SentIs(w, f, m);
    HandleSendTakes(w, f, net, j, w', m, if j < |net| then net[j] else 0);
  }

  /** SUBSCRIBE and UNSUBSCRIBE of a connected session with a destination are steps of the broker, and
      fail without effect if there is none. */
  lemma SubscriptionFrame(w: World, s: Sid, f: seq<byte>, net: seq<int>)
    requires Defined(w, FrameIn(s, f, net)) && IsConnected(w.st, s) && (IsSubscribe(f) || IsUnsubscribe(f))
    ensures var (w', rc) := Input(w, s, f, net);
            && w'.messageId == w.messageId
            && if Destination(f).None? then rc == -1 && w' == w
               else if IsSubscribe(f) then (w'.st, rc) == Brokers.Subscribe(w.st, s, Destination(f).value)
               else (w'.st, rc) == Brokers.Unsubscribe(w.st, s, Destination(f).value)
  {
    HandlerOf(w, s, f);
  }

  /** All other frames fail without effect. */
  lemma OtherFrame(w: World, s: Sid, f: seq<byte>, net: seq<int>)
    requires Defined(w, FrameIn(s, f, net))
    requires !(IsConnected(w.st, s) && (IsDisconnect(f) || IsSend(f) || IsSubscribe(f) || IsUnsubscribe(f)))
    requires !(s in w.st.sessions && !IsConnected(w.st, s) && IsConnect(f))
    ensures Input(w, s, f, net) == (w, -1)
  {
    HandlerOf(w, s, f);
  }

  // ---------------------------------------------------------------------------
  // The protocol gate
  // ---------------------------------------------------------------------------

  /** A CONNECT frame whose reply could be sent. */
  predicate Connects(w: World, e: Event, s: Sid) {
    e.FrameIn? && e.s == s && s in w.st.sessions && !IsConnected(w.st, s)
    && IsConnect(e.f) && Senders.NetAt(e.net, 0) >= 0
  }

  lemma SendConnects(st: State, dest: Name, m: Message, net: seq<int>, s: Sid)
    requires Inv(st) && NonePushesStale(st, Targets(st, dest), m)
    ensures IsConnected(Enqueue(st, dest, m, net), s) <==> IsConnected(st, s)
  {
    EnqueueKeeps(st, dest, m, net);
    assert s in st.sessions ==> SameSession(st.sessions[s], Enqueue(st, dest, m, net).sessions[s]);
  }

  lemma UnsubscribeConnects(st: State, k: Sid, dest: Name, s: Sid)
    requires Inv(st)
    ensures IsConnected(Brokers.Unsubscribe(st, k, dest).0, s) <==> IsConnected(st, s)
  {
    if k in st.sessions && st.sessions[k].bind.Some? {
      LeaveIsQuiet(st, k);
    }
  }

  lemma HandlerConnects(w: World, k: Sid, f: seq<byte>, net: seq<int>, s: Sid)
    requires Defined(w, FrameIn(k, f, net))
    ensures IsConnected(Input(w, k, f, net).0.st, s) <==>
            || (s == k && Handler(w, k, f) == Some(Connect) && Senders.NetAt(net, 0) >= 0)
            || (IsConnected(w.st, s) && !(s == k && Handler(w, k, f) == Some(Disconnect)))
  {
    match Handler(w, k, f)
    case None =>
    case Some(Connect) =>
    case Some(Disconnect) => DestroyKeeps(w.st, k);
    case Some(Send) =>
      if Publishes(f) {
        SendConnects(w.st, Destination(f).value, SentMessage(w, f), net, s);
      }
    case Some(Subscribe) =>
      if Destination(f).Some? {
        SubscribeIsQuiet(w.st, k, Destination(f).value);
      }
    case Some(Unsubscribe) =>
      if Destination(f).Some? {
        UnsubscribeConnects(w.st, k, Destination(f).value, s);
      }
  }

  /** A session is connected exactly if the event connects it, or if it was and the event does not
      end it. */
  lemma StepConnects(w: World, e: Event, s: Sid)
    requires Defined(w, e)
    ensures IsConnected(Step(w, e).st, s) <==> Connects(w, e, s) || (IsConnected(w.st, s) && !Ends(w, e, s))
  {
    match e
    case SessionStart(k) =>
    case SessionEnd(k) => DestroyKeeps(w.st, k);
    case WritableSocket(k, n) =>
      WritableKeeps(w.st, k, n);
      assert s in w.st.sessions ==> SameSession(w.st.sessions[s], Step(w, e).st.sessions[s]);
    case FrameIn(k, f, net) =>
      HandlerConnects(w, k, f, net, s);
      HandlerOf(w, k, f);
  }

  ghost function ConnectsAt(es: seq<Event>, s: Sid): nat -> bool {
    (j: nat) => j < |es| && Connects(Run(es[..j]), es[j], s)
  }

  /** Some event of the run connected the session, and nothing since has ended it. */
  ghost predicate HasConnected(es: seq<Event>, s: Sid) {
    Since(ConnectsAt(es, s), EndsAt(es, s), |es|)
  }

  lemma {:induction false} ConnectedUpTo(es: seq<Event>, s: Sid, n: nat)
    requires DefinedRun(es) && n <= |es|
    ensures IsConnected(Run(es[..n]).st, s) <==> Since(ConnectsAt(es, s), EndsAt(es, s), n)
  {
    if n > 0 {
      ConnectedUpTo(es, s, n - 1);
      SinceNext(ConnectsAt(es, s), EndsAt(es, s), n - 1);
      RunAt(es, n - 1);
      StepConnects(Run(es[..n - 1]), es[n - 1], s);
    }
  }

  // ---------------------------------------------------------------------------
  // Which sessions there are
  // ---------------------------------------------------------------------------

  lemma HandlerLives(w: World, k: Sid, f: seq<byte>, net: seq<int>)
    requires Defined(w, FrameIn(k, f, net))
    ensures Input(w, k, f, net).0.st.sessions.Keys ==
            w.st.sessions.Keys - (if Handler(w, k, f) == Some(Disconnect) then {k} else {})
  {
    match Handler(w, k, f)
    case None =>
    case Some(Connect) =>
    case Some(Disconnect) => DestroyKeeps(w.st, k);
    case Some(Send) =>
      if Publishes(f) {
        EnqueueKeeps(w.st, Destination(f).value, SentMessage(w, f), net);
      }
    case Some(Subscribe) =>
      if Destination(f).Some? {
        SubscribeIsQuiet(w.st, k, Destination(f).value);
      }
    case Some(Unsubscribe) =>
      if Destination(f).Some? {
        UnsubscribeKeeps(w.st, k, Destination(f).value);
      }
  }

  /** A session is there exactly if the event starts it, or if it was and the event does not end it. */
  lemma StepLives(w: World, e: Event, s: Sid)
    requires Defined(w, e)
    ensures s in Step(w, e).st.sessions <==> e == SessionStart(s) || (s in w.st.sessions && !Ends(w, e, s))
  {
    match e
    case SessionStart(k) =>
    case SessionEnd(k) => DestroyKeeps(w.st, k);
    case WritableSocket(k, n) => WritableKeeps(w.st, k, n);
    case FrameIn(k, f, net) =>
      HandlerLives(w, k, f, net);
      HandlerOf(w, k, f);
  }

  ghost function StartsAt(es: seq<Event>, s: Sid): nat -> bool {
    (j: nat) => j < |es| && es[j] == SessionStart(s)
  }

  /** The session was started, and nothing since has ended it. */
  ghost predicate HasStarted(es: seq<Event>, s: Sid) {
    Since(StartsAt(es, s), EndsAt(es, s), |es|)
  }

  lemma {:induction false} LivesUpTo(es: seq<Event>, s: Sid, n: nat)
    requires DefinedRun(es) && n <= |es|
    ensures s in Run(es[..n]).st.sessions <==> Since(StartsAt(es, s), EndsAt(es, s), n)
  {
    if n > 0 {
      LivesUpTo(es, s, n - 1);
      SinceNext(StartsAt(es, s), EndsAt(es, s), n - 1);
      RunAt(es, n - 1);
      StepLives(Run(es[..n - 1]), es[n - 1], s);
    }
  }

  lemma SessionHistory(es: seq<Event>, s: Sid)
    requires DefinedRun(es)
    ensures s in Run(es).st.sessions <==> HasStarted(es, s)
    ensures IsConnected(Run(es).st, s) <==> HasConnected(es, s)
  {
    LivesUpTo(es, s, |es|);
    ConnectedUpTo(es, s, |es|);
    assert es[..|es|] == es;
  }

  /** In every run SEND, SUBSCRIBE, UNSUBSCRIBE and DISCONNECT frames of a session are handled exactly
      if a CONNECT of it succeeded that no DISCONNECT and no end of the session has followed; before
      that, CONNECT frames are. No other frame is ever handled. */
  lemma HandlersNeedConnect(es: seq<Event>, s: Sid, f: seq<byte>)
    requires DefinedRun(es)
    ensures Handler(Run(es), s, f) == Some(Send) <==> HasConnected(es, s) && IsSend(f)
    ensures Handler(Run(es), s, f) == Some(Subscribe) <==> HasConnected(es, s) && IsSubscribe(f)
    ensures Handler(Run(es), s, f) == Some(Unsubscribe) <==> HasConnected(es, s) && IsUnsubscribe(f)
    ensures Handler(Run(es), s, f) == Some(Disconnect) <==> HasConnected(es, s) && IsDisconnect(f)
    ensures Handler(Run(es), s, f) == Some(Connect) <==> HasStarted(es, s) && !HasConnected(es, s) && IsConnect(f)
  {
    SessionHistory(es, s);
    HandlerOf(Run(es), s, f);
  }

  /** Every session is in the state it was in. */
  ghost predicate SameState(st: State, st': State) {
    st'.sessions.Keys == st.sessions.Keys
    && forall s :: s in st.sessions ==> st'.sessions[s].connected == st.sessions[s].connected
  }

  lemma RefusedSubscribe(st: State, s: Sid, dest: Name)
    requires Linked(st) && Brokers.Subscribe(st, s, dest).1 < 0
    ensures SameState(st, Brokers.Subscribe(st, s, dest).0)
  {
  }

  /** A frame that is not handled, or whose handler fails, does not change the state of its session,
      and an unknown command changes nothing at all. */
  lemma FailedFrame(w: World, s: Sid, f: seq<byte>, net: seq<int>)
    requires Defined(w, FrameIn(s, f, net)) && Input(w, s, f, net).1 < 0
    ensures Handler(w, s, f).None? ==> Input(w, s, f, net).0 == w
    ensures SameState(w.st, Input(w, s, f, net).0.st)
  {
    match Handler(w, s, f)
    case None =>
    case Some(Connect) =>
    case Some(Disconnect) =>
    case Some(Send) =>
    case Some(Subscribe) =>
      if Destination(f).Some? {
        RefusedSubscribe(w.st, s, Destination(f).value);
      }
    case Some(Unsubscribe) =>
  }
}
