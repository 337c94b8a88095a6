/** What a subscriber's client sees of the broker: end to end over every run. */
module Subscribers {
  import opened Bytes
  import opened Rings
  import opened Frames
  import opened Framing
  import opened Forwarding
  import opened Building
  import opened Receiving
  import opened Brokers
  import opened BrokerSteps
  import opened Protocol

  // ---------------------------------------------------------------------------
  // Histories only grow
  // ---------------------------------------------------------------------------

  ghost predicate QueueGrows(a: MsgQueue, b: MsgQueue) {
    a.owner == b.owner && a.sent <= b.sent && a.log <= b.log
  }

  /** What was published, accepted or sent stays so, in its place, while the queue lives. */
  ghost predicate Grows(st: State, st': State) {
    st.published <= st'.published
    && forall q :: q in st.queues && q in st'.queues ==> QueueGrows(st.queues[q], st'.queues[q])
  }

  lemma EnqueueGrows(st: State, dest: Name, m: Message, net: seq<int>)
    requires Inv(st) && NonePushesStale(st, Targets(st, dest), m)
    ensures Grows(st, Enqueue(st, dest, m, net)) && Enqueue(st, dest, m, net).published == st.published + [m]
  {
    EnqueueDelivers(st, dest, m, net);
    var st1, st' := Publish(st, m), Enqueue(st, dest, m, net);
    assert Reached(st1, st', Targets(st, dest), |st.published|);
    forall q | q in st.queues && q in st'.queues
      ensures QueueGrows(st.queues[q], st'.queues[q])
    {
      assert st1.queues[q] == st.queues[q];
    }
  }

  lemma WritableGrows(st: State, s: Sid, n: int)
    requires Inv(st) && !SendsStale(st, s)
    ensures Grows(st, Writable(st, s, n)) && Writable(st, s, n).published == st.published
  {
    if s in st.sessions && st.sessions[s].msgq.Some? {
      OwnStream(st, s);
      ResumeKeeps(st, st.sessions[s].msgq.value, n);
    }
  }

  lemma QuietGrows(st: State, st': State)
    requires Quiet(st, st')
    ensures Grows(st, st') && st'.published == st.published
  {
    assert forall q :: q in st'.queues ==> QuietQueue(st, st', q);
  }

  /** The publication that an event makes, if any. */
  function Publication(w: World, e: Event): seq<Message> {
    if e.FrameIn? && IsConnected(w.st, e.s) && IsSend(e.f) && Publishes(e.f)
    then [SentMessage(w, e.f)] else []
  }

  lemma PublicationOf(w: World, s: Sid, f: seq<byte>, net: seq<int>)
    ensures Publication(w, FrameIn(s, f, net)) ==
            if Handler(w, s, f) == Some(Send) && Publishes(f) then [SentMessage(w, f)] else []
  {
    HandlerOf(w, s, f);
  }

  lemma {:induction false} FrameGrows(w: World, s: Sid, f: seq<byte>, net: seq<int>)
    requires Defined(w, FrameIn(s, f, net))
    ensures var e := FrameIn(s, f, net);
            Grows(w.st, Step(w, e).st) && Step(w, e).st.published == w.st.published + Publication(w, e)
  {
    var st' := Step(w, FrameIn(s, f, net)).st;
    PublicationOf(w, s, f, net);
    match Handler(w, s, f)
    case None =>
    case Some(Connect) =>
    case Some(Disconnect) =>
      DestroyKeeps(w.st, s);
      QuietGrows(w.st, st');
    case Some(Send) =>
      if Publishes(f) {
        EnqueueGrows(w.st, Destination(f).value, SentMessage(w, f), net);
      }
    case Some(Subscribe) =>
      if Destination(f).Some? {
        SubscribeIsQuiet(w.st, s, Destination(f).value);
        QuietGrows(w.st, st');
      }
    case Some(Unsubscribe) =>
      if Destination(f).Some? {
        UnsubscribeKeeps(w.st, s, Destination(f).value);
        QuietGrows(w.st, st');
      }
  }

  lemma {:induction false} StepGrows(w: World, e: Event)
    requires Defined(w, e)
    ensures Grows(w.st, Step(w, e).st)
    ensures Step(w, e).st.published == w.st.published + Publication(w, e)
  {
    match e
    case SessionStart(s) =>
    case SessionEnd(s) =>
      DestroyKeeps(w.st, s);
      QuietGrows(w.st, Step(w, e).st);
    case WritableSocket(s, n) => WritableGrows(w.st, s, n);
    case FrameIn(s, f, net) => FrameGrows(w, s, f, net);
  }

  // ---------------------------------------------------------------------------
  // Where publications come from
  // ---------------------------------------------------------------------------

  /** The session and the frame of a publication, and the message-id that it got. */
  datatype Origin = Origin(s: Sid, f: seq<byte>, id: nat)

  function NextOrigins(w: World, origins: seq<Origin>, e: Event): seq<Origin> {
    origins + (if Publication(w, e) != [] then [Origin(e.s, e.f, NextId(w))] else [])
  }

  ghost function Origins(es: seq<Event>): seq<Origin> {
    if es == [] then []
    else
      var n := |es| - 1;
      NextOrigins(Run(es[..n]), Origins(es[..n]), es[n])
  }

  ghost predicate ComesFrom(m: Message, o: Origin) {
    Forwarded(o.f, o.id) == Some(m)
  }

  ghost predicate AllComeFrom(published: seq<Message>, origins: seq<Origin>) {
    |published| == |origins| && forall p :: 0 <= p < |published| ==> ComesFrom(published[p], origins[p])
  }

  lemma NextComesFrom(w: World, origins: seq<Origin>, e: Event)
    requires Defined(w, e) && AllComeFrom(w.st.published, origins)
    ensures AllComeFrom(Step(w, e).st.published, NextOrigins(w, origins, e))
  {
    StepGrows(w, e);
    ConcatNothing(origins);
    ConcatNothing(w.st.published);
  }

  lemma {:induction false} PublishedComeFrom(es: seq<Event>)
    requires DefinedRun(es)
    ensures AllComeFrom(Run(es).st.published, Origins(es))
    decreases |es|
  {
    if es != [] {
      var n := |es| - 1;
      LastStep(es, Run(es[..n]), es[n]);
      PublishedComeFrom(es[..n]);
      NextComesFrom(Run(es[..n]), Origins(es[..n]), es[n]);
    }
  }

  // ---------------------------------------------------------------------------
  // Message-ids
  // ---------------------------------------------------------------------------

  lemma HandlerId(w: World, s: Sid, f: seq<byte>, net: seq<int>)
    requires Defined(w, FrameIn(s, f, net))
    ensures Input(w, s, f, net).0.messageId ==
            if Handler(w, s, f) == Some(Send) && Publishes(f) then NextId(w) else w.messageId
  {
  }

  /** The message-id counts the publications. */
  lemma StepId(w: World, e: Event)
    requires Defined(w, e)
    ensures Step(w, e).messageId == if Publication(w, e) != [] then (w.messageId + 1) % 0x1_0000_0000 else w.messageId
  {
    if e.FrameIn? {
      HandlerId(w, e.s, e.f, e.net);
      PublicationOf(w, e.s, e.f, e.net);
    }
  }

  /** Publication p has the message-id p + 1, modulo 2^32. */
  ghost predicate Counted(published: seq<Message>, origins: seq<Origin>, id: nat) {
    && |published| == |origins| && id == |origins| % 0x1_0000_0000
    && forall p :: 0 <= p < |origins| ==> origins[p].id == (p + 1) % 0x1_0000_0000
  }

  lemma NextNumber(n: nat)
    ensures (n % 0x1_0000_0000 + 1) % 0x1_0000_0000 == (n + 1) % 0x1_0000_0000
  {
  }

  lemma OneCounted(published: seq<Message>, origins: seq<Origin>, id: nat, new_: seq<Message>, o: Origin, next: nat)
    requires Counted(published, origins, id) && |new_| <= 1
    requires next == (if new_ != [] then (id + 1) % 0x1_0000_0000 else id) && (new_ != [] ==> o.id == next)
    ensures Counted(published + new_, origins + (if new_ != [] then [o] else []), next)
  {
    NextNumber(|origins|);
    ConcatNothing(origins);
    ConcatNothing(published);
  }

  /** The publication of the event, if any, is the next one and has the next message-id. */
  ghost predicate Publishing(w: World, w': World, e: Event) {
    && w'.st.published == w.st.published + Publication(w, e)
    && w'.messageId == if Publication(w, e) != [] then (w.messageId + 1) % 0x1_0000_0000 else w.messageId
  }

  lemma StepPublishes(w: World, e: Event)
    requires Defined(w, e)
    ensures Publishing(w, Step(w, e), e)
  {
    StepGrows(w, e);
    StepId(w, e);
  }

  lemma NextCounted(w: World, w': World, origins: seq<Origin>, e: Event)
    requires Publishing(w, w', e) && Counted(w.st.published, origins, w.messageId)
    ensures Counted(w'.st.published, NextOrigins(w, origins, e), w'.messageId)
  {
    var o := if e.FrameIn? then Origin(e.s, e.f, NextId(w)) else Origin(0, [], 0);
    OneCounted(w.st.published, origins, w.messageId, Publication(w, e), o, w'.messageId);
  }

  lemma {:induction false} MessageIds(es: seq<Event>)
    requires DefinedRun(es)
    ensures Counted(Run(es).st.published, Origins(es), Run(es).messageId)
    decreases |es|
  {
    if es != [] {
      var n := |es| - 1;
      LastStep(es, Run(es[..n]), es[n]);
      MessageIds(es[..n]);
      StepPublishes(Run(es[..n]), es[n]);
      NextCounted(Run(es[..n]), Run(es), Origins(es[..n]), es[n]);
    }
  }

  lemma NumbersDiffer(p: nat, q: nat)
    requires p < q && q - p < 0x1_0000_0000
    ensures (p + 1) % 0x1_0000_0000 != (q + 1) % 0x1_0000_0000
  {
  }

  /** So no two publications of a run have the same message-id unless 2^32 or more are between them. */
  lemma MessageIdsDiffer(es: seq<Event>, p: nat, q: nat)
    requires DefinedRun(es) && p < q < |Origins(es)| && q - p < 0x1_0000_0000
    ensures Origins(es)[p].id != Origins(es)[q].id
  {
    MessageIds(es);
    NumbersDiffer(p, q);
  }

  lemma MessageBytes(m: Message, o: Origin)
    requires ComesFrom(m, o)
    ensures SkipCommand(o.f).Some?
    ensures m == [77, 69, 83, 83, 65, 71, 69, 10, 109, 101, 115, 115, 97, 103, 101, 45, 105, 100, 58]
                 + Digits(o.id) + [10] + o.f[SkipCommand(o.f).value..]
  {
    assert MESSAGE + MESSAGE_ID ==
           [77, 69, 83, 83, 65, 71, 69, 10, 109, 101, 115, 115, 97, 103, 101, 45, 105, 100, 58];
  }

  /** The bytes of publication p of a run: "MESSAGE", "message-id:" and the decimal number of the
      publication, each with its line feed behind it, and what its SEND frame has behind its first line
      feed. */
  lemma PublicationBytes(es: seq<Event>, p: nat, o: Origin)
    requires DefinedRun(es) && p < |Origins(es)| && o == Origins(es)[p]
    ensures p < |Run(es).st.published| && SkipCommand(o.f).Some?
    ensures Run(es).st.published[p] ==
            [77, 69, 83, 83, 65, 71, 69, 10, 109, 101, 115, 115, 97, 103, 101, 45, 105, 100, 58]
            + Digits((p + 1) % 0x1_0000_0000) + [10] + o.f[SkipCommand(o.f).value..]
  {
    MessageIds(es);
    PublishedComeFrom(es);
    assert ComesFrom(Run(es).st.published[p], o);
    MessageBytes(Run(es).st.published[p], o);
  }

  function NextFrames(fs: seq<seq<byte>>, e: Event, s: Sid): seq<seq<byte>> {
    fs + (if e.FrameIn? && e.s == s then [e.f] else [])
  }

  /** The frames of one session, in order. */
  function FramesOf(es: seq<Event>, s: Sid): seq<seq<byte>> {
    if es == [] then []
    else
      NextFrames(FramesOf(es[..|es| - 1], s), es[|es| - 1], s)
  }

  /** The frames of one session that became publications, in order. */
  function PublishedBy(origins: seq<Origin>, s: Sid): seq<seq<byte>> {
    if origins == [] then []
    else
      var o := origins[|origins| - 1];
      PublishedBy(origins[..|origins| - 1], s) + (if o.s == s then [o.f] else [])
  }

  ghost predicate Subsequence<T>(a: seq<T>, b: seq<T>)
    decreases |b|
  {
    if a == [] then true
    else if b == [] then false
    else
      var x, y := a[|a| - 1], b[|b| - 1];
      (x == y && Subsequence(a[..|a| - 1], b[..|b| - 1])) || Subsequence(a, b[..|b| - 1])
  }

  lemma SubsequenceSnoc<T>(a: seq<T>, b: seq<T>, x: T)
    requires Subsequence(a, b)
    ensures Subsequence(a, b + [x]) && Subsequence(a + [x], b + [x])
  {
    assert (b + [x])[..|b|] == b && (a + [x])[..|a|] == a;
  }

  lemma PublishedBySnoc(origins: seq<Origin>, o: Origin, s: Sid)
    ensures PublishedBy(origins + [o], s) ==
            if o.s == s then PublishedBy(origins, s) + [o.f] else PublishedBy(origins, s)
  {
    assert (origins + [o])[..|origins|] == origins;
    ConcatNothing(PublishedBy(origins, s));
  }

  function SnocIf<T>(a: seq<T>, x: T, snoc: bool): seq<T> {
    if snoc then a + [x] else a
  }

  lemma SubsequenceGrows<T>(a: seq<T>, b: seq<T>, x: T, inA: bool, inB: bool)
    requires Subsequence(a, b) && (inA ==> inB)
    ensures Subsequence(SnocIf(a, x, inA), SnocIf(b, x, inB))
  {
    if inB {
      SubsequenceSnoc(a, b, x);
    }
  }

  lemma NextPublished(w: World, origins: seq<Origin>, fs: seq<seq<byte>>, e: Event, s: Sid)
    requires Subsequence(PublishedBy(origins, s), fs)
    ensures Subsequence(PublishedBy(NextOrigins(w, origins, e), s), NextFrames(fs, e, s))
  {
    ConcatNothing(origins);
    ConcatNothing(fs);
    if e.FrameIn? {
      var published := Publication(w, e) != [];
      if published {
        PublishedBySnoc(origins, Origin(e.s, e.f, NextId(w)), s);
      }
      SubsequenceGrows(PublishedBy(origins, s), fs, e.f, published && e.s == s, e.s == s);
    }
  }

  /** A session's publications are frames of it, each at most once and in the order in which they
      came. */
  lemma {:induction false} PublishedInOrder(es: seq<Event>, s: Sid)
    ensures Subsequence(PublishedBy(Origins(es), s), FramesOf(es, s))
    decreases |es|
  {
    if es != [] {
      var n := |es| - 1;
      PublishedInOrder(es[..n], s);
      NextPublished(Run(es[..n]), Origins(es[..n]), FramesOf(es[..n], s), es[n], s);
    }
  }

  // ---------------------------------------------------------------------------
  // Frames all the way
  // ---------------------------------------------------------------------------

  /** The frame of an origin is forwarded as a frame. */
  ghost predicate ForwardsFrame(o: Origin) {
    SkipCommand(o.f).Some? ==> NulTerminated(o.f) && Survives(o.f, o.id, SkipCommand(o.f).value)
  }

  /** The publications that a queue has logged come from such frames. */
  ghost predicate LoggedFrames(origins: seq<Origin>, log: seq<nat>) {
    forall i :: 0 <= i < |log| && log[i] < |origins| ==> ForwardsFrame(origins[log[i]])
  }

  lemma LoggedAreFramed(published: seq<Message>, origins: seq<Origin>, log: seq<nat>)
    requires AllComeFrom(published, origins) && Increasing(log, |published|) && LoggedFrames(origins, log)
    ensures AllFramed(Accepted(published, log))
  {
    forall i | 0 <= i < |log|
      ensures WellFramed(published[log[i]])
    {
      var o := origins[log[i]];
      assert ComesFrom(published[log[i]], o) && ForwardsFrame(o);
      ForwardedIsFramed(o.f, o.id, SkipCommand(o.f).value);
    }
  }

  /** Of the accepted messages, `i` were sent in full, and those are the frames read. */
  ghost predicate ReadsUpTo(sent: seq<byte>, accepted: seq<Message>, i: nat, cs: seq<Chunk>) {
    && i <= |accepted| && FeedAll(StompLength, [], cs).0 == accepted[..i]
    && Flatten(accepted[..i]) <= sent <= Flatten(accepted)
    && (i < |accepted| ==> |sent| < |Flatten(accepted[..i])| + |accepted[i]|)
  }

  lemma ReadStream(accepted: seq<Message>, sent: seq<byte>, cs: seq<Chunk>) returns (i: nat)
    requires AllFramed(accepted) && sent <= Flatten(accepted)
    requires Stream(cs) == sent && Fits(StompLength, [], cs)
    ensures ReadsUpTo(sent, accepted, i, cs)
  {
    ConcatNothing(Flatten(accepted));
    var t;
    i, t := CutStream(accepted, [], sent);
    assert AllFramed(accepted[..i]);
    var g := if i < |accepted| then accepted[i] else [];
    assert i < |accepted| ==> g in accepted;
    StompChunking(accepted[..i], g, t, cs);
  }

  /** The bytes that a subscriber's socket has taken, however they arrive, are read by the framing
      rules of the broker itself as exactly the messages that its queue has accepted and that were
      sent in full, in the order of publishing. What other sessions do, and what is sent to other
      destinations, does not matter. */
  lemma {:induction false} SubscriberReads(es: seq<Event>, q: Id, cs: seq<Chunk>) returns (i: nat)
    requires DefinedRun(es) && q in Run(es).st.queues && !Stale(Run(es).st, Run(es).st.queues[q].owner)
    requires LoggedFrames(Origins(es), Run(es).st.queues[q].log)
    requires Stream(cs) == Run(es).st.queues[q].sent && Fits(StompLength, [], cs)
    ensures Inv(Run(es).st) && StreamOk(Run(es).st, q)
    ensures var mq, published := Run(es).st.queues[q], Run(es).st.published;
            ReadsUpTo(mq.sent, Accepted(published, mq.log), i, cs)
  {
    EveryRun(es);
    PublishedComeFrom(es);
    var st := Run(es).st;
    assert QueueSound(st, q);
    LoggedAreFramed(st.published, Origins(es), st.queues[q].log);
    i := ReadStream(Accepted(st.published, st.queues[q].log), st.queues[q].sent, cs);
  }

  /** From the bytes of a publisher, cut anyhow, to those of a subscriber, cut anyhow: what the
      subscriber reads is made of frames that sessions sent, and those of a session whose bytes are
      a stream of well-framed frames are frames of that stream, in its order. */
  lemma {:induction false} PublisherToSubscriber(es: seq<Event>, s: Sid, fs: seq<seq<byte>>, pub: seq<Chunk>,
                                                 q: Id, sub: seq<Chunk>) returns (i: nat)
    requires DefinedRun(es)
    requires AllFramed(fs) && Stream(pub) == Flatten(fs) && Fits(StompLength, [], pub)
    requires FramesOf(es, s) == FeedAll(StompLength, [], pub).0
    requires q in Run(es).st.queues && !Stale(Run(es).st, Run(es).st.queues[q].owner)
    requires LoggedFrames(Origins(es), Run(es).st.queues[q].log)
    requires Stream(sub) == Run(es).st.queues[q].sent && Fits(StompLength, [], sub)
    ensures FramesOf(es, s) == fs && Subsequence(PublishedBy(Origins(es), s), fs)
    ensures var log, read := Run(es).st.queues[q].log, FeedAll(StompLength, [], sub).0;
            && i <= |log| && |read| == i && Increasing(log, |Origins(es)|)
            && forall k :: 0 <= k < i ==> ComesFrom(read[k], Origins(es)[log[k]])
  {
    ConcatNothing(Flatten(fs));
    StompChunking(fs, [], [], pub);
    PublishedInOrder(es, s);
    i := SubscriberReads(es, q, sub);
    PublishedComeFrom(es);
  }

  // ---------------------------------------------------------------------------
  // What clients write
  // ---------------------------------------------------------------------------

  /** The frame of an origin is written from these parts: up to six headers, and a body without a NUL
      or an exact content-length. */
  ghost predicate BuiltFrom(o: Origin, cmd: seq<byte>, hs: seq<seq<byte>>, body: seq<byte>) {
    && o.f == Build(cmd, hs, body) && Parts(cmd, hs, body) && |hs| < HEADERS_MAX - 1
    && (if TextOf(hs, CONTENT_LENGTH).None? then NUL !in body
        else TextOf(hs, CONTENT_LENGTH) == Some(Digits(|body|)))
    && BodyAt(MESSAGE_COMMAND, [IdLine(o.id)] + hs) + |body| < INT_MAX
  }

  ghost predicate ClientFrame(o: Origin) {
    exists cmd, hs, body :: BuiltFrom(o, cmd, hs, body)
  }

  lemma BuiltForwards(o: Origin, cmd: seq<byte>, hs: seq<seq<byte>>, body: seq<byte>)
    requires BuiltFrom(o, cmd, hs, body)
    ensures ForwardsFrame(o) && Forwarded(o.f, o.id) == Some(Build(MESSAGE_COMMAND, [IdLine(o.id)] + hs, body))
  {
    ClientFrameForwarded(cmd, hs, body, o.id);
    NulBehindHeaders(cmd, hs, body);
    ForwardedIsFramed(o.f, o.id, SkipCommand(o.f).value);
  }

  lemma ClientsForward(origins: seq<Origin>, log: seq<nat>)
    requires forall k :: 0 <= k < |log| && log[k] < |origins| ==> ClientFrame(origins[log[k]])
    ensures LoggedFrames(origins, log)
  {
    forall k | 0 <= k < |log| && log[k] < |origins|
      ensures ForwardsFrame(origins[log[k]])
    {
      var cmd, hs, body :| BuiltFrom(origins[log[k]], cmd, hs, body);
      BuiltForwards(origins[log[k]], cmd, hs, body);
    }
  }

  /** If the messages of a queue come from such frames, its subscriber reads the same headers behind a
      message-id, and the same bodies, whatever other frames are about. */
  lemma {:induction false} ClientsAreRead(es: seq<Event>, q: Id, cs: seq<Chunk>) returns (i: nat)
    requires DefinedRun(es) && q in Run(es).st.queues && !Stale(Run(es).st, Run(es).st.queues[q].owner)
    requires var log := Run(es).st.queues[q].log;
             forall k :: 0 <= k < |log| && log[k] < |Origins(es)| ==> ClientFrame(Origins(es)[log[k]])
    requires Stream(cs) == Run(es).st.queues[q].sent && Fits(StompLength, [], cs)
    ensures var log, read := Run(es).st.queues[q].log, FeedAll(StompLength, [], cs).0;
            && i <= |log| && |read| == i && Increasing(log, |Origins(es)|)
            && forall k, cmd, hs, body :: 0 <= k < i && BuiltFrom(Origins(es)[log[k]], cmd, hs, body) ==>
                 read[k] == Build(MESSAGE_COMMAND, [IdLine(Origins(es)[log[k]].id)] + hs, body)
  {
    var origins, log := Origins(es), Run(es).st.queues[q].log;
    ClientsForward(origins, log);
    PublishedComeFrom(es);
    i := SubscriberReads(es, q, cs);
    var read := FeedAll(StompLength, [], cs).0;
    forall k, cmd, hs, body | 0 <= k < i && BuiltFrom(origins[log[k]], cmd, hs, body)
      ensures read[k] == Build(MESSAGE_COMMAND, [IdLine(origins[log[k]].id)] + hs, body)
    {
      assert ComesFrom(read[k], origins[log[k]]);
      BuiltForwards(origins[log[k]], cmd, hs, body);
    }
  }
}
