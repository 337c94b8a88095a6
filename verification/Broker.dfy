/**
 * The broker of stomp/stomp_subr.c as a state machine: sessions, their message queues, and the
 * bindings in the table. Pointers are identifiers that are never used twice; freeing an object
 * takes its identifier out of the map, so every access below is proved to reach a live object.
 */
module Brokers {
  import opened Bytes
  import opened Rings
  import Members
  import Senders

  type Sid = nat
  type Id = nat
  type Name = seq<byte>

  datatype Kind = Queue | Topic

  /** binding_t; the slots hold message queues. */
  datatype Binding = Binding(name: Name, kind: Kind, slots: seq<Option<Id>>, count: nat, round: nat)

  /** msgqueue_t with the session that its callback belongs to. For the statements: `sent` is what
      the socket has taken from it, `log` are the publications that it has accepted. */
  datatype MsgQueue = MsgQueue(owner: Sid, ring: Ring, sent: seq<byte>, log: seq<nat>)

  /** stomp_data_t; `sbuf` is the queue that ss_sbuf points into. */
  datatype Session = Session(connected: bool, bind: Option<Id>, msgq: Option<Id>, sbuf: Option<Id>, slen: nat)

  /** `published` are the messages of all SEND frames so far. */
  datatype State = State(
    sessions: map<Sid, Session>,
    queues: map<Id, MsgQueue>,
    bindings: map<Id, Binding>,
    table: map<Name, Id>,
    published: seq<Message>,
    nextId: nat)

  const QUEUE_SIZE: nat := 8388608

  /** "/queue/" and "/topic/". */
  const QUEUE_PREFIX: seq<byte> := [47, 113, 117, 101, 117, 101, 47]
  const TOPIC_PREFIX: seq<byte> := [47, 116, 111, 112, 105, 99, 47]

  function Init(): State {
    State(map[], map[], map[], map[], [], 0)
  }

  // ---------------------------------------------------------------------------
  // The invariant
  // ---------------------------------------------------------------------------

  /** A subscribed session has a queue, and its queue is in a slot of its binding. */
  ghost predicate SessionOk(st: State, s: Sid)
    requires s in st.sessions
  {
    var ss := st.sessions[s];
    && (ss.msgq.Some? ==> ss.msgq.value in st.queues && st.queues[ss.msgq.value].owner == s)
    && (ss.bind.Some? ==> ss.msgq.Some? && ss.bind.value in st.bindings
                          && Some(ss.msgq.value) in st.bindings[ss.bind.value].slots)
  }

  ghost predicate QueueOk(st: State, q: Id)
    requires q in st.queues
  {
    var s := st.queues[q].owner;
    s in st.sessions && st.sessions[s].msgq == Some(q) && q < st.nextId
  }

  ghost predicate SlotOk(st: State, b: Id, q: Id) {
    q in st.queues && st.queues[q].owner in st.sessions && st.sessions[st.queues[q].owner].bind == Some(b)
  }

  /** A binding is in the table under its name, has a member, and every slot that is not empty is
      the queue of a live session bound to it; no queue is in two slots. */
  ghost predicate BindingOk(st: State, b: Id)
    requires b in st.bindings
  {
    var bi := st.bindings[b];
    && bi.name in st.table && st.table[bi.name] == b && b < st.nextId
    && |bi.slots| >= Members.INITIAL_SLOTS && bi.round < |bi.slots|
    && bi.count == Members.Count(bi.slots) > 0 && Members.Distinct(bi.slots)
    && forall q {:trigger SlotOk(st, b, q)} :: Some(q) in bi.slots ==> SlotOk(st, b, q)
  }

  /** The table leads to a binding of that name, which is a queue or a topic as the name says. */
  ghost predicate NameOk(st: State, n: Name)
    requires n in st.table
  {
    && st.table[n] in st.bindings && st.bindings[st.table[n]].name == n
    && (st.bindings[st.table[n]].kind == Queue <==> QUEUE_PREFIX <= n)
    && (st.bindings[st.table[n]].kind == Topic ==> TOPIC_PREFIX <= n)
  }

  ghost predicate Linked(st: State) {
    && (forall s {:trigger SessionOk(st, s)} :: s in st.sessions ==> SessionOk(st, s))
    && (forall q {:trigger QueueOk(st, q)} :: q in st.queues ==> QueueOk(st, q))
    && (forall b {:trigger BindingOk(st, b)} :: b in st.bindings ==> BindingOk(st, b))
    && (forall n {:trigger NameOk(st, n)} :: n in st.table ==> NameOk(st, n))
  }

  /** The sender of a queue, put together from the queue and its session. */
  function SenderOf(st: State, q: Id): Senders.Sender
    requires q in st.queues && st.queues[q].owner in st.sessions
  {
    Senders.Sender(st.queues[q].ring, st.sessions[st.queues[q].owner].slen, st.queues[q].sent)
  }

  /** Publications in the order of publishing, each at most once. */
  ghost predicate Increasing(log: seq<nat>, n: nat) {
    && (forall i :: 0 <= i < |log| ==> log[i] < n)
    && (forall i, j :: 0 <= i < j < |log| ==> log[i] < log[j])
  }

  ghost function Accepted(published: seq<Message>, log: seq<nat>): seq<Message>
    requires forall i :: 0 <= i < |log| ==> log[i] < |published|
  {
    seq(|log|, i requires 0 <= i < |log| => published[log[i]])
  }

  /** What was sent and what is outstanding is what the queue has accepted, and pending bytes are
      bytes of this queue. */
  ghost predicate StreamOk(st: State, q: Id)
    requires q in st.queues
  {
    var mq := st.queues[q];
    && mq.owner in st.sessions && Senders.Consistent(SenderOf(st, q))
    && (st.sessions[mq.owner].slen > 0 ==> st.sessions[mq.owner].sbuf == Some(q))
    && Increasing(mq.log, |st.published|)
    && mq.sent + Senders.Outstanding(SenderOf(st, q)) == Flatten(Accepted(st.published, mq.log))
  }

  /** ss_sbuf points into a queue that the session has lost, and bytes of it are left to send. */
  predicate Stale(st: State, s: Sid) {
    s in st.sessions && st.sessions[s].slen > 0 && st.sessions[s].sbuf != st.sessions[s].msgq
  }

  /** The same sessions are stale. */
  ghost predicate SameStale(st: State, st': State) {
    forall s {:trigger Stale(st, s)} {:trigger Stale(st', s)} :: Stale(st', s) <==> Stale(st, s)
  }

  /** Pending bytes lie in a queue that is, or was, the session's own. */
  ghost predicate BufferOk(st: State, s: Sid)
    requires s in st.sessions
  {
    var ss := st.sessions[s];
    ss.slen > 0 ==>
      && ss.sbuf.Some? && ss.sbuf.value < st.nextId
      && (ss.sbuf.value in st.queues ==> st.queues[ss.sbuf.value].owner == s)
  }

  /** A queue's stream is in order unless its session is stale. */
  ghost predicate QueueSound(st: State, q: Id)
    requires q in st.queues
  {
    var mq := st.queues[q];
    && Rings.Valid(mq.ring) && Increasing(mq.log, |st.published|) && mq.owner in st.sessions
    && (!Stale(st, mq.owner) ==> StreamOk(st, q))
  }

  ghost predicate Streaming(st: State) {
    && (forall q {:trigger QueueSound(st, q)} :: q in st.queues ==> QueueSound(st, q))
    && (forall s {:trigger BufferOk(st, s)} :: s in st.sessions ==> BufferOk(st, s))
  }

  ghost predicate Inv(st: State) {
    Linked(st) && Streaming(st)
  }

  /** The buffer of a stale session is in no queue. */
  lemma StaleIsDangling(st: State, s: Sid)
    requires Inv(st) && Stale(st, s)
    ensures st.sessions[s].sbuf.Some? && st.sessions[s].sbuf.value !in st.queues
  {
    assert BufferOk(st, s);
    var q := st.sessions[s].sbuf.value;
    assert q in st.queues ==> QueueOk(st, q);
  }

  // ---------------------------------------------------------------------------
  // Building blocks
  // ---------------------------------------------------------------------------

  /** stomp_create_session. */
  function Open(st: State, s: Sid): State {
    if s in st.sessions then st
    else st.(sessions := st.sessions[s := Session(false, None, None, None, 0)])
  }

  function NewQueue(s: Sid): MsgQueue {
    MsgQueue(s, Create(QUEUE_SIZE), [], [])
  }

  /** The queue that stomp_subscribe creates. */
  function AddQueue(st: State, s: Sid): State
    requires s in st.sessions
  {
    st.(queues := st.queues[st.nextId := NewQueue(s)],
        sessions := st.sessions[s := st.sessions[s].(msgq := Some(st.nextId))],
        nextId := st.nextId + 1)
  }

  /** msgqueue_destroy; ss_sbuf and ss_slen stay as they are. */
  function DropQueue(st: State, s: Sid): State
    requires s in st.sessions && st.sessions[s].msgq.Some?
  {
    st.(queues := st.queues - {st.sessions[s].msgq.value},
        sessions := st.sessions[s := st.sessions[s].(msgq := None)])
  }

  /** binding_unsubscribe of the session's queue from its binding, which goes with its last member. */
  function Leave(st: State, s: Sid): State
    requires Linked(st) && s in st.sessions && st.sessions[s].bind.Some?
  {
    assert SessionOk(st, s);
    var ss := st.sessions[s];
    var b := ss.bind.value;
    assert BindingOk(st, b);
    var bi := st.bindings[b];
    var (slots, destroyed) := Members.Unsubscribe(bi.slots, bi.count, ss.msgq.value, 0);
    var st1 := st.(sessions := st.sessions[s := ss.(bind := None)]);
    if destroyed then st1.(bindings := st.bindings - {b}, table := st.table - {bi.name})
    else st1.(bindings := st.bindings[b := bi.(slots := slots, count := Members.Count(slots))])
  }

  /** Whether stomp_new_binding knows the name. */
  predicate GoodName(n: Name) {
    QUEUE_PREFIX <= n || TOPIC_PREFIX <= n
  }

  /** binding_queue_create and binding_topic_create: an empty binding in the table. */
  function AddBinding(st: State, n: Name): State {
    var kind := if QUEUE_PREFIX <= n then Queue else Topic;
    st.(bindings := st.bindings[st.nextId := Binding(n, kind, Members.Blank(Members.INITIAL_SLOTS), 0, 0)],
        table := st.table[n := st.nextId],
        nextId := st.nextId + 1)
  }

  /** binding_subscribe of the session's queue. */
  function Join(st: State, s: Sid, b: Id): State
    requires s in st.sessions && st.sessions[s].msgq.Some? && b in st.bindings
  {
    var ss, bi := st.sessions[s], st.bindings[b];
    match Members.Subscribe(bi.slots, bi.count, ss.msgq.value)
    case None => st
    case Some(slots) =>
      st.(bindings := st.bindings[b := bi.(slots := slots, count := bi.count + 1)],
          sessions := st.sessions[s := ss.(bind := Some(b))])
  }

  // ---------------------------------------------------------------------------
  // The steps of stomp_subr.c
  // ---------------------------------------------------------------------------

  /** stomp_destroy_session. */
  function Destroy(st: State, s: Sid): State
    requires Linked(st)
  {
    if s !in st.sessions then st
    else
      var st1 := if st.sessions[s].bind.Some? then Leave(st, s) else st;
      var st2 := if st1.sessions[s].msgq.Some? then DropQueue(st1, s) else st1;
      st2.(sessions := st2.sessions - {s})
  }

  /** The session with a queue, the one it has or a new one. */
  function WithQueue(st: State, s: Sid): (st': State)
    requires s in st.sessions
    ensures s in st'.sessions && st'.sessions[s].msgq.Some? && st'.table == st.table
  {
    if st.sessions[s].msgq.Some? then st else AddQueue(st, s)
  }

  /** stomp_subscribe; the second result is its return value. A name that is refused costs the
      session its queue. */
  function Subscribe(st: State, s: Sid, dest: Name): (State, int)
    requires Linked(st)
  {
    if s !in st.sessions || st.sessions[s].bind.Some? then (st, -1)
    else if dest !in st.table && !GoodName(dest) then (DropQueue(WithQueue(st, s), s), -1)
    else
      var st1 := WithQueue(st, s);
      var st2 := if dest in st1.table then st1 else AddBinding(st1, dest);
      assert dest in st.table ==> NameOk(st, dest);
      (Join(st2, s, st2.table[dest]), 0)
  }

  /** stomp_unsubscribe, which silently ignores names that the session is not bound to. */
  function Unsubscribe(st: State, s: Sid, dest: Name): (State, int)
    requires Linked(st)
  {
    if s !in st.sessions then (st, -1)
    else if dest !in st.table || st.sessions[s].bind != Some(st.table[dest]) then (st, 0)
    else (Leave(st, s), 0)
  }

  // ---------------------------------------------------------------------------
  // Sending
  // ---------------------------------------------------------------------------

  /** Writing back the queue and the sending fields of its session. */
  function SetStream(st: State, q: Id, mq: MsgQueue, slen: nat, sbuf: Option<Id>): State
    requires q in st.queues && mq.owner == st.queues[q].owner && mq.owner in st.sessions
  {
    st.(queues := st.queues[q := mq],
        sessions := st.sessions[mq.owner := st.sessions[mq.owner].(slen := slen, sbuf := sbuf)])
  }

  /** stomp_send_resume for the session of queue q; `n` is the result of send(). */
  function Resume(st: State, q: Id, n: int): State
    requires q in st.queues && StreamOk(st, q)
  {
    var mq := st.queues[q];
    var ss := st.sessions[mq.owner];
    var snd := Senders.SendResume(SenderOf(st, q), n).0;
    var sbuf := if ss.slen == 0 && Peek(mq.ring).1.Some? then Some(q) else ss.sbuf;
    SetStream(st, q, mq.(ring := snd.ring, sent := snd.sent), snd.slen, sbuf)
  }

  /** A writable event would send from a queue that is gone. */
  predicate SendsStale(st: State, s: Sid) {
    Stale(st, s) && st.sessions[s].msgq.Some?
  }

  lemma OwnStream(st: State, s: Sid)
    requires Inv(st) && s in st.sessions && st.sessions[s].msgq.Some? && !Stale(st, s)
    ensures st.sessions[s].msgq.value in st.queues && st.queues[st.sessions[s].msgq.value].owner == s
    ensures StreamOk(st, st.sessions[s].msgq.value)
  {
    assert SessionOk(st, s);
    assert QueueSound(st, st.sessions[s].msgq.value);
  }

  /** A writable event: stomp_msg_output. */
  function Writable(st: State, s: Sid, n: int): State
    requires Inv(st) && !SendsStale(st, s)
  {
    if s in st.sessions && st.sessions[s].msgq.Some? then
      OwnStream(st, s);
      Resume(st, st.sessions[s].msgq.value, n)
    else st
  }

  lemma ResumedStream(st: State, q: Id, n: int)
    requires q in st.queues && StreamOk(st, q)
    ensures StreamOk(Resume(st, q, n), q)
    ensures st.queues[q].sent <= Resume(st, q, n).queues[q].sent
  {
    var snd := SenderOf(st, q);
    Senders.SendResumeConserves(snd, n);
    var st' := Resume(st, q, n);
    assert SenderOf(st', q) == Senders.SendResume(snd, n).0;
    if snd.slen == 0 {
      PeekRefinesFifo(snd.ring);
    }
  }

  ghost predicate SameSession(a: Session, b: Session) {
    a.connected == b.connected && a.bind == b.bind && a.msgq == b.msgq
  }

  ghost predicate SameMembers(a: Binding, b: Binding) {
    a.(round := 0) == b.(round := 0) && (a.round < |a.slots| ==> b.round < |b.slots|)
  }

  /** Nothing differs but what the objects send and whose turn it is. */
  ghost predicate SameLinks(st: State, st': State) {
    && st'.sessions.Keys == st.sessions.Keys && st'.queues.Keys == st.queues.Keys
    && st'.bindings.Keys == st.bindings.Keys && st'.table == st.table && st'.nextId == st.nextId
    && (forall s :: s in st.sessions ==> SameSession(st.sessions[s], st'.sessions[s]))
    && (forall q :: q in st.queues ==> st'.queues[q].owner == st.queues[q].owner)
    && (forall b :: b in st.bindings ==> SameMembers(st.bindings[b], st'.bindings[b]))
  }

  lemma LinksKept(st: State, st': State)
    requires Linked(st) && SameLinks(st, st')
    ensures Linked(st')
  {
    forall s | s in st'.sessions
      ensures SessionOk(st', s)
    {
      assert SessionOk(st, s);
    }
    forall q | q in st'.queues
      ensures QueueOk(st', q)
    {
      assert QueueOk(st, q);
    }
    forall b | b in st'.bindings
      ensures BindingOk(st', b)
    {
      assert BindingOk(st, b);
      assert forall q :: SlotOk(st, b, q) ==> SlotOk(st', b, q);
    }
    forall n | n in st'.table
      ensures NameOk(st', n)
    {
      assert NameOk(st, n);
    }
  }

  lemma SetStreamLinks(st: State, q: Id, mq: MsgQueue, slen: nat, sbuf: Option<Id>)
    requires q in st.queues && mq.owner == st.queues[q].owner && mq.owner in st.sessions
    ensures SameLinks(st, SetStream(st, q, mq, slen, sbuf))
  {
  }

  /** The streams depend on the queue, the sending fields of its owner, and what was published. */
  lemma StreamKept(st: State, st': State, k: Id)
    requires k in st.queues && StreamOk(st, k) && st'.published == st.published
    requires k in st'.queues && st'.queues[k] == st.queues[k]
    requires var s := st.queues[k].owner;
             && s in st'.sessions && st'.sessions[s].slen == st.sessions[s].slen
             && st'.sessions[s].sbuf == st.sessions[s].sbuf
    ensures StreamOk(st', k)
  {
    assert SenderOf(st', k) == SenderOf(st, k);
  }

  lemma SameLinksTrans(a: State, b: State, c: State)
    requires SameLinks(a, b) && SameLinks(b, c)
    ensures SameLinks(a, c)
  {
  }

  /** Of the queues and sessions only q and its owner differ. */
  ghost predicate OthersKept(st: State, st': State, q: Id)
    requires q in st.queues
  {
    && (forall k :: k in st.queues && k != q ==> k in st'.queues && st'.queues[k] == st.queues[k])
    && (forall s :: s in st.sessions && s != st.queues[q].owner ==>
          s in st'.sessions && st'.sessions[s] == st.sessions[s])
  }

  /** A step that concerns one stream and keeps it sound leaves the others sound. */
  lemma OneStreamKeeps(st: State, st': State, q: Id)
    requires Inv(st) && q in st.queues && SameLinks(st, st') && st'.published == st.published
    requires OthersKept(st, st', q) && QueueSound(st', q) && BufferOk(st', st.queues[q].owner)
    ensures Inv(st')
  {
    LinksKept(st, st');
    assert QueueOk(st, q);
    forall k | k in st'.queues && k != q
      ensures QueueSound(st', k)
    {
      assert QueueSound(st, k) && QueueOk(st, k);
      if !Stale(st, st.queues[k].owner) {
        StreamKept(st, st', k);
      }
    }
    forall s | s in st'.sessions
      ensures BufferOk(st', s)
    {
      assert BufferOk(st, s);
    }
  }

  /** Writing back one stream leaves the others alone. */
  lemma SetStreamKeeps(st: State, q: Id, mq: MsgQueue, slen: nat, sbuf: Option<Id>)
    requires Inv(st) && q in st.queues && mq.owner == st.queues[q].owner && mq.owner in st.sessions
    requires var st' := SetStream(st, q, mq, slen, sbuf); QueueSound(st', q) && BufferOk(st', mq.owner)
    ensures var st' := SetStream(st, q, mq, slen, sbuf);
            Inv(st') && SameLinks(st, st') && OthersKept(st, st', q)
  {
    SetStreamLinks(st, q, mq, slen, sbuf);
    OneStreamKeeps(st, SetStream(st, q, mq, slen, sbuf), q);
  }

  lemma ResumeKeeps(st: State, q: Id, n: int)
    requires Inv(st) && q in st.queues && StreamOk(st, q)
    ensures Inv(Resume(st, q, n)) && SameLinks(st, Resume(st, q, n)) && StreamOk(Resume(st, q, n), q)
    ensures forall m :: HoldsOnly(st.queues[q].ring, Resume(st, q, n).queues[q].ring, m)
    ensures Resume(st, q, n).bindings == st.bindings
    ensures OthersKept(st, Resume(st, q, n), q) && Resume(st, q, n).queues[q].log == st.queues[q].log
    ensures st.queues[q].sent <= Resume(st, q, n).queues[q].sent && SameStale(st, Resume(st, q, n))
  {
    ResumedStream(st, q, n);
    Senders.SendResumeMessages(SenderOf(st, q), n);
    assert QueueOk(st, q);
    var st' := Resume(st, q, n);
    var mq' := st'.queues[q];
    var ss' := st'.sessions[mq'.owner];
    assert st' == SetStream(st, q, mq', ss'.slen, ss'.sbuf);
    SetStreamKeeps(st, q, mq', ss'.slen, ss'.sbuf);
  }

  lemma WritableKeeps(st: State, s: Sid, n: int)
    requires Inv(st) && !SendsStale(st, s)
    ensures Inv(Writable(st, s, n)) && SameLinks(st, Writable(st, s, n)) && SameStale(st, Writable(st, s, n))
  {
    if s in st.sessions && st.sessions[s].msgq.Some? {
      OwnStream(st, s);
      ResumeKeeps(st, st.sessions[s].msgq.value, n);
    }
  }

  /** The log of a queue after publication `p` was pushed to it: it is taken exactly when there is
      room for it. */
  function LogAfter(mq: MsgQueue, published: seq<Message>, p: nat): seq<nat>
    requires p < |published| && 1 <= |mq.ring.held| <= SLOTS
  {
    if Push(mq.ring, published[p]).1 then mq.log + [p] else mq.log
  }

  /** Everything that a delivery of publication `p` to queue q may change. */
  ghost predicate Delivered(st: State, st': State, q: Id, p: nat)
    requires q in st.queues && QueueSound(st, q) && p < |st.published|
  {
    && SameLinks(st, st') && st'.published == st.published && OthersKept(st, st', q)
    && st'.bindings == st.bindings
    && q in st'.queues && st'.queues[q].log == LogAfter(st.queues[q], st.published, p)
    && st.queues[q].sent <= st'.queues[q].sent
    && HoldsOnly(st.queues[q].ring, st'.queues[q].ring, st.published[p])
    && SameStale(st, st')
  }

  /** The state between msgqueue_push_msg and its callback. */
  function Pushed(st: State, q: Id, p: nat): State
    requires q in st.queues && QueueSound(st, q) && p < |st.published|
  {
    var mq := st.queues[q];
    var ss := st.sessions[mq.owner];
    SetStream(st, q, mq.(ring := Push(mq.ring, st.published[p]).0, log := LogAfter(mq, st.published, p)),
              ss.slen, ss.sbuf)
  }

  /** The push of `m` would succeed, and its callback would send from a queue that is gone. */
  predicate PushesStale(st: State, q: Id, m: Message) {
    && q in st.queues && 1 <= |st.queues[q].ring.held| <= SLOTS
    && Stale(st, st.queues[q].owner) && Push(st.queues[q].ring, m).1
  }

  lemma AcceptedSnoc(published: seq<Message>, log: seq<nat>, p: nat)
    requires p < |published| && forall i :: 0 <= i < |log| ==> log[i] < |published|
    ensures Accepted(published, log + [p]) == Accepted(published, log) + [published[p]]
  {
  }

  lemma PushedStream(st: State, q: Id, p: nat)
    requires q in st.queues && StreamOk(st, q)
    requires p < |st.published| && Increasing(st.queues[q].log, p)
    ensures QueueSound(st, q) && StreamOk(Pushed(st, q, p), q)
  {
    var mq := st.queues[q];
    var m := st.published[p];
    var snd := SenderOf(st, q);
    PushRefinesFifo(mq.ring, m);
    PushKeepsFront(mq.ring, m);
    assert SenderOf(Pushed(st, q, p), q) == snd.(ring := Push(mq.ring, m).0);
    if Push(mq.ring, m).1 {
      Senders.PushedIsLast(snd, m);
      ConcatAssoc(mq.sent, Senders.Outstanding(snd), m);
      AcceptedSnoc(st.published, mq.log, p);
      FlattenSnoc(Accepted(st.published, mq.log), m);
    } else {
      Senders.RefusedKeeps(snd, m);
    }
  }

  /** msgqueue_push_msg of publication `p` with its callback stomp_push_notify. */
  function Deliver(st: State, q: Id, p: nat, n: int): State
    requires q in st.queues && QueueSound(st, q)
    requires p < |st.published| && Increasing(st.queues[q].log, p) && !PushesStale(st, q, st.published[p])
  {
    if Push(st.queues[q].ring, st.published[p]).1 then
      PushedStream(st, q, p);
      Resume(Pushed(st, q, p), q, n)
    else Pushed(st, q, p)
  }

  lemma PushedSound(st: State, q: Id, p: nat)
    requires q in st.queues && QueueSound(st, q)
    requires p < |st.published| && Increasing(st.queues[q].log, p)
    ensures QueueSound(Pushed(st, q, p), q)
  {
    PushRefinesFifo(st.queues[q].ring, st.published[p]);
    if !Stale(st, st.queues[q].owner) {
      PushedStream(st, q, p);
    }
  }

  lemma PushedKeeps(st: State, q: Id, p: nat)
    requires Inv(st) && q in st.queues && QueueSound(st, q)
    requires p < |st.published| && Increasing(st.queues[q].log, p)
    ensures Inv(Pushed(st, q, p)) && Delivered(st, Pushed(st, q, p), q, p)
    ensures Pushed(st, q, p).sessions == st.sessions
  {
    PushedSound(st, q, p);
    PushRefinesFifo(st.queues[q].ring, st.published[p]);
    var st' := Pushed(st, q, p);
    var mq' := st'.queues[q];
    var ss' := st'.sessions[mq'.owner];
    assert BufferOk(st, mq'.owner);
    assert st' == SetStream(st, q, mq', ss'.slen, ss'.sbuf);
    SetStreamKeeps(st, q, mq', ss'.slen, ss'.sbuf);
  }

  /** A delivery keeps the invariant and touches no other queue. */
  lemma DeliverKeeps(st: State, q: Id, p: nat, n: int)
    requires Inv(st) && q in st.queues && QueueSound(st, q)
    requires p < |st.published| && Increasing(st.queues[q].log, p) && !PushesStale(st, q, st.published[p])
    ensures Inv(Deliver(st, q, p, n)) && Delivered(st, Deliver(st, q, p, n), q, p)
  {
    PushedKeeps(st, q, p);
    var st1 := Pushed(st, q, p);
    if Push(st.queues[q].ring, st.published[p]).1 {
      PushedStream(st, q, p);
      ResumeKeeps(st1, q, n);
      var st' := Resume(st1, q, n);
      SameLinksTrans(st, st1, st');
      assert OthersKept(st, st', q);
      assert HoldsOnly(st1.queues[q].ring, st'.queues[q].ring, st.published[p]);
    }
  }

  // ---------------------------------------------------------------------------
  // Publishing
  // ---------------------------------------------------------------------------

  /** Publication p can be pushed to queue q. */
  ghost predicate CanPush(st: State, q: Id, p: nat) {
    && q in st.queues && QueueSound(st, q) && p < |st.published|
    && Increasing(st.queues[q].log, p) && !PushesStale(st, q, st.published[p])
  }

  /** A delivery is what the sender of the queue makes of it. */
  lemma DeliverIsSender(st: State, q: Id, p: nat, n: int)
    requires CanPush(st, q, p) && StreamOk(st, q)
    ensures var st' := Deliver(st, q, p, n);
            && q in st'.queues && st'.queues[q].owner == st.queues[q].owner && st'.queues[q].owner in st'.sessions
            && SenderOf(st', q) == Senders.Deliver(SenderOf(st, q), st.published[p], n).0
  {
    PushedStream(st, q, p);
  }

  ghost predicate CanPushFrom(st: State, slots: seq<Option<Id>>, i: nat, p: nat) {
    forall j {:trigger slots[j]} :: i <= j < |slots| && slots[j].Some? ==> CanPush(st, slots[j].value, p)
  }

  lemma StillCanPush(st: State, st': State, q: Id, p: nat, k: Id)
    requires Inv(st) && Inv(st') && q in st.queues && QueueSound(st, q) && p < |st.published|
    requires Delivered(st, st', q, p) && CanPush(st, k, p) && k != q
    ensures CanPush(st', k, p)
  {
    assert QueueOk(st, q) && QueueOk(st, k);
    assert QueueSound(st', k);
  }

  lemma StillCanPushFrom(st: State, st': State, slots: seq<Option<Id>>, i: nat, p: nat)
    requires i < |slots| && Members.Distinct(slots) && slots[i].Some? && CanPushFrom(st, slots, i, p)
    requires CanPush(st, slots[i].value, p) && Inv(st) && Inv(st') && Delivered(st, st', slots[i].value, p)
    ensures CanPushFrom(st', slots, i + 1, p)
  {
    forall j | i + 1 <= j < |slots| && slots[j].Some?
      ensures CanPush(st', slots[j].value, p)
    {
      StillCanPush(st, st', slots[i].value, p, slots[j].value);
    }
  }

  /** The loop of binding_topic_push_msg from slot `i` on. */
  function TopicPush(st: State, slots: seq<Option<Id>>, i: nat, p: nat, net: seq<int>): State
    requires Inv(st) && i <= |slots| && Members.Distinct(slots) && CanPushFrom(st, slots, i, p)
    decreases |slots| - i
  {
    if i == |slots| then st
    else if slots[i].None? then TopicPush(st, slots, i + 1, p, net)
    else
      assert CanPush(st, slots[i].value, p);
      DeliverKeeps(st, slots[i].value, p, Senders.NetAt(net, i));
      StillCanPushFrom(st, Deliver(st, slots[i].value, p, Senders.NetAt(net, i)), slots, i, p);
      TopicPush(Deliver(st, slots[i].value, p, Senders.NetAt(net, i)), slots, i + 1, p, net)
  }

  function Publish(st: State, m: Message): State {
    st.(published := st.published + [m])
  }

  lemma PublishedStream(st: State, m: Message, q: Id)
    requires q in st.queues && StreamOk(st, q)
    ensures StreamOk(Publish(st, m), q)
  {
    var st' := Publish(st, m);
    assert SenderOf(st', q) == SenderOf(st, q);
    assert Accepted(st'.published, st.queues[q].log) == Accepted(st.published, st.queues[q].log);
  }

  lemma PublishKeeps(st: State, m: Message)
    requires Inv(st)
    ensures Inv(Publish(st, m)) && SameLinks(st, Publish(st, m)) && SameStale(st, Publish(st, m))
    ensures forall q :: q in st.queues ==> Increasing(st.queues[q].log, |st.published|)
  {
    var st' := Publish(st, m);
    LinksKept(st, st');
    forall q | q in st'.queues
      ensures QueueSound(st', q) && Increasing(st.queues[q].log, |st.published|)
    {
      assert QueueSound(st, q);
      if !Stale(st, st.queues[q].owner) {
        PublishedStream(st, m, q);
      }
    }
    assert forall s :: s in st'.sessions ==> BufferOk(st, s);
  }

  ghost function QueuesFrom(slots: seq<Option<Id>>, i: nat): set<Id>
    requires i <= |slots|
  {
    set x | x in slots[i..] && x.Some? :: x.value
  }

  /** The queues that a message for binding b is pushed to. */
  ghost function BindingTargets(st: State, b: Id): set<Id> {
    if b !in st.bindings || st.bindings[b].round >= |st.bindings[b].slots| then {}
    else
      var bi := st.bindings[b];
      match bi.kind
      case Topic => QueuesFrom(bi.slots, 0)
      case Queue =>
        var i := Members.Pick(bi.slots, bi.round, |bi.slots|).0;
        if i.None? then {} else {bi.slots[i.value].value}
  }

  /** The queues that a message for `dest` is pushed to. */
  ghost function Targets(st: State, dest: Name): set<Id> {
    if dest !in st.table then {} else BindingTargets(st, st.table[dest])
  }

  /** No push of `m` to one of these queues sends from a queue that is gone. */
  ghost predicate NonePushesStale(st: State, targets: set<Id>, m: Message) {
    forall q {:trigger PushesStale(st, q, m)} :: q in targets ==> !PushesStale(st, q, m)
  }

  /** The last publication can be pushed to the targets of binding b. */
  ghost predicate CanPushLast(st: State, b: Id) {
    && Inv(st) && b in st.bindings && BindingOk(st, b) && st.published != []
    && (forall q :: q in st.queues ==> Increasing(st.queues[q].log, |st.published| - 1))
    && NonePushesStale(st, BindingTargets(st, b), st.published[|st.published| - 1])
  }

  lemma TargetsCanPush(st: State, b: Id, q: Id)
    requires CanPushLast(st, b) && q in BindingTargets(st, b)
    ensures CanPush(st, q, |st.published| - 1)
  {
    assert SlotOk(st, b, q) by {
      assert Some(q) in st.bindings[b].slots;
    }
    assert QueueSound(st, q);
    assert !PushesStale(st, q, st.published[|st.published| - 1]);
  }

  lemma SlotsCanPush(st: State, b: Id)
    requires CanPushLast(st, b) && st.bindings[b].kind == Topic
    ensures CanPushFrom(st, st.bindings[b].slots, 0, |st.published| - 1)
  {
    var slots := st.bindings[b].slots;
    forall j | 0 <= j < |slots| && slots[j].Some?
      ensures CanPush(st, slots[j].value, |st.published| - 1)
    {
      assert slots[j] in slots[0..];
      TargetsCanPush(st, b, slots[j].value);
    }
  }

  /** The cursor of binding b after a push. */
  function Turned(st: State, b: Id): State
    requires b in st.bindings && st.bindings[b].round < |st.bindings[b].slots|
  {
    var bi := st.bindings[b];
    st.(bindings := st.bindings[b := bi.(round := Members.Pick(bi.slots, bi.round, |bi.slots|).1)])
  }

  lemma TurnedKeeps(st: State, b: Id)
    requires Inv(st) && b in st.bindings && st.bindings[b].round < |st.bindings[b].slots|
    ensures Inv(Turned(st, b)) && SameLinks(st, Turned(st, b)) && SameStale(st, Turned(st, b))
  {
    var st' := Turned(st, b);
    LinksKept(st, st');
    forall q | q in st'.queues
      ensures QueueSound(st', q)
    {
      assert QueueSound(st, q);
      if !Stale(st, st.queues[q].owner) {
        StreamKept(st, st', q);
      }
    }
    assert forall s :: s in st'.sessions ==> BufferOk(st, s);
  }

  lemma TurnedCanPush(st: State, b: Id, q: Id)
    requires CanPushLast(st, b) && CanPush(st, q, |st.published| - 1)
    ensures CanPush(Turned(st, b), q, |st.published| - 1)
  {
    TurnedKeeps(st, b);
    assert QueueSound(Turned(st, b), q);
  }

  /** binding_push_msg of the last publication, which st already has. */
  function PushBinding(st: State, b: Id, net: seq<int>): State
    requires CanPushLast(st, b)
  {
    var p := |st.published| - 1;
    var bi := st.bindings[b];
    match bi.kind
    case Topic =>
      SlotsCanPush(st, b);
      TopicPush(st, bi.slots, 0, p, net)
    case Queue =>
      var i := Members.Pick(bi.slots, bi.round, |bi.slots|).0;
      if i.None? then Turned(st, b)
      else
        TargetsCanPush(st, b, bi.slots[i.value].value);
        TurnedCanPush(st, b, bi.slots[i.value].value);
        Deliver(Turned(st, b), bi.slots[i.value].value, p, Senders.NetAt(net, i.value))
  }

  lemma PublishedCanPush(st: State, dest: Name, m: Message)
    requires Inv(st) && dest in st.table && NonePushesStale(st, Targets(st, dest), m)
    ensures CanPushLast(Publish(st, m), st.table[dest])
    ensures BindingTargets(Publish(st, m), st.table[dest]) == Targets(st, dest)
  {
    PublishKeeps(st, m);
    var st1 := Publish(st, m);
    assert NameOk(st, dest);
    assert BindingOk(st1, st.table[dest]);
    forall q | q in Targets(st, dest)
      ensures !PushesStale(st1, q, m)
    {
      assert !PushesStale(st, q, m);
    }
  }

  /** stomp_enqueue: a message for a name that nobody is bound to is discarded. */
  function Enqueue(st: State, dest: Name, m: Message, net: seq<int>): State
    requires Inv(st) && NonePushesStale(st, Targets(st, dest), m)
  {
    if dest !in st.table then Publish(st, m)
    else
      PublishedCanPush(st, dest, m);
      PushBinding(Publish(st, m), st.table[dest], net)
  }

  // ---------------------------------------------------------------------------
  // Who gets a message
  // ---------------------------------------------------------------------------

  /** The queue took publication `p` if it had room, and logged it. */
  ghost predicate Offered(mq: MsgQueue, mq': MsgQueue, published: seq<Message>, p: nat) {
    && p < |published| && 1 <= |mq.ring.held| <= SLOTS && mq'.log == LogAfter(mq, published, p)
    && mq.sent <= mq'.sent && HoldsOnly(mq.ring, mq'.ring, published[p])
  }

  /** Nothing happened to the queue, or to what its session is sending. */
  ghost predicate Untouched(st: State, st': State, q: Id) {
    && q in st.queues && q in st'.queues && st'.queues[q] == st.queues[q]
    && var s := st.queues[q].owner;
       s in st.sessions ==>
         && s in st'.sessions && st'.sessions[s].slen == st.sessions[s].slen
         && st'.sessions[s].sbuf == st.sessions[s].sbuf
  }

  /** Publication `p` was offered once to every queue of `targets`, the others are untouched. */
  ghost predicate Reached(st: State, st': State, targets: set<Id>, p: nat) {
    && SameLinks(st, st') && SameStale(st, st') && st'.published == st.published
    && forall q :: q in st.queues ==>
         if q in targets then Offered(st.queues[q], st'.queues[q], st.published, p)
         else Untouched(st, st', q)
  }

  lemma DeliveredOthers(st: State, st': State, q: Id, k: Id)
    requires Linked(st) && q in st.queues && k in st.queues && k != q && OthersKept(st, st', q)
    ensures Untouched(st, st', k)
  {
    assert QueueOk(st, q) && QueueOk(st, k);
  }

  lemma ReachedThen(st: State, st1: State, st': State, q: Id, targets: set<Id>, p: nat)
    requires Linked(st) && q in st.queues && QueueSound(st, q) && p < |st.published| && Delivered(st, st1, q, p)
    requires Reached(st1, st', targets, p) && q !in targets
    ensures Reached(st, st', targets + {q}, p)
  {
    SameLinksTrans(st, st1, st');
    forall k | k in st.queues && k != q
      ensures Untouched(st, st1, k)
    {
      DeliveredOthers(st, st1, q, k);
    }
  }

  lemma QueuesFromNext(slots: seq<Option<Id>>, i: nat)
    requires i < |slots| && Members.Distinct(slots)
    ensures slots[i].None? ==> QueuesFrom(slots, i) == QueuesFrom(slots, i + 1)
    ensures slots[i].Some? ==> QueuesFrom(slots, i) == QueuesFrom(slots, i + 1) + {slots[i].value}
                               && slots[i].value !in QueuesFrom(slots, i + 1)
  {
    assert slots[i..] == [slots[i]] + slots[i + 1..];
  }

  lemma {:induction false} TopicPushDelivers(st: State, slots: seq<Option<Id>>, i: nat, p: nat, net: seq<int>)
    requires Inv(st) && i <= |slots| && Members.Distinct(slots) && CanPushFrom(st, slots, i, p) && p < |st.published|
    ensures var st' := TopicPush(st, slots, i, p, net);
            Inv(st') && Reached(st, st', QueuesFrom(slots, i), p) && st'.bindings == st.bindings
    decreases |slots| - i
  {
    if i < |slots| {
      QueuesFromNext(slots, i);
      if slots[i].None? {
        TopicPushDelivers(st, slots, i + 1, p, net);
      } else {
        var q := slots[i].value;
        assert CanPush(st, q, p);
        DeliverKeeps(st, q, p, Senders.NetAt(net, i));
        var st1 := Deliver(st, q, p, Senders.NetAt(net, i));
        StillCanPushFrom(st, st1, slots, i, p);
        TopicPushDelivers(st1, slots, i + 1, p, net);
        ReachedThen(st, st1, TopicPush(st1, slots, i + 1, p, net), q, QueuesFrom(slots, i + 1), p);
      }
    }
  }

  lemma TurnThenDelivered(st: State, st1: State, st': State, q: Id, p: nat)
    requires Linked(st) && SameLinks(st, st1) && SameStale(st, st1)
    requires st1.queues == st.queues && st1.published == st.published && st1.sessions == st.sessions
    requires q in st.queues && QueueSound(st1, q) && p < |st.published| && Delivered(st1, st', q, p)
    ensures Reached(st, st', {q}, p)
  {
    SameLinksTrans(st, st1, st');
    LinksKept(st, st1);
    forall k | k in st.queues && k != q
      ensures Untouched(st, st', k)
    {
      DeliveredOthers(st1, st', q, k);
    }
  }

  lemma QueuePushDelivers(st: State, b: Id, net: seq<int>)
    requires CanPushLast(st, b) && st.bindings[b].kind == Queue
    ensures var st' := PushBinding(st, b, net);
            Inv(st') && Reached(st, st', BindingTargets(st, b), |st.published| - 1)
  {
    var bi := st.bindings[b];
    var i := Members.Pick(bi.slots, bi.round, |bi.slots|).0;
    TurnedKeeps(st, b);
    if i.Some? {
      var q, st1 := bi.slots[i.value].value, Turned(st, b);
      TargetsCanPush(st, b, q);
      TurnedCanPush(st, b, q);
      DeliverKeeps(st1, q, |st.published| - 1, Senders.NetAt(net, i.value));
      TurnThenDelivered(st, st1, PushBinding(st, b, net), q, |st.published| - 1);
    }
  }

  lemma PushBindingDelivers(st: State, b: Id, net: seq<int>)
    requires CanPushLast(st, b)
    ensures var st' := PushBinding(st, b, net);
            Inv(st') && Reached(st, st', BindingTargets(st, b), |st.published| - 1)
  {
    match st.bindings[b].kind
    case Topic =>
      SlotsCanPush(st, b);
      TopicPushDelivers(st, st.bindings[b].slots, 0, |st.published| - 1, net);
    case Queue =>
      QueuePushDelivers(st, b, net);
  }

  /** Delivery: a SEND is offered once to each of its targets, which take it exactly if they have
      room; all other queues are left as they are, and nobody joins or leaves. */
  lemma EnqueueDelivers(st: State, dest: Name, m: Message, net: seq<int>)
    requires Inv(st) && NonePushesStale(st, Targets(st, dest), m)
    ensures var st' := Enqueue(st, dest, m, net);
            Inv(st') && Reached(Publish(st, m), st', Targets(st, dest), |st.published|)
  {
    PublishKeeps(st, m);
    if dest in st.table {
      PublishedCanPush(st, dest, m);
      PushBindingDelivers(Publish(st, m), st.table[dest], net);
    }
  }

  // ---------------------------------------------------------------------------
  // What is sent
  // ---------------------------------------------------------------------------

  /** A push of `m` to queue q with `n` for the result of send(): if there is room, one send follows,
      whatever was pending; if not, nothing is sent and the FIFO stays. */
  ghost predicate Took(st: State, st': State, q: Id, m: Message, n: int) {
    && q in st.queues && q in st'.queues && st'.queues[q].owner == st.queues[q].owner
    && st.queues[q].owner in st.sessions && st.queues[q].owner in st'.sessions
    && Rings.Valid(st.queues[q].ring)
    && var before, after := SenderOf(st, q), SenderOf(st', q);
       if Push(before.ring, m).1 then
         StreamOk(st, q) && Senders.SentFrom(Rings.Queue(before.ring) + [m], before.slen, before.sent, after, n)
       else
         && after.sent == before.sent && after.slen == before.slen
         && Rings.Queue(after.ring) == Rings.Queue(before.ring)
  }

  lemma WritableSends(st: State, s: Sid, n: int)
    requires Inv(st) && !SendsStale(st, s)
    ensures s !in st.sessions || st.sessions[s].msgq.None? ==> Writable(st, s, n) == st
    ensures s in st.sessions && st.sessions[s].msgq.Some? ==>
              var q, st' := st.sessions[s].msgq.value, Writable(st, s, n);
              && q in st.queues && StreamOk(st, q) && q in st'.queues && OthersKept(st, st', q)
              && st'.queues[q].owner in st'.sessions && st'.queues[q].log == st.queues[q].log
              && Senders.SentFrom(Rings.Queue(st.queues[q].ring), st.sessions[s].slen, st.queues[q].sent,
                                  SenderOf(st', q), n)
  {
    if s in st.sessions && st.sessions[s].msgq.Some? {
      OwnStream(st, s);
      Senders.SendResumeTakes(SenderOf(st, st.sessions[s].msgq.value), n);
      ResumeKeeps(st, st.sessions[s].msgq.value, n);
    }
  }

  lemma DeliverTook(st: State, q: Id, p: nat, n: int)
    requires CanPush(st, q, p)
    ensures Took(st, Deliver(st, q, p, n), q, st.published[p], n)
  {
    PushRefinesFifo(st.queues[q].ring, st.published[p]);
    if StreamOk(st, q) {
      DeliverIsSender(st, q, p, n);
      Senders.DeliverTakes(SenderOf(st, q), st.published[p], n);
    }
  }

  /** What the sender of a queue was before is all that counts, and what it is after. */
  lemma TookFrom(st: State, st1: State, st2: State, st': State, q: Id, m: Message, n: int)
    requires Took(st1, st2, q, m, n) && Untouched(st, st1, q) && Untouched(st2, st', q)
    requires st.queues[q].owner in st.sessions && st1.published == st.published
    ensures Took(st, st', q, m, n)
  {
    assert SenderOf(st, q) == SenderOf(st1, q) && SenderOf(st', q) == SenderOf(st2, q);
  }

  lemma TopicPushFirst(st: State, slots: seq<Option<Id>>, i: nat, p: nat, net: seq<int>)
    requires Inv(st) && i < |slots| && Members.Distinct(slots) && CanPushFrom(st, slots, i, p) && slots[i].Some?
    requires p < |st.published|
    ensures Took(st, TopicPush(st, slots, i, p, net), slots[i].value, st.published[p], Senders.NetAt(net, i))
  {
    var q, n := slots[i].value, Senders.NetAt(net, i);
    assert CanPush(st, q, p);
    var st1 := Deliver(st, q, p, n);
    DeliverKeeps(st, q, p, n);
    StillCanPushFrom(st, st1, slots, i, p);
    var st' := TopicPush(st1, slots, i + 1, p, net);
    assert QueueOk(st, q);
    DeliverTook(st, q, p, n);
    QueuesFromNext(slots, i);
    TopicPushDelivers(st1, slots, i + 1, p, net);
    assert Untouched(st1, st', q) && Untouched(st, st, q);
    TookFrom(st, st, st1, st', q, st.published[p], n);
  }

  lemma {:induction false} TopicPushTook(st: State, slots: seq<Option<Id>>, i: nat, p: nat, net: seq<int>, j: nat)
    requires Inv(st) && i <= |slots| && Members.Distinct(slots) && CanPushFrom(st, slots, i, p) && p < |st.published|
    requires i <= j < |slots| && slots[j].Some?
    ensures Took(st, TopicPush(st, slots, i, p, net), slots[j].value, st.published[p], Senders.NetAt(net, j))
    decreases |slots| - i
  {
    if i == j {
      TopicPushFirst(st, slots, i, p, net);
    } else if slots[i].None? {
      TopicPushTook(st, slots, i + 1, p, net, j);
    } else {
      var q, st1 := slots[i].value, Deliver(st, slots[i].value, p, Senders.NetAt(net, i));
      assert CanPush(st, q, p) && CanPush(st, slots[j].value, p);
      DeliverKeeps(st, q, p, Senders.NetAt(net, i));
      StillCanPushFrom(st, st1, slots, i, p);
      var st' := TopicPush(st1, slots, i + 1, p, net);
      TopicPushTook(st1, slots, i + 1, p, net, j);
      DeliveredOthers(st, st1, q, slots[j].value);
      TookFrom(st, st1, st', st', slots[j].value, st.published[p], Senders.NetAt(net, j));
    }
  }

  lemma QueuePushTook(st: State, b: Id, net: seq<int>, j: nat)
    requires CanPushLast(st, b) && st.bindings[b].kind == Queue
    requires var bi := st.bindings[b]; Members.Pick(bi.slots, bi.round, |bi.slots|).0 == Some(j)
    ensures j < |st.bindings[b].slots| && st.bindings[b].slots[j].Some?
    ensures var m := st.published[|st.published| - 1];
            Took(st, PushBinding(st, b, net), st.bindings[b].slots[j].value, m, Senders.NetAt(net, j))
  {
    var q, st1 := st.bindings[b].slots[j].value, Turned(st, b);
    TargetsCanPush(st, b, q);
    TurnedKeeps(st, b);
    TurnedCanPush(st, b, q);
    var st' := PushBinding(st, b, net);
    DeliverTook(st1, q, |st.published| - 1, Senders.NetAt(net, j));
    assert QueueOk(st, q);
    assert Untouched(st, st1, q) && Untouched(st', st', q);
    TookFrom(st, st1, st', st', q, st.published[|st.published| - 1], Senders.NetAt(net, j));
  }

  /** The last publication, pushed to the queue in slot j of the binding. */
  lemma PushBindingTook(st: State, b: Id, net: seq<int>, j: nat)
    requires CanPushLast(st, b) && j < |st.bindings[b].slots| && st.bindings[b].slots[j].Some?
    requires st.bindings[b].slots[j].value in BindingTargets(st, b)
    ensures var m := st.published[|st.published| - 1];
            Took(st, PushBinding(st, b, net), st.bindings[b].slots[j].value, m, Senders.NetAt(net, j))
  {
    match st.bindings[b].kind
    case Topic =>
      SlotsCanPush(st, b);
      TopicPushTook(st, st.bindings[b].slots, 0, |st.published| - 1, net, j);
    case Queue =>
      QueuePushTook(st, b, net, j);
  }

  lemma TookPublished(st: State, st': State, q: Id, m: Message, n: int)
    requires Inv(st) && Took(Publish(st, m), st', q, m, n) && !PushesStale(st, q, m)
    ensures Took(st, st', q, m, n)
  {
    assert QueueSound(st, q);
    assert SenderOf(st, q) == SenderOf(Publish(st, m), q);
  }

  /** Slot j of the binding of that name holds a target. */
  ghost predicate IsTargetSlot(st: State, dest: Name, j: nat) {
    && dest in st.table && st.table[dest] in st.bindings
    && j < |st.bindings[st.table[dest]].slots| && st.bindings[st.table[dest]].slots[j].Some?
    && st.bindings[st.table[dest]].slots[j].value in Targets(st, dest)
  }

  ghost function SlotQueue(st: State, dest: Name, j: nat): Id
    requires IsTargetSlot(st, dest, j)
  {
    st.bindings[st.table[dest]].slots[j].value
  }

  /** Delivery, byte by byte: each target in slot j of the binding takes the message and sends once, as
      the result of send() for its slot says; a target without room sends nothing. */
  lemma EnqueueTook(st: State, dest: Name, m: Message, net: seq<int>, j: nat)
    requires Inv(st) && IsTargetSlot(st, dest, j) && NonePushesStale(st, Targets(st, dest), m)
    ensures Took(st, Enqueue(st, dest, m, net), SlotQueue(st, dest, j), m, Senders.NetAt(net, j))
  {
    var q, st1, st' := SlotQueue(st, dest, j), Publish(st, m), Enqueue(st, dest, m, net);
    PublishKeeps(st, m);
    PublishedCanPush(st, dest, m);
    PushBindingTook(st1, st.table[dest], net, j);
    TookPublished(st, st', q, m, Senders.NetAt(net, j));
  }

  /** A queue name has at most one target; a bound one has exactly one, since its binding has a
      member. */
  lemma QueueHasOneTarget(st: State, dest: Name)
    requires Linked(st) && dest in st.table
    ensures NameOk(st, dest) && st.bindings[st.table[dest]].kind == Queue ==> |Targets(st, dest)| == 1
  {
    assert NameOk(st, dest);
    var b := st.table[dest];
    assert BindingOk(st, b);
    var bi := st.bindings[b];
    Members.TurnIsOrder(bi.slots, bi.round);
    Members.PickRotates(bi.slots, bi.round);
  }
}
