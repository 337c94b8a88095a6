/** Opening, joining, leaving and destroying keep the invariant of the broker. */
module BrokerSteps {
  import opened Bytes
  import opened Brokers
  import Members

  /** The slots of a binding after a session has left it. */
  lemma LeaveSlots(st: State, s: Sid)
    requires Linked(st) && s in st.sessions && st.sessions[s].bind.Some?
    ensures SessionOk(st, s)
    ensures var b := st.sessions[s].bind.value;
            var q := st.sessions[s].msgq.value;
            b in st.bindings &&
            var bi := st.bindings[b];
            var (slots, destroyed) := Members.Unsubscribe(bi.slots, bi.count, q, 0);
            && (destroyed <==> bi.count == 1)
            && |slots| == |bi.slots| && Members.Distinct(slots) && Members.Count(slots) == bi.count - 1
            && (forall k :: Some(k) in slots <==> Some(k) in bi.slots && k != q)
  {
    assert SessionOk(st, s);
    var b, q := st.sessions[s].bind.value, st.sessions[s].msgq.value;
    assert BindingOk(st, b);
    var bi := st.bindings[b];
    Members.UnsubscribeLeaves(bi.slots, q, 0);
    var slots := Members.Unsubscribe(bi.slots, bi.count, q, 0).0;
    forall k | Some(k) in bi.slots && k != q
      ensures Some(k) in slots
    {
      var i :| 0 <= i < |bi.slots| && bi.slots[i] == Some(k);
      assert slots[i] == Some(k);
    }
  }

  /** Two members make a count of more than one. */
  lemma TwoMembers(slots: seq<Option<Id>>, q: Id, p: Id)
    requires Some(q) in slots && Some(p) in slots && q != p
    ensures Members.Count(slots) >= 2
  {
    var i :| 0 <= i < |slots| && slots[i] == Some(q);
    var j :| 0 <= j < |slots| && slots[j] == Some(p);
    Members.CountUpdate(slots, i, None);
    var s := slots[i := None];
    assert s[j] == Some(p);
    Members.CountBounds(s);
  }

  lemma LeaveKeepsLinks(st: State, s: Sid)
    requires Linked(st) && s in st.sessions && st.sessions[s].bind.Some?
    ensures Linked(Leave(st, s))
  {
    LeaveSlots(st, s);
    var st' := Leave(st, s);
    assert SessionOk(st, s);
    var b, q := st.sessions[s].bind.value, st.sessions[s].msgq.value;
    assert BindingOk(st, b) && QueueOk(st, q);
    forall k | k in st'.sessions
      ensures SessionOk(st', k)
    {
      assert SessionOk(st, k);
      if k != s && st.sessions[k].bind == Some(b) {
        var q' := st.sessions[k].msgq.value;
        assert q' != q;
        assert Some(q') in st.bindings[b].slots;
        TwoMembers(st.bindings[b].slots, q, q');
      }
    }
    forall k | k in st'.queues
      ensures QueueOk(st', k)
    {
      assert QueueOk(st, k);
    }
    forall k | k in st'.bindings
      ensures BindingOk(st', k)
    {
      assert BindingOk(st, k);
      forall p | Some(p) in st'.bindings[k].slots
        ensures SlotOk(st', k, p)
      {
        assert SlotOk(st, k, p) && QueueOk(st, p);
      }
    }
    forall n | n in st'.table
      ensures NameOk(st', n)
    {
      assert NameOk(st, n);
    }
  }

  lemma DropQueueKeepsLinks(st: State, s: Sid)
    requires Linked(st) && s in st.sessions && st.sessions[s].msgq.Some? && st.sessions[s].bind.None?
    ensures Linked(DropQueue(st, s))
  {
    var st' := DropQueue(st, s);
    var q := st.sessions[s].msgq.value;
    assert SessionOk(st, s);
    forall k | k in st'.sessions
      ensures SessionOk(st', k)
    {
      assert SessionOk(st, k);
    }
    forall k | k in st'.queues
      ensures QueueOk(st', k)
    {
      assert QueueOk(st, k);
    }
    forall b | b in st'.bindings
      ensures BindingOk(st', b)
    {
      assert BindingOk(st, b);
      forall p | Some(p) in st'.bindings[b].slots
        ensures SlotOk(st', b, p)
      {
        assert SlotOk(st, b, p);
      }
    }
    assert forall n :: n in st'.table ==> NameOk(st, n);
  }

  lemma RemoveSessionKeepsLinks(st: State, s: Sid)
    requires Linked(st) && s in st.sessions && st.sessions[s].msgq.None? && st.sessions[s].bind.None?
    ensures Linked(st.(sessions := st.sessions - {s}))
  {
    var st' := st.(sessions := st.sessions - {s});
    forall k | k in st'.sessions
      ensures SessionOk(st', k)
    {
      assert SessionOk(st, k);
    }
    forall q | q in st'.queues
      ensures QueueOk(st', q)
    {
      assert QueueOk(st, q);
    }
    forall b | b in st'.bindings
      ensures BindingOk(st', b)
    {
      assert BindingOk(st, b);
      forall p | Some(p) in st'.bindings[b].slots
        ensures SlotOk(st', b, p)
      {
        assert SlotOk(st, b, p);
      }
    }
    assert forall n :: n in st'.table ==> NameOk(st, n);
  }

  lemma AddQueueKeepsLinks(st: State, s: Sid)
    requires Linked(st) && s in st.sessions && st.sessions[s].msgq.None?
    ensures Linked(AddQueue(st, s))
  {
    var st' := AddQueue(st, s);
    assert SessionOk(st, s);
    assert st.nextId in st.queues ==> QueueOk(st, st.nextId);
    forall k | k in st'.sessions
      ensures SessionOk(st', k)
    {
      assert SessionOk(st, k);
      assert k != s && st.sessions[k].msgq.Some? ==> QueueOk(st, st.sessions[k].msgq.value);
    }
    forall q | q in st'.queues
      ensures QueueOk(st', q)
    {
      assert q in st.queues ==> QueueOk(st, q);
    }
    forall b | b in st'.bindings
      ensures BindingOk(st', b)
    {
      assert BindingOk(st, b);
      forall p | Some(p) in st'.bindings[b].slots
        ensures SlotOk(st', b, p)
      {
        assert SlotOk(st, b, p) && QueueOk(st, p);
      }
    }
    assert forall n :: n in st'.table ==> NameOk(st, n);
  }

  /** Joining a binding of the table, or one just added to it. */
  ghost predicate Joinable(st: State, b: Id) {
    && b in st.bindings && b < st.nextId
    && st.bindings[b].name in st.table && st.table[st.bindings[b].name] == b
    && |st.bindings[b].slots| >= Members.INITIAL_SLOTS && st.bindings[b].round < |st.bindings[b].slots|
    && st.bindings[b].count == Members.Count(st.bindings[b].slots) && Members.Distinct(st.bindings[b].slots)
    && (forall q {:trigger SlotOk(st, b, q)} :: Some(q) in st.bindings[b].slots ==> SlotOk(st, b, q))
    && (forall s {:trigger SessionOk(st, s)} :: s in st.sessions ==> SessionOk(st, s))
    && (forall q {:trigger QueueOk(st, q)} :: q in st.queues ==> QueueOk(st, q))
    && (forall k {:trigger BindingOk(st, k)} :: k in st.bindings && k != b ==> BindingOk(st, k))
    && (forall n {:trigger NameOk(st, n)} :: n in st.table ==> NameOk(st, n))
  }

  lemma JoinSlots(st: State, s: Sid, b: Id)
    requires Joinable(st, b) && s in st.sessions && st.sessions[s].msgq.Some? && st.sessions[s].bind.None?
    ensures var q := st.sessions[s].msgq.value;
            var bi := st.bindings[b];
            var r := Members.Subscribe(bi.slots, bi.count, q);
            && r.Some? && |r.value| >= |bi.slots| && Members.Distinct(r.value)
            && Members.Count(r.value) == bi.count + 1
            && (forall k :: Some(k) in r.value <==> Some(k) in bi.slots || k == q)
  {
    var q, bi := st.sessions[s].msgq.value, st.bindings[b];
    Members.SubscribeJoins(bi.slots, q);
    assert SessionOk(st, s);
    assert Some(q) !in bi.slots by {
      assert Some(q) in bi.slots ==> SlotOk(st, b, q);
    }
    var slots := Members.Subscribe(bi.slots, bi.count, q).value;
    forall k | Some(k) in bi.slots
      ensures Some(k) in slots
    {
      var i :| 0 <= i < |bi.slots| && bi.slots[i] == Some(k);
      assert slots[i] == Some(k);
    }
  }

  lemma JoinKeepsLinks(st: State, s: Sid, b: Id)
    requires Joinable(st, b) && s in st.sessions && st.sessions[s].msgq.Some? && st.sessions[s].bind.None?
    ensures Linked(Join(st, s, b))
  {
    JoinSlots(st, s, b);
    var st' := Join(st, s, b);
    var q := st.sessions[s].msgq.value;
    assert SessionOk(st, s);
    forall k | k in st'.sessions
      ensures SessionOk(st', k)
    {
      assert SessionOk(st, k);
    }
    forall k | k in st'.queues
      ensures QueueOk(st', k)
    {
      assert QueueOk(st, k);
    }
    forall k | k in st'.bindings
      ensures BindingOk(st', k)
    {
      assert k != b ==> BindingOk(st, k);
      forall p | Some(p) in st'.bindings[k].slots
        ensures SlotOk(st', k, p)
      {
        assert p != q || k != b ==> SlotOk(st, k, p);
      }
    }
    assert forall n :: n in st'.table ==> NameOk(st, n);
  }

  lemma AddBindingJoinable(st: State, n: Name)
    requires Linked(st) && n !in st.table && GoodName(n)
    ensures Joinable(AddBinding(st, n), st.nextId)
  {
    var st' := AddBinding(st, n);
    Members.CountBlank<Id>(Members.INITIAL_SLOTS);
    assert st.nextId in st.bindings ==> BindingOk(st, st.nextId);
    forall s | s in st'.sessions
      ensures SessionOk(st', s)
    {
      assert SessionOk(st, s);
    }
    forall q | q in st'.queues
      ensures QueueOk(st', q)
    {
      assert QueueOk(st, q);
    }
    forall k | k in st'.bindings && k != st.nextId
      ensures BindingOk(st', k)
    {
      assert BindingOk(st, k);
      assert forall q :: SlotOk(st, k, q) ==> SlotOk(st', k, q);
    }
    forall m | m in st'.table
      ensures NameOk(st', m)
    {
      assert m in st.table ==> NameOk(st, m);
    }
  }

  // ---------------------------------------------------------------------------
  // Steps that send nothing
  // ---------------------------------------------------------------------------

  ghost predicate QuietQueue(st: State, st': State, q: Id)
    requires q in st'.queues
  {
    if q in st.queues then st'.queues[q] == st.queues[q]
    else q >= st.nextId && st'.queues[q] == NewQueue(st'.queues[q].owner)
  }

  ghost predicate QuietSession(st: State, st': State, s: Sid)
    requires s in st'.sessions
  {
    var ss' := st'.sessions[s];
    if s in st.sessions then
      var ss := st.sessions[s];
      && ss'.slen == ss.slen && ss'.sbuf == ss.sbuf
      && (ss'.msgq == ss.msgq || ss'.msgq == None || ss'.msgq.value >= st.nextId)
    else ss'.slen == 0
  }

  /** Queues stay as they are, disappear or are new; sessions keep what they are sending, and their
      queue unless it disappears or is new. */
  ghost predicate Quiet(st: State, st': State) {
    && st'.published == st.published && st.nextId <= st'.nextId
    && (forall q {:trigger QuietQueue(st, st', q)} :: q in st'.queues ==> QuietQueue(st, st', q))
    && (forall s {:trigger QuietSession(st, st', s)} :: s in st'.sessions ==> QuietSession(st, st', s))
  }

  lemma QuietKeepsBuffer(st: State, st': State, s: Sid)
    requires Inv(st) && Linked(st') && Quiet(st, st') && s in st'.sessions
    ensures BufferOk(st', s)
  {
    assert QuietSession(st, st', s);
    if st'.sessions[s].slen > 0 {
      assert BufferOk(st, s);
      var q := st.sessions[s].sbuf.value;
      assert q in st'.queues ==> QuietQueue(st, st', q);
    }
  }

  /** A session turns stale only by losing the queue that it is sending from. */
  lemma QuietStaleness(st: State, st': State, s: Sid)
    requires Inv(st) && Quiet(st, st') && s in st'.sessions
    ensures Stale(st', s) <==> Stale(st, s) || (s in st.sessions && st.sessions[s].slen > 0
                                               && st'.sessions[s].msgq != st.sessions[s].msgq)
  {
    assert QuietSession(st, st', s);
    assert s in st.sessions ==> BufferOk(st, s);
  }

  lemma NewStream(st: State, q: Id)
    requires q in st.queues && st.queues[q] == NewQueue(st.queues[q].owner)
    requires st.queues[q].owner in st.sessions && st.sessions[st.queues[q].owner].slen == 0
    ensures StreamOk(st, q)
  {
    assert Accepted(st.published, []) == [];
  }

  lemma QuietKeepsQueue(st: State, st': State, q: Id)
    requires Inv(st) && Linked(st') && Quiet(st, st') && q in st'.queues
    ensures QueueSound(st', q)
  {
    assert QueueOk(st', q) && QuietQueue(st, st', q);
    var s := st'.queues[q].owner;
    assert QuietSession(st, st', s);
    if q in st.queues {
      assert QueueOk(st, q) && QueueSound(st, q);
      if !Stale(st', s) {
        StreamKept(st, st', q);
      }
    } else if st'.sessions[s].slen == 0 {
      NewStream(st', q);
    } else {
      assert BufferOk(st, s);
    }
  }

  lemma QuietKeeps(st: State, st': State)
    requires Inv(st) && Linked(st') && Quiet(st, st')
    ensures Inv(st')
  {
    forall q | q in st'.queues
      ensures QueueSound(st', q)
    {
      QuietKeepsQueue(st, st', q);
    }
    forall s | s in st'.sessions
      ensures BufferOk(st', s)
    {
      QuietKeepsBuffer(st, st', s);
    }
  }

  lemma OpenKeepsLinks(st: State, s: Sid)
    requires Linked(st)
    ensures Linked(Open(st, s))
  {
    var st' := Open(st, s);
    forall k | k in st'.sessions
      ensures SessionOk(st', k)
    {
      assert k in st.sessions ==> SessionOk(st, k);
    }
    forall q | q in st'.queues
      ensures QueueOk(st', q)
    {
      assert QueueOk(st, q);
    }
    forall b | b in st'.bindings
      ensures BindingOk(st', b)
    {
      assert BindingOk(st, b);
      forall p | Some(p) in st'.bindings[b].slots
        ensures SlotOk(st', b, p)
      {
        assert SlotOk(st, b, p);
      }
    }
    assert forall n :: n in st'.table ==> NameOk(st, n);
  }

  lemma OpenKeeps(st: State, s: Sid)
    requires Inv(st)
    ensures Inv(Open(st, s)) && Quiet(st, Open(st, s))
  {
    OpenKeepsLinks(st, s);
    QuietKeeps(st, Open(st, s));
  }

  lemma LeaveIsQuiet(st: State, s: Sid)
    requires Linked(st) && s in st.sessions && st.sessions[s].bind.Some?
    ensures Quiet(st, Leave(st, s))
    ensures Leave(st, s).sessions == st.sessions[s := st.sessions[s].(bind := None)]
    ensures Leave(st, s).queues == st.queues
  {
  }

  lemma LeaveKeeps(st: State, s: Sid)
    requires Inv(st) && s in st.sessions && st.sessions[s].bind.Some?
    ensures Inv(Leave(st, s)) && Quiet(st, Leave(st, s))
    ensures Leave(st, s).sessions == st.sessions[s := st.sessions[s].(bind := None)]
    ensures Leave(st, s).queues == st.queues
  {
    LeaveKeepsLinks(st, s);
    LeaveIsQuiet(st, s);
    QuietKeeps(st, Leave(st, s));
  }

  lemma DestroyKeepsLinks(st: State, s: Sid)
    requires Linked(st) && s in st.sessions
    ensures Linked(Destroy(st, s)) && Quiet(st, Destroy(st, s))
    ensures Destroy(st, s).sessions == st.sessions - {s}
  {
    var st1 := if st.sessions[s].bind.Some? then Leave(st, s) else st;
    if st.sessions[s].bind.Some? {
      LeaveKeepsLinks(st, s);
      LeaveIsQuiet(st, s);
    }
    var st2 := if st1.sessions[s].msgq.Some? then DropQueue(st1, s) else st1;
    if st1.sessions[s].msgq.Some? {
      DropQueueKeepsLinks(st1, s);
    }
    RemoveSessionKeepsLinks(st2, s);
    assert st2.sessions - {s} == st.sessions - {s};
  }

  /** stomp_destroy_session keeps the invariant, whatever the session was in the middle of. */
  lemma DestroyKeeps(st: State, s: Sid)
    requires Inv(st)
    ensures Inv(Destroy(st, s)) && Quiet(st, Destroy(st, s)) && Destroy(st, s).sessions == st.sessions - {s}
  {
    if s in st.sessions {
      DestroyKeepsLinks(st, s);
      QuietKeeps(st, Destroy(st, s));
    } else {
      assert st.sessions - {s} == st.sessions;
    }
  }

  lemma UnsubscribeKeeps(st: State, s: Sid, dest: Name)
    requires Inv(st)
    ensures var st' := Unsubscribe(st, s, dest).0;
            && Inv(st') && Quiet(st, st') && st'.sessions.Keys == st.sessions.Keys
            && forall k :: k in st.sessions ==> st'.sessions[k].msgq == st.sessions[k].msgq
  {
    if s in st.sessions && dest in st.table && st.sessions[s].bind == Some(st.table[dest]) {
      LeaveKeeps(st, s);
    }
  }

  // ---------------------------------------------------------------------------
  // Subscribing
  // ---------------------------------------------------------------------------

  predicate NameRefused(st: State, dest: Name) {
    dest !in st.table && !GoodName(dest)
  }

  /** The session's subscription to `dest` creates a binding of that name. */
  predicate NamesBinding(st: State, s: Sid, dest: Name) {
    s in st.sessions && st.sessions[s].bind.None? && dest !in st.table && GoodName(dest)
  }

  /** A subscription that is refused for its name destroys the queue of a session that has left its
      binding; when part of a message was already sent, ss_sbuf and ss_slen stay behind. */
  predicate LeavesStale(st: State, s: Sid, dest: Name) {
    && s in st.sessions && st.sessions[s].bind.None?
    && NameRefused(st, dest)
    && st.sessions[s].msgq.Some? && st.sessions[s].slen > 0
  }

  lemma SubscribeKeepsLinks(st: State, s: Sid, dest: Name)
    requires Linked(st)
    ensures Linked(Subscribe(st, s, dest).0)
  {
    if s in st.sessions && st.sessions[s].bind.None? {
      var st1 := WithQueue(st, s);
      if st.sessions[s].msgq.None? {
        AddQueueKeepsLinks(st, s);
      }
      if NameRefused(st, dest) {
        DropQueueKeepsLinks(st1, s);
      } else if dest in st1.table {
        assert NameOk(st1, dest) && BindingOk(st1, st1.table[dest]);
        JoinKeepsLinks(st1, s, st1.table[dest]);
      } else {
        AddBindingJoinable(st1, dest);
        JoinKeepsLinks(AddBinding(st1, dest), s, st1.nextId);
      }
    }
  }

  lemma WithQueueIsQuiet(st: State, s: Sid)
    requires Linked(st) && s in st.sessions
    ensures Quiet(st, WithQueue(st, s))
    ensures st.sessions[s].msgq.Some? ==> WithQueue(st, s) == st
  {
    assert st.nextId in st.queues ==> QueueOk(st, st.nextId);
  }

  /** What the second half of stomp_subscribe leaves alone. */
  ghost predicate SameSending(a: Session, b: Session) {
    b.connected == a.connected && b.slen == a.slen && b.sbuf == a.sbuf && (b.msgq == a.msgq || b.msgq == None)
  }

  ghost predicate SendsSame(st: State, st': State) {
    && st'.published == st.published && st.nextId <= st'.nextId && st'.sessions.Keys == st.sessions.Keys
    && (forall q :: q in st'.queues ==> q in st.queues && st'.queues[q] == st.queues[q])
    && (forall k :: k in st.sessions ==> SameSending(st.sessions[k], st'.sessions[k]))
  }

  lemma QuietThen(st: State, st1: State, st': State)
    requires Quiet(st, st1) && SendsSame(st1, st')
    ensures Quiet(st, st')
  {
    forall q | q in st'.queues
      ensures QuietQueue(st, st', q)
    {
      assert QuietQueue(st, st1, q);
    }
    forall k | k in st'.sessions
      ensures QuietSession(st, st', k)
    {
      assert QuietSession(st, st1, k) && SameSending(st1.sessions[k], st'.sessions[k]);
    }
  }

  lemma JoinSendsSame(st: State, s: Sid, b: Id)
    requires s in st.sessions && st.sessions[s].msgq.Some? && b in st.bindings
    ensures SendsSame(st, Join(st, s, b)) && Join(st, s, b).sessions[s].msgq == st.sessions[s].msgq
    ensures forall k :: k in st.sessions && k != s ==> Join(st, s, b).sessions[k] == st.sessions[k]
  {
  }

  /** A queue disappears exactly when the name is refused. */
  ghost predicate SubscribedQueue(st: State, st': State, s: Sid, dest: Name)
    requires s in st.sessions && s in st'.sessions
  {
    if st.sessions[s].bind.None? && NameRefused(st, dest) then st'.sessions[s].msgq.None?
    else st.sessions[s].msgq.Some? ==> st'.sessions[s].msgq == st.sessions[s].msgq
  }

  lemma SubscribedFrom(st: State, s: Sid, dest: Name)
    requires Linked(st) && s in st.sessions && st.sessions[s].bind.None?
    ensures var st1, st' := WithQueue(st, s), Subscribe(st, s, dest).0;
            && SendsSame(st1, st') && SubscribedQueue(st1, st', s, dest)
            && forall k :: k in st1.sessions && k != s ==> st'.sessions[k] == st1.sessions[k]
  {
    var st1 := WithQueue(st, s);
    if !NameRefused(st, dest) {
      assert dest in st.table ==> NameOk(st, dest);
      var st2 := if dest in st1.table then st1 else AddBinding(st1, dest);
      JoinSendsSame(st2, s, st2.table[dest]);
    }
  }

  lemma SubscribeIsQuiet(st: State, s: Sid, dest: Name)
    requires Linked(st)
    ensures var st' := Subscribe(st, s, dest).0;
            && Quiet(st, st') && st'.sessions.Keys == st.sessions.Keys
            && (s in st.sessions ==> SubscribedQueue(st, st', s, dest)
                                     && st'.sessions[s].connected == st.sessions[s].connected)
            && forall k :: k in st.sessions && k != s ==> st'.sessions[k] == st.sessions[k]
  {
    if s in st.sessions && st.sessions[s].bind.None? {
      WithQueueIsQuiet(st, s);
      SubscribedFrom(st, s, dest);
      QuietThen(st, WithQueue(st, s), Subscribe(st, s, dest).0);
    }
  }

  /** stomp_subscribe keeps the invariant on every path... */
  lemma SubscribeKeeps(st: State, s: Sid, dest: Name)
    requires Inv(st)
    ensures var st' := Subscribe(st, s, dest).0;
            Inv(st') && Quiet(st, st') && st'.sessions.Keys == st.sessions.Keys
  {
    SubscribeKeepsLinks(st, s, dest);
    SubscribeIsQuiet(st, s, dest);
    QuietKeeps(st, Subscribe(st, s, dest).0);
  }

  /** ...and leaves a session stale exactly if it was stale, or if the name is refused while the
      session is in the middle of a message. */
  lemma SubscribeStaleness(st: State, s: Sid, dest: Name, k: Sid)
    requires Inv(st)
    ensures Stale(Subscribe(st, s, dest).0, k) <==> Stale(st, k) || (k == s && LeavesStale(st, s, dest))
  {
    SubscribeIsQuiet(st, s, dest);
    var st' := Subscribe(st, s, dest).0;
    if k in st'.sessions {
      QuietStaleness(st, st', k);
      assert BufferOk(st, k);
    }
  }
}
