/**
 * The bindings of mqcore/binding.c: a growing array of pointers to sinks. A sink is a session's
 * message queue with the callback that sends for the session.
 */
module Bindings {
  import opened Bytes
  import opened Rings
  import opened StompDatas
  import Members
  import Senders

  /** Every occupied slot points to a session with a queue, inside `objects`. */
  ghost predicate Inside(slots: seq<Option<StompData>>, objects: set<object>)
    reads objects
  {
    forall i :: 0 <= i < |slots| && slots[i].Some? ==>
                  var d := slots[i].value;
                  d in objects && d.Repr <= objects && d.Valid() && d.msgq != null
  }

  /** No two slots share anything. */
  ghost predicate Apart(slots: seq<Option<StompData>>, objects: set<object>)
    reads objects
  {
    forall i, j :: 0 <= i < j < |slots| && slots[i].Some? && slots[j].Some?
                   && slots[i].value in objects && slots[j].value in objects ==>
                     slots[i].value != slots[j].value && slots[i].value.Repr !! slots[j].value.Repr
  }

  /** The push of `m` does not send from a queue that is gone. */
  ghost predicate CanPush(d: StompData, m: Message)
    requires d.Valid() && d.msgq != null
    reads d, d.Repr
  {
    d.stale ==> !Push(d.msgq.view, m).1
  }

  ghost predicate AllCanPush(slots: seq<Option<StompData>>, objects: set<object>, m: Message)
    requires Inside(slots, objects)
    reads objects
  {
    forall i {:trigger slots[i]} :: 0 <= i < |slots| && slots[i].Some? ==> CanPush(slots[i].value, m)
  }

  /** What a push of `m` does to a sink, as a change of values; `n` is the result of send(). */
  datatype SinkView = SinkView(ring: Ring, slen: nat, sent: seq<byte>, stale: bool)

  ghost function ViewOf(d: StompData): SinkView
    requires d.Valid() && d.msgq != null
    reads d, d.Repr
  {
    SinkView(d.msgq.view, d.slen, d.sent, d.stale)
  }

  ghost predicate SinkOk(v: SinkView) {
    !v.stale ==> Senders.Consistent(Senders.Sender(v.ring, v.slen, v.sent))
  }

  ghost function Delivered(v: SinkView, m: Message, n: int): SinkView
    requires SinkOk(v) && Rings.Valid(v.ring)
  {
    if v.stale then v.(ring := Push(v.ring, m).0)
    else
      var s := Senders.Deliver(Senders.Sender(v.ring, v.slen, v.sent), m, n).0;
      SinkView(s.ring, s.slen, s.sent, false)
  }

  lemma ViewIsOk(d: StompData)
    requires d.Valid() && d.msgq != null
    ensures SinkOk(ViewOf(d)) && Rings.Valid(ViewOf(d).ring)
  {
    if !d.stale {
      var s := d.View();
    }
  }

  /** A sink after a push, from what it was before. */
  ghost predicate GotMessage(d: StompData, v: SinkView, m: Message, n: int)
    reads d, d.Repr
  {
    d.Valid() && d.msgq != null && SinkOk(v) && Rings.Valid(v.ring) && ViewOf(d) == Delivered(v, m, n)
  }

  /** A sink before a push, and what belonged to it. */
  datatype Past = Past(view: SinkView, repr: set<object>)

  ghost function Pasts(slots: seq<Option<StompData>>, objects: set<object>): (v: seq<Past>)
    requires Inside(slots, objects)
    reads objects
    ensures |v| == |slots|
    ensures forall i :: 0 <= i < |slots| && slots[i].Some? ==>
              v[i] == Past(ViewOf(slots[i].value), slots[i].value.Repr)
  {
    seq(|slots|, i requires 0 <= i < |slots| && Inside(slots, objects) reads objects =>
      if slots[i].Some? then Past(ViewOf(slots[i].value), slots[i].value.Repr)
      else Past(SinkView(Ring([[]], 0, 1), 0, [], false), {}))
  }

  /** The sinks from slot lo up to slot i took the message, the others are as they were. All of them
      share nothing, and have grown from `all` to `objects` only. */
  ghost predicate FanOut(slots: seq<Option<StompData>>, past: seq<Past>, lo: nat, i: nat, m: Message, net: seq<int>,
                         all: set<object>, objects: set<object>)
    reads objects
  {
    && Inside(slots, objects) && Apart(slots, objects) && |past| == |slots| && all <= objects
    && forall j {:trigger slots[j]} :: 0 <= j < |slots| && slots[j].Some? ==>
         var d := slots[j].value;
         && d.Repr <= past[j].repr + (objects - all)
         && if lo <= j < i then GotMessage(d, past[j].view, m, Senders.NetAt(net, j)) else ViewOf(d) == past[j].view
  }

  /** The sink can take `m`. */
  ghost predicate Takes(v: SinkView, m: Message) {
    Rings.Valid(v.ring) && (v.stale ==> !Push(v.ring, m).1)
  }

  lemma FanOutStarts(slots: seq<Option<StompData>>, lo: nat, m: Message, net: seq<int>, objects: set<object>)
    requires Inside(slots, objects) && Apart(slots, objects)
    ensures FanOut(slots, Pasts(slots, objects), lo, lo, m, net, objects, objects)
  {
  }

  lemma CanPushTakes(slots: seq<Option<StompData>>, i: nat, m: Message, objects: set<object>)
    requires Inside(slots, objects) && i < |slots| && slots[i].Some? && CanPush(slots[i].value, m)
    ensures Takes(Pasts(slots, objects)[i].view, m)
  {
    ViewIsOk(slots[i].value);
  }

  /** The members in front of slot i had room for `m`. */
  ghost predicate AllHadRoom(slots: seq<Option<StompData>>, past: seq<Past>, i: nat, m: Message)
    requires i <= |slots| == |past|
  {
    forall j :: 0 <= j < i && slots[j].Some? ==>
      1 <= |past[j].view.ring.held| <= SLOTS && Push(past[j].view.ring, m).1
  }

  lemma EmptySlot(slots: seq<Option<StompData>>, past: seq<Past>, lo: nat, i: nat, m: Message, net: seq<int>,
                  all: set<object>, objects: set<object>)
    requires FanOut(slots, past, lo, i, m, net, all, objects) && i < |slots| && slots[i] == None
    ensures FanOut(slots, past, lo, i + 1, m, net, all, objects)
  {
  }

  /** sink->ms_push_msg. */
  method PushTo(d: StompData, iov: seq<seq<byte>>, n: int) returns (ok: bool)
    requires d.Valid() && d.msgq != null && CanPush(d, Flatten(iov)) && |Flatten(iov)| < 0x8000_0000
    modifies d.Repr
    ensures d.Valid() && d.msgq == old(d.msgq) && fresh(d.Repr - old(d.Repr))
    ensures SinkOk(old(ViewOf(d))) && Rings.Valid(old(ViewOf(d)).ring)
    ensures ok == Push(old(d.msgq.view), Flatten(iov)).1
    ensures ViewOf(d) == Delivered(old(ViewOf(d)), Flatten(iov), n)
  {
    ViewIsOk(d);
    ok := d.Deliver(iov, n);
  }

  /** One push of a fan-out, which leaves the other sinks alone. */
  method PushSlot(ghost slots: seq<Option<StompData>>, ghost past: seq<Past>, ghost lo: nat, i: nat, d: StompData,
                  iov: seq<seq<byte>>, net: seq<int>, ghost all: set<object>, ghost objects: set<object>)
    returns (ok: bool, ghost objects': set<object>)
    requires FanOut(slots, past, lo, i, Flatten(iov), net, all, objects) && lo <= i < |slots| && slots[i] == Some(d)
    requires Takes(past[i].view, Flatten(iov)) && |Flatten(iov)| < 0x8000_0000
    modifies d.Repr
    ensures fresh(objects' - objects) && objects <= objects'
    ensures FanOut(slots, past, lo, i + 1, Flatten(iov), net, all, objects')
    ensures ok == Push(past[i].view.ring, Flatten(iov)).1
  {
    ok := PushTo(d, iov, Senders.NetAt(net, i));
    objects' := objects + d.Repr;
    forall j | 0 <= j < |slots| && j != i && slots[j].Some?
      ensures var e := slots[j].value;
              && e in objects && e.Repr <= objects && e.Valid() && e.msgq != null && e.Repr !! d.Repr
              && e.Repr == old(e.Repr) && ViewOf(e) == old(ViewOf(e)) && e.msgq == old(e.msgq)
    {
      var e := slots[j].value;
      assert old(e.Valid() && e.Repr !! d.Repr);
    }
  }

  class Binding {
    const name: seq<byte>
    /** Whether ms_push_msg is binding_queue_push_msg or binding_topic_push_msg. */
    const isQueue: bool
    var members: array<Option<StompData>>
    var count: nat
    var round: nat

    ghost predicate Valid()
      reads this, members
    {
      && members.Length >= Members.INITIAL_SLOTS && round < members.Length
      && count == Members.Count(members[..])
    }

    /** binding_create, with BINDING_MEMBERS_MAX empty slots. */
    constructor (name: seq<byte>, isQueue: bool)
      ensures Valid() && fresh(members) && this.name == name && this.isQueue == isQueue
      ensures members[..] == Members.Blank(Members.INITIAL_SLOTS) && members.Length == 8 && count == round == 0
    {
      this.name, this.isQueue := name, isQueue;
      members := new Option<StompData>[Members.INITIAL_SLOTS](_ => None);
      count, round := 0, 0;
      new;
      assert members[..] == Members.Blank(Members.INITIAL_SLOTS);
      Members.CountBlank<StompData>(Members.INITIAL_SLOTS);
    }

    /** binding_extend. */
    method Extend()
      requires Valid()
      modifies this`members
      ensures Valid() && fresh(members)
      ensures members[..] == Members.Extend(old(members[..])) && members.Length > old(members.Length)
    {
      var max := members.Length;
      ghost var slots := members[..];
      var more := new Option<StompData>[max + max / 2](_ => None);
      forall i | 0 <= i < max {
        more[i] := members[i];
      }
      Members.CountConcat(slots, Members.Blank(max / 2));
      Members.CountBlank<StompData>(max / 2);
      members := more;
      assert members[..] == slots + Members.Blank(max / 2);
    }

    /** The loop of binding_subscribe. */
    method FindFree() returns (i: nat)
      requires Valid() && Members.FirstFree(members[..], 0).Some?
      ensures Members.FirstFree(members[..], 0) == Some(i)
    {
      i := 0;
      while members[i].Some?
        invariant 0 <= i < members.Length
        invariant Members.FirstFree(members[..], 0) == Members.FirstFree(members[..], i)
        decreases members.Length - i
      {
        i := i + 1;
      }
    }

    method Occupy(i: nat, d: StompData)
      requires Valid() && i < members.Length && members[i] == None
      modifies this`count, members
      ensures Valid() && count == old(count) + 1
      ensures members[..] == old(members[..])[i := Some(d)]
    {
      ghost var slots := members[..];
      Members.CountUpdate(slots, i, Some(d));
      members[i], count := Some(d), count + 1;
      assert members[..] == slots[i := Some(d)];
    }

    /** binding_subscribe; its error return behind the loop cannot be reached. */
    method Subscribe(d: StompData)
      requires Valid()
      modifies this, members
      ensures Valid() && (members == old(members) || fresh(members))
      ensures Some(members[..]) == Members.Subscribe(old(members[..]), old(count), d)
      ensures count == old(count) + 1 && round == old(round)
    {
      Members.SubscribeFinds(members[..]);
      if count == members.Length {
        Extend();
      }
      var i := FindFree();
      Occupy(i, d);
    }

    method Vacate(i: nat)
      requires Valid() && i < members.Length && members[i].Some?
      modifies this`count, members
      ensures Valid() && count == old(count) - 1
      ensures members[..] == old(members[..])[i := None]
    {
      ghost var slots := members[..];
      Members.CountUpdate(slots, i, None);
      members[i], count := None, count - 1;
      assert members[..] == slots[i := None];
    }

    /** binding_unsubscribe, which stops once it has destroyed the binding. */
    method Unsubscribe(d: StompData) returns (destroyed: bool)
      requires Valid()
      modifies this`count, members
      ensures Valid()
      ensures (members[..], destroyed) == Members.Unsubscribe(old(members[..]), old(count), d, 0)
      ensures destroyed ==> count == 0
    {
      var i := 0;
      while i < members.Length
        invariant 0 <= i <= members.Length && Valid()
        invariant Members.Unsubscribe(members[..], count, d, i) ==
                  Members.Unsubscribe(old(members[..]), old(count), d, 0)
      {
        if members[i] == Some(d) {
          Vacate(i);
          if count == 0 {
            return true;
          }
        }
        i := i + 1;
      }
      return false;
    }

    /** The scan of binding_queue_push_msg. */
    method Turn() returns (r: Option<nat>)
      requires Valid()
      modifies this`round
      ensures Valid()
      ensures (r, round) == Members.Pick(members[..], old(round), members.Length)
    {
      var n, i := members.Length, 0;
      while i < n
        invariant 0 <= i <= n && round < n
        invariant Members.Pick(members[..], round, n - i) == Members.Pick(members[..], old(round), n)
      {
        var index := round;
        Members.NextIsModulo(round, n);
        round := (round + 1) % n;
        if members[index].Some? {
          return Some(index);
        }
        i := i + 1;
      }
      return None;
    }

    /** The sinks belong to the binding alone, lie inside `objects`, and share nothing. */
    ghost predicate Owns(objects: set<object>)
      reads this, members, objects
    {
      && Valid() && this !in objects && members !in objects
      && Inside(members[..], objects) && Apart(members[..], objects)
    }

    ghost function Turns(): (Option<nat>, nat)
      requires Valid()
      reads this, members
    {
      Members.Pick(members[..], round, members.Length)
    }

    /** The objects that a push may write to: the sink whose turn it is, or all of them. */
    ghost function Targets(objects: set<object>): set<object>
      requires Owns(objects)
      reads this, members, objects
    {
      if !isQueue then objects else if Turns().0.Some? then members[Turns().0.value].value.Repr else {}
    }

    /** Every push of `m` that binding_push_msg would make can be made. */
    ghost predicate CanTake(m: Message, objects: set<object>)
      requires Owns(objects)
      reads this, members, objects
    {
      if !isQueue then AllCanPush(members[..], objects, m)
      else Turns().0.Some? ==> CanPush(members[Turns().0.value].value, m)
    }

    /** The slots that a push is for, from this one up to the second. */
    ghost function Range(): (nat, nat)
      requires Valid()
      reads this, members
    {
      if !isQueue then (0, members.Length)
      else if Turns().0.Some? then (Turns().0.value, Turns().0.value + 1) else (0, 0)
    }

    /** binding_queue_push_msg: at most one member gets the message, the one whose turn it is. */
    method QueuePush(iov: seq<seq<byte>>, net: seq<int>, ghost objects: set<object>)
      returns (ok: bool, ghost objects': set<object>)
      requires Owns(objects) && isQueue && CanTake(Flatten(iov), objects) && |Flatten(iov)| < 0x8000_0000
      modifies this`round, Targets(objects)
      ensures Valid() && members == old(members) && members[..] == old(members[..]) && count == old(count)
      ensures round == old(Turns()).1 && fresh(objects' - objects)
      ensures FanOut(members[..], old(Pasts(members[..], objects)), old(Range()).0, old(Range()).1, Flatten(iov), net,
                     objects, objects')
      ensures ok <==> old(Turns()).0.Some? && Push(old(Pasts(members[..], objects))[old(Turns()).0.value].view.ring,
                                                   Flatten(iov)).1
    {
      ghost var slots, past := members[..], Pasts(members[..], objects);
      FanOutStarts(slots, Range().0, Flatten(iov), net, objects);
      if Turns().0.Some? {
        CanPushTakes(slots, Turns().0.value, Flatten(iov), objects);
      }
      var turn := Turn();
      objects' := objects;
      if turn.None? {
        return false, objects;
      }
      var i := turn.value;
      ok, objects' := PushSlot(slots, past, i, i, members[i].value, iov, net, objects, objects);
    }

    /** The loop of binding_topic_push_msg, which counts the members without room. */
    method PushSlots(ghost slots: seq<Option<StompData>>, ghost past: seq<Past>, iov: seq<seq<byte>>, net: seq<int>,
                     ghost objects: set<object>)
      returns (errors: nat, ghost objects': set<object>)
      requires Valid() && this !in objects && members !in objects && slots == members[..]
      requires FanOut(slots, past, 0, 0, Flatten(iov), net, objects, objects) && |Flatten(iov)| < 0x8000_0000
      requires forall j :: 0 <= j < |slots| && slots[j].Some? ==> Takes(past[j].view, Flatten(iov))
      modifies objects
      ensures Valid() && members[..] == slots && fresh(objects' - objects)
      ensures FanOut(slots, past, 0, |slots|, Flatten(iov), net, objects, objects')
      ensures errors == 0 <==> AllHadRoom(slots, past, |slots|, Flatten(iov))
    {
      errors, objects' := 0, objects;
      for i := 0 to members.Length
        invariant Valid() && members[..] == slots && members == old(members)
        invariant fresh(objects' - objects) && this !in objects' && members !in objects'
        invariant FanOut(slots, past, 0, i, Flatten(iov), net, objects, objects')
        invariant errors == 0 <==> AllHadRoom(slots, past, i, Flatten(iov))
      {
        if members[i].Some? {
          var pushed;
          pushed, objects' := PushSlot(slots, past, 0, i, members[i].value, iov, net, objects, objects');
          if !pushed {
            errors := errors + 1;
          }
        } else {
          EmptySlot(slots, past, 0, i, Flatten(iov), net, objects, objects');
        }
      }
    }

    /** binding_topic_push_msg: every member gets the message once if it has room; the call succeeds
        exactly when all of them had. */
    method TopicPush(iov: seq<seq<byte>>, net: seq<int>, ghost objects: set<object>)
      returns (ok: bool, ghost objects': set<object>)
      requires Owns(objects) && !isQueue && CanTake(Flatten(iov), objects) && |Flatten(iov)| < 0x8000_0000
      modifies objects
      ensures Valid() && members == old(members) && members[..] == old(members[..])
      ensures count == old(count) && round == old(round) && fresh(objects' - objects)
      ensures FanOut(members[..], old(Pasts(members[..], objects)), 0, members.Length, Flatten(iov), net,
                     objects, objects')
      ensures ok <==> AllHadRoom(members[..], old(Pasts(members[..], objects)), members.Length, Flatten(iov))
    {
      ghost var slots, past := members[..], Pasts(members[..], objects);
      FanOutStarts(slots, 0, Flatten(iov), net, objects);
      forall j | 0 <= j < |slots| && slots[j].Some?
        ensures Takes(past[j].view, Flatten(iov))
      {
        CanPushTakes(slots, j, Flatten(iov), objects);
      }
      var errors;
      errors, objects' := PushSlots(slots, past, iov, net, objects);
      return errors == 0, objects';
    }

    /** binding_push_msg. */
    method PushMsg(iov: seq<seq<byte>>, net: seq<int>, ghost objects: set<object>)
      returns (ok: bool, ghost objects': set<object>)
      requires Owns(objects) && CanTake(Flatten(iov), objects) && |Flatten(iov)| < 0x8000_0000
      modifies this`round, Targets(objects)
      ensures Valid() && members == old(members) && members[..] == old(members[..]) && count == old(count)
      ensures round == (if isQueue then old(Turns()).1 else old(round)) && fresh(objects' - objects)
      ensures FanOut(members[..], old(Pasts(members[..], objects)), old(Range()).0, old(Range()).1, Flatten(iov), net,
                     objects, objects')
    {
      if isQueue {
        ok, objects' := QueuePush(iov, net, objects);
      } else {
        ok, objects' := TopicPush(iov, net, objects);
      }
    }
  }
}
