/** The message queue of mqcore/msgqueue.c on arrays. */
module MsgQueues {
  import opened Bytes
  import opened Rings
  import opened Records
  import opened Pbufs

  /** The whole buffer is `len` bytes long and holds `bytes` from its first byte on. */
  ghost predicate Holds(p: Pbuf, len: nat, bytes: seq<byte>)
    reads p, p.buf
  {
    p.Valid() && p.head == 0 && p.buf.Length == len && p.Contents() == bytes
  }

  /** How many slots after the read slot slot i comes. */
  ghost function Offset(q: Ring, i: nat): nat
    requires i < SLOTS && q.r < SLOTS
  {
    Wrap(i + SLOTS - q.r)
  }

  /** Length and contents of the buffer in slot i. */
  ghost function SlotLength(q: Ring, i: nat): nat
    requires i < SLOTS && q.r < SLOTS
  {
    if Offset(q, i) < |q.held| then q.cap else 0
  }

  ghost function SlotBytes(q: Ring, i: nat): seq<byte>
    requires i < SLOTS && q.r < SLOTS
  {
    if Offset(q, i) < |q.held| then EncodeAll(q.held[Offset(q, i)]) else []
  }

  ghost function WriteSlot(q: Ring): nat
    requires q.r < SLOTS && 1 <= |q.held| <= SLOTS
  {
    Wrap(q.r + |q.held| - 1)
  }

  ghost predicate SameSlot(q: Ring, q': Ring, i: nat)
    requires i < SLOTS && q.r < SLOTS && q'.r < SLOTS
  {
    SlotLength(q', i) == SlotLength(q, i) && SlotBytes(q', i) == SlotBytes(q, i)
  }

  /** Giving back the front slot changes that slot only. */
  lemma ReleaseFront(q: Ring)
    requires Rings.Valid(q) && |q.held| > 1
    ensures var q' := q.(held := q.held[1..], r := Wrap(q.r + 1));
            && Rings.Valid(q') && WriteSlot(q') == WriteSlot(q) != q.r
            && (forall i {:trigger SameSlot(q, q', i)} :: 0 <= i < SLOTS && i != q.r ==> SameSlot(q, q', i))
            && SlotLength(q', q.r) == 0 && SlotBytes(q', q.r) == []
  {
    var q' := q.(held := q.held[1..], r := Wrap(q.r + 1));
    assert forall i :: 0 <= i < SLOTS && i != q.r ==> Offset(q', i) == Offset(q, i) - 1;
  }

  /** Allocating the slot behind the write slot changes that slot only. */
  lemma AllocateBack(q: Ring)
    requires Rings.Valid(q)
    ensures var next := Wrap(WriteSlot(q) + 1);
            && (SlotLength(q, next) == 0 <==> |q.held| < SLOTS)
            && (|q.held| < SLOTS ==>
                  var q' := q.(held := q.held + [[]]);
                  && next != q.r && Rings.Valid(q') && WriteSlot(q') == next
                  && (forall i {:trigger SameSlot(q, q', i)} :: 0 <= i < SLOTS && i != next ==> SameSlot(q, q', i))
                  && SlotLength(q', next) == q.cap && SlotBytes(q', next) == [])
  {
    var next := Wrap(WriteSlot(q) + 1);
    if |q.held| < SLOTS {
      assert Offset(q, next) == |q.held|;
    } else {
      assert next == q.r;
    }
  }

  lemma DropFront(q: Ring)
    requires Rings.Valid(q) && q.held[0] != []
    ensures var q' := q.(held := q.held[0 := q.held[0][1..]]);
            && Rings.Valid(q') && WriteSlot(q') == WriteSlot(q)
            && (forall i {:trigger SameSlot(q, q', i)} :: 0 <= i < SLOTS && i != q.r ==> SameSlot(q, q', i))
            && SlotLength(q', q.r) == q.cap && SlotBytes(q', q.r) == EncodeAll(q.held[0][1..])
  {
  }

  lemma AppendBack(q: Ring, m: Message)
    requires Rings.Valid(q) && Size(Last(q)) + HEADER + |m| <= q.cap
    ensures var q' := q.(held := q.held[|q.held| - 1 := Last(q) + [m]]);
            && Rings.Valid(q') && WriteSlot(q') == WriteSlot(q)
            && (forall i {:trigger SameSlot(q, q', i)} :: 0 <= i < SLOTS && i != WriteSlot(q) ==> SameSlot(q, q', i))
            && SlotLength(q', WriteSlot(q)) == q.cap
            && SlotBytes(q', WriteSlot(q)) == EncodeAll(Last(q) + [m])
  {
    SizeSnoc(Last(q), m);
  }

  /** The writes at the end of msgqueue_push_msg: once the room is there none of them fails, so no
      part of a record ever stays behind in the buffer. */
  method WriteRecord(pbuf: Pbuf, length: nat, iov: seq<seq<byte>>, ghost ms: seq<Message>)
    requires pbuf.Valid() && pbuf.head == 0 && length == |Flatten(iov)| && pbuf.Contents() == EncodeAll(ms)
    requires HEADER + length <= pbuf.FreeLen()
    modifies pbuf, pbuf.buf
    ensures pbuf.buf == old(pbuf.buf)
    ensures Holds(pbuf, pbuf.buf.Length, EncodeAll(ms + [Flatten(iov)]))
  {
    ghost var base, written := EncodeAll(ms), EncodeLength(length);
    var ok := pbuf.Write(EncodeLength(length));
    assert ok;
    for i := 0 to |iov|
      invariant pbuf.buf == old(pbuf.buf) && written == EncodeLength(length) + Flatten(iov[..i])
      invariant Holds(pbuf, pbuf.buf.Length, base + written)
    {
      FlattenNext(iov, i);
      ConcatAssoc(base, written, iov[i]);
      ConcatAssoc(EncodeLength(length), Flatten(iov[..i]), iov[i]);
      ok := pbuf.Write(iov[i]);
      assert ok;
      written := written + iov[i];
    }
    assert iov[..|iov|] == iov;
    EncodeAllSnoc(ms, Flatten(iov));
  }

  lemma BackSlot(q: Ring)
    requires Rings.Valid(q)
    ensures Offset(q, WriteSlot(q)) == |q.held| - 1
    ensures SlotLength(q, WriteSlot(q)) == q.cap && SlotBytes(q, WriteSlot(q)) == EncodeAll(Last(q))
  {
  }

  /** The sf_pbuf_adjust of msgqueue_pop_msg. */
  method DropBytes(pbuf: Pbuf, n: nat, ghost rest: seq<byte>)
    requires pbuf.Valid() && pbuf.head == 0 && n <= |pbuf.Contents()| && pbuf.Contents()[n..] == rest
    modifies pbuf, pbuf.buf
    ensures pbuf.buf == old(pbuf.buf) && Holds(pbuf, pbuf.buf.Length, rest)
  {
    pbuf.Adjust(n);
  }

  /** The loop of msgqueue_create: four empty buffers, of which the first is allocated. */
  method InitPbufs(len: nat) returns (pbufs: seq<Pbuf>, ghost objects: set<object>)
    ensures fresh(objects) && |pbufs| == SLOTS
    ensures forall i :: 0 <= i < SLOTS ==> pbufs[i] in objects && pbufs[i].buf in objects
    ensures forall i, j :: 0 <= i < j < SLOTS ==> pbufs[i] != pbufs[j] && pbufs[i].buf != pbufs[j].buf
    ensures forall i :: 0 <= i < SLOTS ==> Holds(pbufs[i], if i == 0 then len else 0, [])
  {
    pbufs, objects := [], {};
    for n := 0 to SLOTS
      invariant fresh(objects) && |pbufs| == n
      invariant forall i :: 0 <= i < n ==> pbufs[i] in objects && pbufs[i].buf in objects
      invariant forall i, j :: 0 <= i < j < n ==> pbufs[i] != pbufs[j] && pbufs[i].buf != pbufs[j].buf
      invariant forall i :: 0 <= i < n ==> Holds(pbufs[i], if i == 0 then len else 0, [])
    {
      var pbuf := new Pbuf(if n == 0 then len else 0);
      pbufs, objects := pbufs + [pbuf], objects + {pbuf, pbuf.buf};
    }
  }

  class MsgQueue {
    const slots: seq<Pbuf>
    const totalSize: nat
    var r: nat
    var w: nat
    ghost var view: Ring
    ghost var Repr: set<object>

    /** Slot i holds the bytes that the view says: whole records from its first byte on, or nothing
        at all when it is not allocated. */
    ghost predicate SlotOk(i: nat)
      requires i < SLOTS == |slots| && view.r < SLOTS
      reads this, slots[i], slots[i].buf
    {
      Holds(slots[i], SlotLength(view, i), SlotBytes(view, i))
    }

    ghost predicate Layout()
      reads this, Repr
    {
      && this in Repr && |slots| == SLOTS
      && (forall i :: 0 <= i < SLOTS ==> slots[i] in Repr && slots[i].buf in Repr)
      && (forall i, j :: 0 <= i < j < SLOTS ==> slots[i] != slots[j] && slots[i].buf != slots[j].buf)
      && Rings.Valid(view) && view.r == r && w == WriteSlot(view)
      && view.cap == totalSize / SLOTS && view.cap < LENGTH_LIMIT
    }

    ghost predicate Valid()
      reads this, Repr
    {
      Layout() && forall i {:trigger SlotOk(i)} :: 0 <= i < SLOTS ==> SlotOk(i)
    }

    /** The bytes of the front slot, which start where its buffer starts. */
    ghost function FrontBytes(): (s: seq<byte>)
      requires Valid()
      reads this, Repr
      ensures |s| <= slots[r].buf.Length && s == slots[r].buf[..|s|]
      ensures s == EncodeAll(view.held[0])
    {
      assert SlotOk(r) && Offset(view, r) == 0;
      slots[r].Contents()
    }

    /** msgqueue_create. */
    constructor (queueSize: nat)
      requires SLOTS <= queueSize && queueSize / SLOTS < LENGTH_LIMIT
      ensures Valid() && fresh(Repr)
      ensures view == Rings.Create(queueSize)
    {
      var pbufs, objects := InitPbufs(queueSize / SLOTS);
      slots := pbufs;
      totalSize := queueSize;
      r, w := 0, 0;
      view := Rings.Create(queueSize);
      Repr := {this} + objects;
      new;
      forall i | 0 <= i < SLOTS
        ensures SlotOk(i)
      {
        assert Holds(slots[i], if i == 0 then view.cap else 0, []);
      }
    }

    /** msgqueue_wnext. */
    method WNext() returns (ok: bool)
      requires Valid()
      modifies this, slots[Wrap(w + 1)]
      ensures Valid() && fresh(Repr - old(Repr))
      ensures ok <==> |old(view).held| < SLOTS
      ensures view == if ok then old(view).(held := old(view).held + [[]]) else old(view)
      ensures r == old(r) && slots[r].buf == old(slots[r].buf)
    {
      AllocateBack(view);
      WrapIsModulo(w + 1);
      var next := (w + 1) % SLOTS;
      assert SlotOk(next);
      if slots[next].BufferLen() != 0 {
        return false;
      }
      var pbuf := slots[next];
      pbuf.Init(totalSize / SLOTS);
      w := next;
      view := view.(held := view.held + [[]]);
      Repr := Repr + {pbuf.buf};
      forall i | 0 <= i < SLOTS && i != next
        ensures SlotOk(i)
      {
        assert old(SlotOk(i)) && SameSlot(old(view), view, i);
      }
      assert SlotOk(next);
      return true;
    }

    /** msgqueue_rnext. */
    method RNext() returns (ok: bool)
      requires Valid() && view.held[0] == []
      modifies Repr
      ensures Valid() && fresh(Repr - old(Repr))
      ensures ok <==> |old(view).held| > 1
      ensures view == if ok then old(view).(held := old(view).held[1..], r := Wrap(old(r) + 1)) else old(view)
    {
      if r == w {
        return false;
      }
      assert SlotOk(r);
      ReleaseFront(view);
      slots[r].Release();
      Repr := Repr + {slots[r].buf};
      view := view.(held := view.held[1..], r := Wrap(r + 1));
      WrapIsModulo(r + 1);
      r := r + 1;
      r := r % SLOTS;
      forall i | 0 <= i < SLOTS && i != old(r)
        ensures SlotOk(i)
      {
        assert old(SlotOk(i)) && SameSlot(old(view), view, i);
      }
      return true;
    }

    /** What the front slot tells a reader: whether there is a record, ... */
    lemma Front()
      requires Valid()
      ensures SlotOk(r)
      ensures slots[r].Contents() == EncodeAll(view.held[0])
      ensures slots[r].DataLen() < HEADER <==> view.held[0] == []
    {
      assert SlotOk(r) && Offset(view, r) == 0;
    }

    /** ...its message, ... */
    lemma FrontMessage()
      requires Valid() && view.held[0] != []
      ensures SlotOk(r)
      ensures var m := view.held[0][0];
              && HEADER + |m| <= slots[r].tail
              && DecodeLength(slots[r].Contents()) == |m|
              && slots[r].buf[HEADER..HEADER + |m|] == m
    {
      var ms := view.held[0];
      Front();
      MessageFits(ms, ms[0]);
      FirstRecord(ms);
      assert slots[r].buf[HEADER..HEADER + |ms[0]|] == slots[r].Contents()[HEADER..HEADER + |ms[0]|];
    }

    /** ...and the records behind it. */
    lemma FrontRest()
      requires Valid() && view.held[0] != []
      ensures var ms, n := view.held[0], HEADER + |view.held[0][0]|;
              SlotOk(r) && n <= |slots[r].Contents()| && slots[r].Contents()[n..] == EncodeAll(ms[1..])
    {
      var ms := view.held[0];
      Front();
      MessageFits(ms, ms[0]);
      FirstRecord(ms);
    }

    /** The redo loop that peek and pop share. */
    method SettleFront()
      requires Valid()
      modifies Repr
      ensures Valid() && fresh(Repr - old(Repr))
      ensures view == Settle(old(view))
    {
      Front();
      while slots[r].DataLen() < HEADER
        invariant Valid() && fresh(Repr - old(Repr)) && SlotOk(r)
        invariant slots[r].DataLen() < HEADER <==> view.held[0] == []
        invariant Settle(view) == Settle(old(view))
        decreases |view.held|
      {
        var more := RNext();
        Front();
        if !more {
          return;
        }
      }
    }

    /** msgqueue_peek: where the first message lies in memory, without its header. */
    method Peek() returns (ok: bool, buf: array?<byte>, offset: nat, length: nat)
      requires Valid()
      modifies Repr
      ensures Valid() && fresh(Repr - old(Repr))
      ensures view == Rings.Peek(old(view)).0
      ensures ok <==> Rings.Peek(old(view)).1.Some?
      ensures ok ==> view.held[0] != [] && buf == slots[r].buf && offset == HEADER
                     && offset + length <= buf.Length
                     && buf[offset..offset + length] == Rings.Peek(old(view)).1.value
    {
      SettleFront();
      Front();
      var pbuf := slots[r];
      if pbuf.DataLen() < HEADER {
        return false, null, 0, 0;
      }
      FrontMessage();
      length := DecodeLength(pbuf.buf[pbuf.head..pbuf.tail]);
      return true, pbuf.buf, pbuf.head + HEADER, length;
    }

    /** Dropping the front record leaves the other slots alone. */
    method DropRecord(length: nat)
      requires Valid() && view.held[0] != [] && length == |view.held[0][0]|
      modifies this`view, slots[r], slots[r].buf
      ensures Valid()
      ensures view == old(view).(held := old(view).held[0 := old(view).held[0][1..]])
    {
      FrontRest();
      DropFront(view);
      DropBytes(slots[r], HEADER + length, EncodeAll(view.held[0][1..]));
      view := view.(held := view.held[0 := view.held[0][1..]]);
      forall i | 0 <= i < SLOTS && i != r
        ensures SlotOk(i)
      {
        assert old(SlotOk(i)) && SameSlot(old(view), view, i);
      }
      assert SlotOk(r);
    }

    /** msgqueue_pop_msg. */
    method PopMsg() returns (ok: bool)
      requires Valid()
      modifies Repr
      ensures Valid() && fresh(Repr - old(Repr))
      ensures view == Rings.Pop(old(view)).0 && ok == Rings.Pop(old(view)).1
    {
      SettleFront();
      Front();
      var pbuf := slots[r];
      if pbuf.DataLen() < HEADER {
        return false;
      }
      FrontMessage();
      DropRecord(DecodeLength(pbuf.buf[pbuf.head..pbuf.tail]));
      return true;
    }

    /** Making room for n bytes in the write slot never moves anything. */
    method Prepare(n: nat) returns (ok: bool)
      requires Valid()
      modifies slots[w], slots[w].buf
      ensures Valid()
      ensures ok <==> Size(Last(view)) + n <= view.cap
      ensures forall i :: 0 <= i < SLOTS ==> slots[i].buf == old(slots[i].buf)
    {
      assert SlotOk(w) && Offset(view, w) == |view.held| - 1;
      ok := slots[w].WritePrepare(n);
      assert SlotOk(w);
      forall i | 0 <= i < SLOTS && i != w
        ensures SlotOk(i)
      {
        assert old(SlotOk(i)) && SameSlot(old(view), view, i);
      }
    }

    /** msgqueue_total_len. */
    method TotalLen(iov: seq<seq<byte>>) returns (length: nat)
      ensures length == |Flatten(iov)|
    {
      length := 0;
      for i := 0 to |iov|
        invariant length == |Flatten(iov[..i])|
      {
        FlattenNext(iov, i);
        length := length + |iov[i]|;
      }
      assert iov[..|iov|] == iov;
    }

    /** The end of msgqueue_push_msg, in the write slot. */
    method AppendRecord(iov: seq<seq<byte>>, length: nat)
      requires Valid() && length == |Flatten(iov)|
      requires Size(Last(view)) + HEADER + length <= view.cap
      modifies this`view, slots[w], slots[w].buf
      ensures Valid()
      ensures view == old(view).(held := old(view).held[|old(view).held| - 1 := Last(old(view)) + [Flatten(iov)]])
      ensures slots[w].buf == old(slots[w].buf)
    {
      ghost var m, ms := Flatten(iov), Last(view);
      BackSlot(view);
      assert SlotOk(w);
      WriteRecord(slots[w], length, iov, ms);
      AppendBack(view, m);
      view := view.(held := view.held[|view.held| - 1 := ms + [m]]);
      forall i | 0 <= i < SLOTS && i != w
        ensures SlotOk(i)
      {
        assert old(SlotOk(i)) && SameSlot(old(view), view, i);
      }
      assert SlotOk(w);
    }

    /** The redo loop of msgqueue_push_msg: it ends because every round allocates a slot. */
    method MakeRoom(n: nat, ghost m: Message) returns (ok: bool)
      requires Valid() && n == HEADER + |m|
      modifies Repr
      ensures Valid() && fresh(Repr - old(Repr))
      ensures ok <==> Size(Last(view)) + n <= view.cap
      ensures PushLoop(view, m) == PushLoop(old(view), m)
      ensures !ok ==> |view.held| == SLOTS
      ensures r == old(r) && slots[r].buf == old(slots[r].buf) && view.held[0] == old(view).held[0]
    {
      ok := Prepare(n);
      while !ok
        invariant Valid() && fresh(Repr - old(Repr))
        invariant ok <==> Size(Last(view)) + n <= view.cap
        invariant PushLoop(view, m) == PushLoop(old(view), m)
        invariant r == old(r) && slots[r].buf == old(slots[r].buf) && view.held[0] == old(view).held[0]
        decreases SLOTS - |view.held|
      {
        var more := WNext();
        if !more {
          return;
        }
        ok := Prepare(n);
      }
    }

    /** msgqueue_push_msg up to its callback. Whatever comes of it, the bytes that a peek returned
        stay where they are. */
    method PushMsg(iov: seq<seq<byte>>) returns (ok: bool)
      requires Valid() && |Flatten(iov)| < 0x8000_0000
      modifies Repr
      ensures Valid() && fresh(Repr - old(Repr))
      ensures view == Rings.Push(old(view), Flatten(iov)).0 && ok == Rings.Push(old(view), Flatten(iov)).1
      ensures r == old(r) && slots[r].buf == old(slots[r].buf) && old(FrontBytes()) <= FrontBytes()
    {
      var length := TotalLen(iov);
      if length > totalSize / SLOTS {
        return false;
      }
      ok := MakeRoom(HEADER + length, Flatten(iov));
      if ok {
        AppendRecord(iov, length);
        EncodeAllSnoc(old(view).held[0], Flatten(iov));
        assert view.held[0] == old(view).held[0] || view.held[0] == old(view).held[0] + [Flatten(iov)];
      }
    }
  }
}
