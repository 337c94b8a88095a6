/**
 * The sending half of stomp_data_t (stomp/stomp_subr.c): the session keeps a pointer into the
 * buffers of its message queue across partial sends and across pushes.
 */
module StompDatas {
  import opened Bytes
  import opened Rings
  import opened Records
  import opened MsgQueues
  import Senders

  /** sf_send: takes some of the bytes offered, or fails. */
  method Send(n: int, buf: array<byte>, offset: nat, length: nat) returns (k: int)
    requires offset + length <= buf.Length
    ensures k == Senders.SendResult(n, length)
  {
    k := Senders.SendResult(n, length);
  }

  class StompData {
    var msgq: MsgQueue?
    /** ss_sbuf is the byte at index `soff` of `sbuf`. */
    var sbuf: array?<byte>
    var soff: nat
    var slen: nat
    /** Everything that sf_send has taken from the present queue. */
    ghost var sent: seq<byte>
    /** The pending bytes belong to a queue that was destroyed. */
    ghost var stale: bool
    ghost var Repr: set<object>

    /** ss_sbuf and ss_slen describe the end of the first message, inside the front buffer. */
    ghost predicate PointsIntoFront(mq: MsgQueue)
      requires mq.Valid()
      reads this, mq, mq.Repr
    {
      && mq.view.held[0] != [] && sbuf == mq.slots[mq.r].buf
      && slen <= |mq.view.held[0][0]| && soff + slen == HEADER + |mq.view.held[0][0]|
    }

    ghost predicate Valid()
      reads this, Repr
      ensures Valid() ==> this in Repr
    {
      && this in Repr && (stale ==> slen > 0)
      && (msgq == null ==> slen == 0 || stale)
      && (msgq != null ==>
            && msgq in Repr && msgq.Repr <= Repr && this !in msgq.Repr && msgq.Valid()
            && (slen > 0 && !stale ==> PointsIntoFront(msgq)))
    }

    ghost function View(): (s: Senders.Sender)
      requires Valid() && msgq != null && !stale
      reads this, Repr
      ensures Senders.Consistent(s)
    {
      Senders.Sender(msgq.view, slen, sent)
    }

    /** The calloc of stomp_create_session. */
    constructor ()
      ensures Valid() && fresh(Repr) && msgq == null && slen == 0
    {
      msgq := null;
      sbuf, soff, slen := null, 0, 0;
      sent, stale := [], false;
      Repr := {this};
    }

    /** The queue that stomp_subscribe creates. */
    method CreateQueue(queueSize: nat)
      requires Valid() && msgq == null && SLOTS <= queueSize && queueSize / SLOTS < LENGTH_LIMIT
      modifies this
      ensures Valid() && fresh(Repr - old(Repr)) && msgq != null && fresh(msgq) && msgq.view == Rings.Create(queueSize)
      ensures slen == old(slen) && sbuf == old(sbuf) && soff == old(soff) && stale == old(stale) && sent == []
    {
      var mq := new MsgQueue(queueSize);
      msgq := mq;
      sent := [];
      Repr := Repr + mq.Repr;
    }

    /** msgqueue_destroy with `ss->ss_msgq = NULL`: ss_sbuf and ss_slen stay. */
    method DestroyQueue()
      requires Valid() && msgq != null
      modifies this
      ensures Valid() && Repr == old(Repr) && msgq == null
      ensures slen == old(slen) && sbuf == old(sbuf) && soff == old(soff) && (stale <==> slen > 0)
    {
      msgq := null;
      stale := slen > 0;
    }

    /** The bytes in memory at ss_sbuf are the pending bytes. */
    lemma PointsAtPending()
      requires Valid() && msgq != null && slen > 0 && !stale
      ensures sbuf != null && soff + slen <= sbuf.Length
      ensures sbuf[soff..soff + slen] == Senders.Pending(View())
    {
      msgq.FrontMessage();
      var m, i := msgq.view.held[0][0], soff - HEADER;
      assert sbuf[HEADER..HEADER + |m|] == sbuf[..][HEADER..HEADER + |m|];
      assert sbuf[soff..soff + slen] == sbuf[..][HEADER + i..HEADER + |m|] == m[i..];
    }

    /** The first half of stomp_send_resume: the first message becomes the pending one. */
    method PeekNext() returns (ok: bool)
      requires Valid() && msgq != null && slen == 0
      modifies Repr
      ensures Valid() && msgq == old(msgq) && fresh(Repr - old(Repr)) && !stale && sent == old(sent)
      ensures msgq.view == Rings.Peek(old(msgq.view)).0
      ensures var top := Rings.Peek(old(msgq.view)).1;
              ok == top.Some? && slen == if ok then |top.value| else 0
    {
      var found, buf, offset, length := msgq.Peek();
      Repr := Repr + msgq.Repr;
      if found {
        sbuf, soff, slen := buf, offset, length;
      }
      return found;
    }

    /** The second half of stomp_send_resume. */
    method SendRest(n: int) returns (rc: int)
      requires Valid() && msgq != null && slen > 0 && !stale
      modifies Repr
      ensures Valid() && msgq == old(msgq) && fresh(Repr - old(Repr)) && !stale
      ensures View() == Senders.SendPending(old(View()), n).0
      ensures rc == Senders.SendPending(old(View()), n).1
    {
      PointsAtPending();
      var k := Send(n, sbuf, soff, slen);
      if k < 0 {
        return -1;
      }
      assert sbuf[soff..soff + k] == sbuf[soff..soff + slen][..k];
      sent := sent + sbuf[soff..soff + k];
      soff, slen := soff + k, slen - k;
      if slen == 0 {
        var _ := msgq.PopMsg();
        Repr := Repr + msgq.Repr;
      }
      return 0;
    }

    /** stomp_send_resume; `n` is what send() returns if it is called. */
    method SendResume(n: int) returns (rc: int)
      requires Valid() && (msgq != null ==> !stale)
      modifies Repr
      ensures Valid() && msgq == old(msgq) && fresh(Repr - old(Repr)) && stale == old(stale)
      ensures msgq == null ==> rc == -1 && sent == old(sent) && slen == old(slen)
      ensures msgq != null ==> View() == Senders.SendResume(old(View()), n).0
                               && rc == Senders.SendResume(old(View()), n).1
    {
      if msgq == null {
        return -1;
      }
      if slen == 0 {
        var ok := PeekNext();
        if !ok {
          return 0;
        }
      }
      if slen > 0 {
        rc := SendRest(n);
        return rc;
      }
      return 0;
    }

    /** msgqueue_push_msg on the session's queue, with the callback stomp_push_notify. A push that is
        accepted sends; one that is refused only concerns the ring. */
    method Deliver(iov: seq<seq<byte>>, n: int) returns (ok: bool)
      requires Valid() && msgq != null && |Flatten(iov)| < 0x8000_0000
      requires stale ==> !Push(msgq.view, Flatten(iov)).1
      modifies Repr
      ensures Valid() && msgq == old(msgq) && fresh(Repr - old(Repr)) && stale == old(stale)
      ensures ok == Push(old(msgq.view), Flatten(iov)).1
      ensures !ok ==> sbuf == old(sbuf) && soff == old(soff)
      ensures !stale ==> View() == Senders.Deliver(old(View()), Flatten(iov), n).0
      ensures stale ==> msgq.view == Push(old(msgq.view), Flatten(iov)).0 && slen == old(slen) && sent == old(sent)
    {
      PushKeepsFront(msgq.view, Flatten(iov));
      ok := msgq.PushMsg(iov);
      Repr := Repr + msgq.Repr;
      if ok {
        var _ := SendResume(n);
      }
    }
  }
}
