/**
 * The sliding byte buffer of libsf/sf_pbuf.c. Pointers into pb_buf become offsets; a buffer of no
 * bytes stands for pb_buf == NULL.
 */
module Pbufs {
  import opened Bytes

  class Pbuf {
    var buf: array<byte>
    var head: nat
    var tail: nat

    ghost predicate Valid()
      reads this
    {
      head <= tail <= buf.Length
    }

    /** The bytes that the buffer holds. */
    ghost function Contents(): seq<byte>
      requires Valid()
      reads this, buf
    {
      buf[head..tail]
    }

    /** sf_pbuf_init on a new buffer. */
    constructor (len: nat)
      ensures Valid() && fresh(buf) && buf.Length == len
      ensures head == 0 && Contents() == []
    {
      buf := new byte[len];
      head, tail := 0, 0;
    }

    /** sf_pbuf_init on a buffer that was released before. */
    method Init(len: nat)
      modifies this
      ensures Valid() && fresh(buf) && buf.Length == len
      ensures head == 0 && Contents() == []
    {
      buf := new byte[len];
      head, tail := 0, 0;
    }

    /** sf_pbuf_release. */
    method Release()
      modifies this
      ensures Valid() && fresh(buf) && buf.Length == 0
      ensures head == 0 && Contents() == []
    {
      Init(0);
    }

    function BufferLen(): nat
      reads this
    {
      buf.Length
    }

    function DataLen(): (n: nat)
      requires Valid()
      reads this, buf
      ensures n == |Contents()|
    {
      tail - head
    }

    function FreeLen(): (n: nat)
      requires Valid()
      reads this, buf
      ensures n + |Contents()| == buf.Length
    {
      BufferLen() - DataLen()
    }

    /** pbuf_relocate: the data moves to the front (memmove copies as if all bytes were read
        first), and the bytes behind the moved data stay as they were. */
    method Relocate()
      requires Valid()
      modifies this, buf
      ensures Valid() && buf == old(buf) && head == 0
      ensures Contents() == old(Contents())
      ensures buf[tail..] == old(buf[tail - head..])
    {
      if head == 0 {
        return;
      }
      var n := DataLen();
      if n > 0 {
        forall i | 0 <= i < n {
          buf[i] := buf[head + i];
        }
      }
      head, tail := 0, n;
      assert forall i :: 0 <= i < n ==> buf[i] == old(buf[head + i]);
    }

    /** sf_pbuf_adjust: drops a prefix, or nothing when there is less data than that. */
    method Adjust(n: nat)
      requires Valid()
      modifies this, buf
      ensures Valid() && buf == old(buf) && head == 0
      ensures Contents() == if n <= |old(Contents())| then old(Contents())[n..] else old(Contents())
      ensures buf[tail..] ==
              old(buf[if n <= tail - head then tail - head - n else tail - head..])
    {
      if DataLen() >= n {
        head := head + n;
      }
      Relocate();
    }

    /** sf_pbuf_write_prepare: succeeds exactly when `n` bytes are free, and moves data only when
        they are not all behind it. */
    method WritePrepare(n: nat) returns (ok: bool)
      requires Valid()
      modifies this, buf
      ensures Valid() && buf == old(buf) && Contents() == old(Contents())
      ensures ok <==> n <= old(FreeLen())
      ensures ok ==> tail + n <= buf.Length
      ensures old(head) == 0 ==> head == 0 && tail == old(tail) && buf[..] == old(buf[..])
    {
      if FreeLen() < n {
        return false;
      }
      if buf.Length - tail < n {
        Relocate();
      }
      return true;
    }

    /** The memcpy of sf_pbuf_write. */
    method Append(data: seq<byte>)
      requires Valid() && tail + |data| <= buf.Length
      modifies this`tail, buf
      ensures Valid() && Contents() == old(Contents()) + data
    {
      var t := tail;
      forall i | 0 <= i < |data| {
        buf[t + i] := data[i];
      }
      tail := t + |data|;
      assert buf[head..t] == old(buf[head..t]);
      assert buf[t..tail] == data;
      assert buf[head..tail] == buf[head..t] + buf[t..tail];
    }

    /** sf_pbuf_write: appends everything or changes nothing, and succeeds exactly when there is
        room; a buffer with its data in front does not move it. */
    method Write(data: seq<byte>) returns (ok: bool)
      requires Valid()
      modifies this, buf
      ensures Valid() && buf == old(buf)
      ensures ok <==> |data| <= old(FreeLen())
      ensures Contents() == if ok then old(Contents()) + data else old(Contents())
      ensures old(head) == 0 ==> head == 0
    {
      ok := WritePrepare(|data|);
      if ok {
        Append(data);
      }
    }

    /** sf_pbuf_resize copies from pb_buf, not from pb_head; memcpy needs the new buffer to be large
        enough. The contents survive when the data is in front. */
    method Resize(len: nat)
      requires Valid() && tail - head <= len
      modifies this
      ensures Valid() && fresh(buf) && buf.Length == len && head == 0
      ensures Contents() == old(buf[..tail - head])
      ensures old(head) == 0 ==> Contents() == old(Contents())
    {
      var n := tail - head;
      var p := new byte[len];
      forall i | 0 <= i < n {
        p[i] := buf[i];
      }
      buf, head, tail := p, 0, n;
      assert Contents() == old(buf[..tail - head]);
    }
  }
}
