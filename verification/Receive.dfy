/**
 * The receive loop of libsf/sf_session.c for any protocol, and why the cutting of the stream does
 * not matter to it. The protocol is its pc_msg_length callback: from memory and the number of
 * bytes received to the length of the frame in front, or a number that is not positive.
 */
module Receiving {
  import opened Bytes
  import opened Pbufs

  type LengthFn = (seq<byte>, nat) -> int

  /** The callback claims no byte that was not received. */
  ghost predicate Bounded(msglen: LengthFn) {
    forall mem: seq<byte>, len: nat {:trigger msglen(mem, len)} :: len <= |mem| ==> msglen(mem, len) <= len
  }

  /** `f` is recognised whatever follows it, in every buffer whose length is an int. */
  ghost predicate Recognised(msglen: LengthFn, f: seq<byte>) {
    forall mem: seq<byte>, len: nat {:trigger msglen(mem, len)} ::
      f <= mem && |f| <= len <= |mem| && len <= INT_MAX ==> msglen(mem, len) == |f|
  }

  /** No frame is seen in front of `t`, whatever the buffer holds behind it. */
  ghost predicate Unrecognised(msglen: LengthFn, t: seq<byte>) {
    forall mem: seq<byte>, len: nat {:trigger msglen(mem, len)} :: t <= mem && |t| == len ==> msglen(mem, len) <= 0
  }

  /** `f` is recognised in every context, and no proper beginning of it is taken for a frame. */
  ghost predicate Delimits(msglen: LengthFn, f: seq<byte>) {
    && 0 < |f| <= INT_MAX && Recognised(msglen, f)
    && forall t {:trigger Unrecognised(msglen, t)} :: t < f ==> Unrecognised(msglen, t)
  }

  /** The frames taken from a buffer, and the buffer afterwards. */
  datatype Received = Received(frames: seq<seq<byte>>, mem: seq<byte>, len: nat)

  /** `len` bytes of `mem` after sf_pbuf_adjust drops `n` of them: the rest is moved to the front,
      and what it was moved from stays behind it. */
  function Adjusted(mem: seq<byte>, len: nat, n: nat): (r: seq<byte>)
    requires n <= len <= |mem|
    ensures |r| == |mem|
  {
    mem[n..len] + mem[len - n..]
  }

  /** sf_session_input. */
  function Receive(msglen: LengthFn, mem: seq<byte>, len: nat): (r: Received)
    requires Bounded(msglen) && len <= |mem|
    ensures r.len <= len && |r.mem| == |mem|
    decreases len
  {
    var n := msglen(mem, len);
    if n <= 0 then Received([], mem, len)
    else
      var r := Receive(msglen, Adjusted(mem, len, n), len - n);
      r.(frames := [mem[..n]] + r.frames)
  }

  /** The frames taken before, and then those of `r`. */
  function Behind(frames: seq<seq<byte>>, r: Received): Received {
    r.(frames := frames + r.frames)
  }

  lemma AppendNone(r: Received)
    ensures Behind([], r) == r && Behind(r.frames, r.(frames := [])) == r
  {
  }

  lemma AppendOne(frames: seq<seq<byte>>, f: seq<byte>, r: Received)
    ensures Behind(frames, r.(frames := [f] + r.frames)) == Behind(frames + [f], r)
  {
    ConcatAssoc(frames, [f], r.frames);
  }

  /** The loop over the socket's buffer, whose data is always in front. A handler that fails makes
      no difference to it, so the frames stand for the calls of the handler. */
  method SessionInput(msglen: LengthFn, pbuf: Pbuf) returns (frames: seq<seq<byte>>)
    requires Bounded(msglen) && pbuf.Valid() && pbuf.head == 0
    modifies pbuf, pbuf.buf
    ensures pbuf.Valid() && pbuf.head == 0 && pbuf.buf == old(pbuf.buf)
    ensures Received(frames, pbuf.buf[..], pbuf.tail) == Receive(msglen, old(pbuf.buf[..]), old(pbuf.tail))
  {
    frames := [];
    AppendNone(Receive(msglen, pbuf.buf[..], pbuf.tail));
    while true
      invariant pbuf.Valid() && pbuf.head == 0 && pbuf.buf == old(pbuf.buf)
      invariant Behind(frames, Receive(msglen, pbuf.buf[..], pbuf.tail)) ==
                Receive(msglen, old(pbuf.buf[..]), old(pbuf.tail))
      decreases pbuf.tail
    {
      ghost var mem, len := pbuf.buf[..], pbuf.tail;
      var n := msglen(pbuf.buf[..], pbuf.tail);
      if n <= 0 {
        AppendNone(Received(frames, mem, len));
        return;
      }
      var f := pbuf.buf[..n];
      pbuf.Adjust(n);
      assert pbuf.buf[..] == pbuf.buf[..pbuf.tail] + pbuf.buf[pbuf.tail..] == Adjusted(mem, len, n);
      AppendOne(frames, f, Receive(msglen, pbuf.buf[..], pbuf.tail));
      frames := frames + [f];
    }
  }

  lemma PrependFrame(f: seq<byte>, fs: seq<seq<byte>>, rest: seq<byte>)
    ensures Flatten([f] + fs) + rest == f + (Flatten(fs) + rest)
  {
    assert ([f] + fs)[1..] == fs;
    ConcatAssoc(f, Flatten(fs), rest);
  }

  /** Every frame was recognised in front of some buffer. */
  ghost predicate AllSeen(msglen: LengthFn, fs: seq<seq<byte>>) {
    forall f :: f in fs ==>
      exists mem: seq<byte>, len: nat :: f <= mem && |f| <= len <= |mem| && msglen(mem, len) == |f| > 0
  }

  lemma AdjustedParts(mem: seq<byte>, len: nat, n: nat)
    requires n <= len <= |mem|
    ensures mem[..len] == mem[..n] + Adjusted(mem, len, n)[..len - n]
    ensures Adjusted(mem, len, n)[..len - n] == mem[..len][n..]
  {
    assert Adjusted(mem, len, n)[..len - n] == mem[n..len];
  }

  lemma PrependSeen(msglen: LengthFn, f: seq<byte>, fs: seq<seq<byte>>, mem: seq<byte>, len: nat)
    requires f <= mem && |f| <= len <= |mem| && msglen(mem, len) == |f| > 0 && AllSeen(msglen, fs)
    ensures AllSeen(msglen, [f] + fs)
  {
  }

  /** For any buffer contents: what is consumed and what remains is the input, every consumed piece
      is a non-empty string that the protocol recognised, and the loop stops because nothing more
      is recognised. */
  lemma {:induction false} ReceivePartitions(msglen: LengthFn, mem: seq<byte>, len: nat)
    requires Bounded(msglen) && len <= |mem|
    ensures var r := Receive(msglen, mem, len);
            && Flatten(r.frames) + r.mem[..r.len] == mem[..len]
            && AllSeen(msglen, r.frames)
            && msglen(r.mem, r.len) <= 0
    decreases len
  {
    var n := msglen(mem, len);
    if n > 0 {
      var f, mem' := mem[..n], Adjusted(mem, len, n);
      var r' := Receive(msglen, mem', len - n);
      ReceivePartitions(msglen, mem', len - n);
      PrependFrame(f, r'.frames, r'.mem[..r'.len]);
      AdjustedParts(mem, len, n);
      PrependSeen(msglen, f, r'.frames, mem, len);
    }
  }

  // ---------------------------------------------------------------------------
  // Chunks
  // ---------------------------------------------------------------------------

  ghost predicate AllDelimited(msglen: LengthFn, fs: seq<seq<byte>>) {
    forall f :: f in fs ==> Delimits(msglen, f)
  }

  ghost predicate Takes(r: Received, fs: seq<seq<byte>>, t: seq<byte>) {
    r.frames == fs && r.len == |t| <= |r.mem| && r.mem[..r.len] == t
  }

  lemma PrependTaken(r: Received, f: seq<byte>, fs: seq<seq<byte>>, t: seq<byte>)
    requires fs != [] && f == fs[0] && Takes(r, fs[1..], t)
    ensures Takes(r.(frames := [f] + r.frames), fs, t)
  {
  }

  lemma FrontPart(mem: seq<byte>, len: nat, f: seq<byte>, rest: seq<byte>)
    requires len <= |mem| && mem[..len] == f + rest
    ensures f <= mem && mem[..|f|] == f && mem[..len][|f|..] == rest && len == |f| + |rest|
  {
    assert mem[..|f|] == mem[..len][..|f|];
  }

  /** Whole frames and the beginning of another in front: the loop takes exactly the frames. */
  lemma {:induction false} ReceiveFrames(msglen: LengthFn, fs: seq<seq<byte>>, t: seq<byte>, mem: seq<byte>, len: nat)
    requires Bounded(msglen) && AllDelimited(msglen, fs) && Unrecognised(msglen, t)
    requires len == |Flatten(fs)| + |t| <= |mem| && len <= INT_MAX && mem[..len] == Flatten(fs) + t
    ensures Takes(Receive(msglen, mem, len), fs, t)
    decreases |fs|
  {
    if fs == [] {
      assert mem[..len] == t;
    } else {
      var f, rest := fs[0], Flatten(fs[1..]) + t;
      assert f in fs && AllDelimited(msglen, fs[1..]);
      ConcatAssoc(f, Flatten(fs[1..]), t);
      FrontPart(mem, len, f, rest);
      AdjustedParts(mem, len, |f|);
      var mem' := Adjusted(mem, len, |f|);
      ReceiveFrames(msglen, fs[1..], t, mem', len - |f|);
      PrependTaken(Receive(msglen, mem', len - |f|), f, fs, t);
    }
  }

  /** One receive event: new bytes, and whatever the buffer holds behind them. */
  datatype Chunk = Chunk(bytes: seq<byte>, junk: seq<byte>)

  function Stream(cs: seq<Chunk>): seq<byte> {
    if cs == [] then [] else cs[0].bytes + Stream(cs[1..])
  }

  /** All frames dispatched over a sequence of receive events, and the unconsumed bytes, from a
      buffer that holds `t`. */
  function FeedAll(msglen: LengthFn, t: seq<byte>, cs: seq<Chunk>): (seq<seq<byte>>, seq<byte>)
    requires Bounded(msglen)
    decreases |cs|
  {
    if cs == [] then ([], t)
    else
      var data := t + cs[0].bytes;
      var r := Receive(msglen, data + cs[0].junk, |data|);
      var (fs, rest) := FeedAll(msglen, r.mem[..r.len], cs[1..]);
      (r.frames + fs, rest)
  }

  /** The buffer never holds more bytes than an int counts. */
  ghost predicate Fits(msglen: LengthFn, t: seq<byte>, cs: seq<Chunk>)
    requires Bounded(msglen)
    decreases |cs|
  {
    cs != [] ==>
      var data := t + cs[0].bytes;
      var r := Receive(msglen, data + cs[0].junk, |data|);
      |data| <= INT_MAX && Fits(msglen, r.mem[..r.len], cs[1..])
  }

  /** A beginning of a stream of frames is some frames and the beginning of the next. */
  lemma {:induction false} CutStream(fs: seq<seq<byte>>, tail: seq<byte>, d: seq<byte>) returns (i: nat, t: seq<byte>)
    requires d <= Flatten(fs) + tail
    ensures i <= |fs| && d == Flatten(fs[..i]) + t
    ensures if i < |fs| then t < fs[i] else t <= tail
    decreases |fs|
  {
    if fs == [] {
      i, t := 0, d;
      assert Flatten(fs) + tail == tail;
    } else if |d| < |fs[0]| {
      i, t := 0, d;
      assert Flatten(fs) + tail == fs[0] + (Flatten(fs[1..]) + tail);
      assert d < fs[0];
    } else {
      var f := fs[0];
      assert Flatten(fs) + tail == f + (Flatten(fs[1..]) + tail);
      assert d == f + d[|f|..];
      var i', t' := CutStream(fs[1..], tail, d[|f|..]);
      i, t := i' + 1, t';
      assert fs[..i] == [f] + fs[1..][..i'];
    }
  }

  /** The beginning of a frame, without its end. */
  ghost predicate Unfinished(msglen: LengthFn, t: seq<byte>) {
    forall t' {:trigger Unrecognised(msglen, t')} :: t' <= t ==> Unrecognised(msglen, t')
  }

  lemma RestOfStream(taken: seq<seq<byte>>, left: seq<seq<byte>>, t: seq<byte>, tail: seq<byte>, more: seq<byte>)
    requires Flatten(taken) + t + more == Flatten(taken + left) + tail
    ensures t + more == Flatten(left) + tail
  {
    FlattenConcat(taken, left);
    var x := Flatten(taken);
    assert x + t + more == x + (t + more);
    assert x + Flatten(left) + tail == x + (Flatten(left) + tail);
    assert (x + (t + more))[|x|..] == t + more;
    assert (x + (Flatten(left) + tail))[|x|..] == Flatten(left) + tail;
  }

  lemma {:induction false} FeedFrom(msglen: LengthFn, t: seq<byte>, fs: seq<seq<byte>>, tail: seq<byte>, cs: seq<Chunk>)
    requires Bounded(msglen) && AllDelimited(msglen, fs) && Unfinished(msglen, tail) && Fits(msglen, t, cs)
    requires t + Stream(cs) == Flatten(fs) + tail
    requires if fs != [] then t < fs[0] else t <= tail
    ensures FeedAll(msglen, t, cs) == (fs, tail)
    decreases |cs|
  {
    if cs == [] {
      assert t + Stream(cs) == t;
      assert fs == [] ==> Flatten(fs) + tail == tail;
    } else {
      var c := cs[0];
      var data := t + c.bytes;
      assert t + Stream(cs) == data + Stream(cs[1..]);
      var i, t' := CutStream(fs, tail, data);
      var taken, left := fs[..i], fs[i..];
      assert fs == taken + left;
      assert AllDelimited(msglen, taken) && AllDelimited(msglen, left);
      assert Unrecognised(msglen, t') by {
        if i < |fs| {
          assert fs[i] in fs;
        }
      }
      assert (data + c.junk)[..|data|] == data;
      ReceiveFrames(msglen, taken, t', data + c.junk, |data|);
      RestOfStream(taken, left, t', tail, Stream(cs[1..]));
      FeedFrom(msglen, t', left, tail, cs[1..]);
    }
  }

  /** However a stream of frames is cut into chunks, and whatever the buffer holds behind the bytes
      received so far, the loop dispatches exactly the frames, in order, and keeps the rest. */
  lemma ChunkingIndependence(msglen: LengthFn, fs: seq<seq<byte>>, tail: seq<byte>, cs: seq<Chunk>)
    requires Bounded(msglen) && AllDelimited(msglen, fs) && Unfinished(msglen, tail) && Fits(msglen, [], cs)
    requires Stream(cs) == Flatten(fs) + tail
    ensures FeedAll(msglen, [], cs) == (fs, tail)
  {
    assert [] + Stream(cs) == Stream(cs);
    assert fs != [] ==> fs[0] in fs;
    FeedFrom(msglen, [], fs, tail, cs);
  }
}
