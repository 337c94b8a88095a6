/** Length-prefixed records: how a ring slot lays out its messages in a buffer. */
module Records {
  import opened Bytes
  import opened Rings

  const LENGTH_LIMIT := 0x1_0000_0000

  /** The four bytes of mmh_len. */
  function EncodeLength(n: nat): (h: seq<byte>)
    ensures |h| == HEADER
  {
    [(n % 256) as byte, (n / 256 % 256) as byte, (n / 65536 % 256) as byte, (n / 16777216 % 256) as byte]
  }

  function DecodeLength(h: seq<byte>): nat
    requires |h| >= HEADER
  {
    h[0] as nat + 256 * h[1] as nat + 65536 * h[2] as nat + 16777216 * h[3] as nat
  }

  lemma LengthRoundTrip(n: nat, rest: seq<byte>)
    requires n < LENGTH_LIMIT
    ensures DecodeLength(EncodeLength(n) + rest) == n
  {
    var h := EncodeLength(n) + rest;
    assert h[0] == (n % 256) as byte && h[1] == (n / 256 % 256) as byte
           && h[2] == (n / 65536 % 256) as byte && h[3] == (n / 16777216 % 256) as byte;
    assert n / 65536 == n / 256 / 256 && n / 16777216 == n / 256 / 256 / 256;
  }

  function Encode(m: Message): seq<byte> {
    EncodeLength(|m|) + m
  }

  function EncodeAll(ms: seq<Message>): (r: seq<byte>)
    ensures |r| == Size(ms)
  {
    if ms == [] then [] else Encode(ms[0]) + EncodeAll(ms[1..])
  }

  lemma {:induction false} EncodeAllSnoc(ms: seq<Message>, m: Message)
    ensures EncodeAll(ms + [m]) == EncodeAll(ms) + Encode(m)
  {
    if ms == [] {
      assert [m][1..] == [];
      assert EncodeAll([m]) == Encode(m) + EncodeAll([]);
    } else {
      EncodeAllSnoc(ms[1..], m);
      assert (ms + [m])[1..] == ms[1..] + [m];
    }
  }

  /** What a reader finds at the front of a slot: first the length, then the message, then the
      other records. */
  lemma {:induction false} FirstRecord(ms: seq<Message>)
    requires ms != [] && |ms[0]| < LENGTH_LIMIT
    ensures |EncodeAll(ms)| >= HEADER + |ms[0]|
    ensures DecodeLength(EncodeAll(ms)) == |ms[0]|
    ensures EncodeAll(ms)[HEADER..HEADER + |ms[0]|] == ms[0]
    ensures EncodeAll(ms)[HEADER + |ms[0]|..] == EncodeAll(ms[1..])
  {
    LengthRoundTrip(|ms[0]|, ms[0] + EncodeAll(ms[1..]));
    assert EncodeAll(ms) == EncodeLength(|ms[0]|) + (ms[0] + EncodeAll(ms[1..]));
  }

  /** The bytes of a slot determine its messages, so the view of a queue is a function of memory. */
  lemma {:induction false} EncodeAllInjective(a: seq<Message>, b: seq<Message>)
    requires EncodeAll(a) == EncodeAll(b)
    requires forall m :: m in a || m in b ==> |m| < LENGTH_LIMIT
    ensures a == b
  {
    if a == [] || b == [] {
      assert |EncodeAll(a)| == 0;
    } else {
      FirstRecord(a);
      FirstRecord(b);
      EncodeAllInjective(a[1..], b[1..]);
      assert a == [a[0]] + a[1..] && b == [b[0]] + b[1..];
    }
  }

  lemma {:induction false} MessageFits(ms: seq<Message>, m: Message)
    requires m in ms
    ensures HEADER + |m| <= Size(ms)
  {
    if m != ms[0] {
      MessageFits(ms[1..], m);
    }
  }
}
