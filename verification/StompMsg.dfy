/**
 * The scanning loops of stomp/stomp_proto.c: each computes the function of Frames.dfy that bears
 * its meaning.
 */
module StompMsgs {
  import opened Bytes
  import opened Frames
  import opened Forwarding

  /** stomp_next_line for the `len - from` bytes from `from` on. */
  method NextLine(mem: seq<byte>, from: nat, len: nat) returns (r: Option<nat>)
    requires from <= len <= |mem|
    ensures r == NextStart(mem, from + 1, len)
  {
    var flag := false;
    for i := from to len
      invariant flag <==> from < i && IsEol(mem[i - 1])
      invariant NextStart(mem, from + 1, len) == NextStart(mem, if i == from then from + 1 else i, len)
    {
      if IsEol(mem[i]) {
        flag := true;
        continue;
      }
      if flag {
        return Some(i);
      }
    }
    return None;
  }

  /** stomp_is_header. */
  method IsHeaderLine(mem: seq<byte>, p: nat) returns (r: bool)
    ensures r <==> IsHeader(mem, p, HEADER_LEN_MAX)
  {
    for i := 0 to HEADER_LEN_MAX
      invariant IsHeader(mem, p, HEADER_LEN_MAX) <==> IsHeader(mem, p + i, HEADER_LEN_MAX - i)
    {
      if p + i >= |mem| || IsEol(mem[p + i]) || mem[p + i] == NUL {
        return false;
      }
      if mem[p + i] == COLON {
        return true;
      }
    }
    return false;
  }

  /** strchr. */
  method Strchr(mem: seq<byte>, from: nat, c: byte) returns (r: Option<nat>)
    requires from <= |mem|
    ensures r == FindChar(mem, from, c)
  {
    var i := from;
    while i < |mem| && mem[i] != c && mem[i] != NUL
      invariant from <= i <= |mem|
      invariant FindChar(mem, from, c) == FindChar(mem, i, c)
    {
      i := i + 1;
    }
    return if i < |mem| && mem[i] == c then Some(i) else None;
  }

  /** The colon that a matching key ends with is the one that strchr finds. */
  lemma {:induction false} ColonOfKey(mem: seq<byte>, h: nat, key: seq<byte>, i: nat)
    requires HasKey(mem, h, key) && i < |key|
    requires key[|key| - 1] == COLON && COLON !in key[..|key| - 1] && NUL !in key
    ensures FindChar(mem, h + i, COLON) == Some(h + |key| - 1)
    decreases |key| - i
  {
    assert mem[h + i] == mem[h..h + |key|][i] == key[i];
    if i < |key| - 1 {
      assert key[..|key| - 1][i] == key[i] && key[i] in key;
      ColonOfKey(mem, h, key, i + 1);
    }
  }

  /** What is still to be recorded when the scan stands at `p` with `k` entries left. */
  ghost function Rest(mem: seq<byte>, p: Option<nat>, len: nat, k: nat): Lines
    requires len <= |mem|
  {
    if p.None? then Lines([], None) else ParseFrom(mem, p.value, len, k)
  }

  lemma {:induction false} NextStartAgain(mem: seq<byte>, i: nat, len: nat)
    requires len <= |mem| && NextStart(mem, i, len).Some?
    ensures NextStart(mem, NextStart(mem, i, len).value, len) == NextStart(mem, i, len)
    decreases len - i
  {
    if !LineStart(mem, i) {
      NextStartAgain(mem, i + 1, len);
    }
  }

  lemma RestFrom(mem: seq<byte>, i: nat, len: nat, k: nat)
    requires len <= |mem|
    ensures Rest(mem, NextStart(mem, i, len), len, k) == ParseFrom(mem, i, len, k)
  {
    match NextStart(mem, i, len)
    case None =>
    case Some(s) =>
      NextStartAgain(mem, i, len);
  }

  function Join(hdrs: seq<nat>, rest: Lines): Lines {
    Lines(hdrs + rest.hdrs, rest.body)
  }

  /** The whole parse is what was recorded so far, and then what is still to come. */
  ghost predicate Remains(all: Lines, hdrs: seq<nat>, mem: seq<byte>, p: Option<nat>, len: nat, k: nat)
    requires len <= |mem|
  {
    all == Join(hdrs, Rest(mem, p, len, k))
  }

  lemma ParseStart(mem: seq<byte>, len: nat)
    requires len <= |mem|
    ensures Remains(Parse(mem, len), [], mem, NextStart(mem, 1, len), len, HEADERS_MAX)
  {
    RestFrom(mem, 1, len, HEADERS_MAX);
    assert Join([], Parse(mem, len)) == Parse(mem, len);
  }

  /** One round of stomp_parse_lines. */
  lemma ParseRound(all: Lines, hdrs: seq<nat>, mem: seq<byte>, p: nat, len: nat, k: nat)
    requires p < len <= |mem| && LineStart(mem, p) && Remains(all, hdrs, mem, Some(p), len, k)
    ensures var next := NextStart(mem, p + 1, len);
            if k == 0 then Remains(all, hdrs, mem, next, len, 0)
            else if IsHeader(mem, p, HEADER_LEN_MAX) then Remains(all, hdrs + [p], mem, next, len, k - 1)
            else all == Lines(hdrs, Some(p))
  {
    assert hdrs + [] == hdrs;
    if k > 0 {
      RestFrom(mem, p + 1, len, k - 1);
      ConcatAssoc(hdrs, [p], ParseFrom(mem, p + 1, len, k - 1).hdrs);
    }
  }

  lemma ParseEnd(all: Lines, hdrs: seq<nat>, mem: seq<byte>, len: nat, k: nat)
    requires len <= |mem| && Remains(all, hdrs, mem, None, len, k)
    ensures all == Lines(hdrs, None)
  {
    assert hdrs + [] == hdrs;
  }

  class StompMsg {
    /** sm_hdr, as offsets from sm_buf; NULL is None. */
    const hdr: array<Option<nat>>
    /** sm_body. */
    var body: Option<nat>

    ghost predicate Holds(lines: Lines)
      reads this, hdr
    {
      && hdr.Length == HEADERS_MAX && |lines.hdrs| <= HEADERS_MAX && body == lines.body
      && (forall i :: 0 <= i < |lines.hdrs| ==> hdr[i] == Some(lines.hdrs[i]))
      && (forall i :: |lines.hdrs| <= i < HEADERS_MAX ==> hdr[i] == None)
    }

    /** The memset of stomp_parse. */
    constructor ()
      ensures fresh(hdr) && Holds(Lines([], None))
    {
      hdr := new Option<nat>[HEADERS_MAX](_ => None);
      body := None;
    }

    method AddHeader(count: nat, p: nat, ghost hdrs: seq<nat>)
      requires count == |hdrs| < HEADERS_MAX && Holds(Lines(hdrs, None))
      modifies hdr
      ensures Holds(Lines(hdrs + [p], None))
    {
      hdr[count] := Some(p);
    }

    /** stomp_parse_lines. */
    method ParseLines(mem: seq<byte>, len: nat)
      requires len <= |mem| && Holds(Lines([], None))
      modifies this, hdr
      ensures Holds(Parse(mem, len))
    {
      ghost var hdrs: seq<nat>, all := [], Parse(mem, len);
      var count := 0;
      var p := NextLine(mem, 0, len);
      ParseStart(mem, len);
      while p.Some?
        invariant count == |hdrs| <= HEADERS_MAX && Holds(Lines(hdrs, None))
        invariant p.Some? ==> p.value < len && LineStart(mem, p.value)
        invariant Remains(all, hdrs, mem, p, len, HEADERS_MAX - count)
        decreases if p.Some? then len - p.value else 0
      {
        ParseRound(all, hdrs, mem, p.value, len, HEADERS_MAX - count);
        var next := NextLine(mem, p.value, len);
        if count < HEADERS_MAX {
          var isHeader := IsHeaderLine(mem, p.value);
          if !isHeader {
            body := p;
            return;
          }
          AddHeader(count, p.value, hdrs);
          count, hdrs := count + 1, hdrs + [p.value];
        }
        p := next;
      }
      ParseEnd(all, hdrs, mem, len, HEADERS_MAX - count);
    }

    /** stomp_find_header. */
    method Find(mem: seq<byte>, key: seq<byte>, ghost lines: Lines) returns (r: Option<nat>)
      requires Holds(lines)
      ensures r == FindHeader(mem, lines.hdrs, key)
    {
      var i := 0;
      while i < hdr.Length && hdr[i].Some?
        invariant 0 <= i <= |lines.hdrs|
        invariant FindHeader(mem, lines.hdrs, key) == FindHeader(mem, lines.hdrs[i..], key)
      {
        if HasKey(mem, hdr[i].value, key) {
          return hdr[i];
        }
        i := i + 1;
      }
      return None;
    }

    /** stomp_read_header. The bound that it tests is never counted down, so the caller's buffer has
        to be large enough for the value and its NUL. */
    method Read(mem: seq<byte>, key: seq<byte>, buf: array<byte>, ghost lines: Lines) returns (ok: bool, n: nat)
      requires Holds(lines) && buf.Length > 1
      requires key != [] && key[|key| - 1] == COLON && COLON !in key[..|key| - 1] && NUL !in key
      requires var v := HeaderValue(mem, lines.hdrs, key); v.Some? ==> |v.value| < buf.Length
      modifies buf
      ensures ok <==> HeaderValue(mem, lines.hdrs, key).Some?
      ensures ok ==> n < buf.Length && buf[n] == NUL && Some(buf[..n]) == HeaderValue(mem, lines.hdrs, key)
    {
      var h := Find(mem, key, lines);
      if h.None? {
        return false, 0;
      }
      ColonOfKey(mem, h.value, key, 0);
      var colon := Strchr(mem, h.value, COLON);
      var p := SkipSpace(mem, colon.value + 1);
      n := CopyLine(mem, p, buf);
      return true, n;
    }
  }

  /** The skipping loop of stomp_read_header. */
  method SkipSpace(mem: seq<byte>, start: nat) returns (p: nat)
    requires start <= |mem|
    ensures p == SkipSpaces(mem, start)
  {
    p := start;
    while p < |mem| && IsSpace(mem[p])
      invariant p <= |mem| && SkipSpaces(mem, start) == SkipSpaces(mem, p)
    {
      p := p + 1;
    }
  }

  /** The copying loop of stomp_read_header. */
  method CopyLine(mem: seq<byte>, start: nat, buf: array<byte>) returns (n: nat)
    requires start <= |mem| && buf.Length > 1 && LineEnd(mem, start) - start < buf.Length
    modifies buf
    ensures n < buf.Length && buf[n] == NUL && buf[..n] == mem[start..LineEnd(mem, start)]
  {
    n := 0;
    while start + n < |mem| && !IsEol(mem[start + n]) && mem[start + n] != NUL
      invariant start + n <= |mem| && LineEnd(mem, start) == LineEnd(mem, start + n)
      invariant n < buf.Length && buf[..n] == mem[start..start + n]
    {
      if buf.Length <= 1 {
        break;
      }
      buf[n] := mem[start + n];
      n := n + 1;
    }
    buf[n] := NUL;
  }

  /** stomp_msg_estimlen. */
  method MsgEstimLen(mem: seq<byte>, len: nat) returns (clen: int)
    requires len <= |mem|
    requires var v := HeaderValue(mem, Parse(mem, len).hdrs, CONTENT_LENGTH); v.Some? ==> |v.value| < 256
    ensures clen == EstimLen(mem, len)
  {
    var msg := new StompMsg();
    msg.ParseLines(mem, len);
    var buf := new byte[256];
    var ok, n := msg.Read(mem, CONTENT_LENGTH, buf, Parse(mem, len));
    if !ok {
      return -1;
    }
    var number := Number(buf[..n]);
    if number.None? || msg.body.None? {
      return -1;
    }
    return ToInt(number.value + msg.body.value + 1);
  }

  /** The end of stomp_msg_length. */
  method DelimitFrame(mem: seq<byte>, len: nat, clen: int) returns (r: int)
    requires len <= |mem|
    ensures r == Delimit(mem, len, clen)
  {
    if clen > 0 {
      if len >= clen {
        return if mem[clen - 1] != NUL then -1 else clen;
      }
    } else {
      for i := 0 to len
        invariant FirstNul(mem, 0, len) == FirstNul(mem, i, len)
      {
        if mem[i] == NUL {
          return i + 1;
        }
      }
    }
    return -1;
  }

  /** stomp_msg_length. */
  method MsgLen(mem: seq<byte>, len: nat) returns (r: int)
    requires len <= |mem|
    requires var v := HeaderValue(mem, Parse(mem, len).hdrs, CONTENT_LENGTH); v.Some? ==> |v.value| < 256
    ensures r == MsgLength(mem, len)
  {
    var clen := MsgEstimLen(mem, len);
    r := DelimitFrame(mem, len, clen);
  }

  function Later(r: Option<nat>, i: nat): Option<nat> {
    match r
    case None => None
    case Some(j) => Some(i + j)
  }

  lemma NextCommand(f: seq<byte>, table: seq<seq<byte>>, i: nat)
    requires i < |table|
    ensures Later(ParseCommand(f, table[i..]), i) ==
            if table[i] <= f then Some(i) else Later(ParseCommand(f, table[i + 1..]), i + 1)
  {
    assert table[i..][1..] == table[i + 1..];
  }

  /** stomp_parse_command, where strncmp stops at the first difference. */
  method FindCommand(f: seq<byte>, table: seq<seq<byte>>) returns (r: Option<nat>)
    ensures r == ParseCommand(f, table)
  {
    assert table[0..] == table;
    for i := 0 to |table|
      invariant ParseCommand(f, table) == Later(ParseCommand(f, table[i..]), i)
    {
      NextCommand(f, table, i);
      if |table[i]| > |f| {
        continue;
      }
      if table[i] <= f {
        return Some(i);
      }
    }
    return None;
  }
}
