/**
 * What stomp_connected_send makes of a SEND frame, and when the result is a frame again: a new
 * command line and a message-id, then everything behind the first line feed.
 */
module Forwarding {
  import opened Bytes
  import opened Frames
  import opened Framing

  /** "MESSAGE\n" and "message-id:". */
  const MESSAGE: seq<byte> := [77, 69, 83, 83, 65, 71, 69, 10]
  const MESSAGE_ID: seq<byte> := [109, 101, 115, 115, 97, 103, 101, 45, 105, 100, 58]

  /** %u. */
  function Digits(n: nat): (d: seq<byte>)
    ensures d != [] && forall b :: b in d ==> IsDigit(b)
  {
    if n < 10 then [(48 + n) as byte] else Digits(n / 10) + [(48 + n % 10) as byte]
  }

  lemma {:induction false} DigitsRoundTrip(n: nat)
    ensures Decimal(Digits(n)) == n
  {
    var d := Digits(n);
    if n < 10 {
      assert d[..|d| - 1] == [];
    } else {
      assert d[..|d| - 1] == Digits(n / 10);
      DigitsRoundTrip(n / 10);
    }
  }

  /** No leading zeros: together with the number that reads back this is all there is to say. */
  lemma {:induction false} NoLeadingZero(n: nat)
    ensures if n == 0 then Digits(n) == [48] else Digits(n)[0] != 48
    decreases n
  {
    if n >= 10 {
      NoLeadingZero(n / 10);
    }
  }

  function TenTo(k: nat): nat {
    if k == 0 then 1 else 10 * TenTo(k - 1)
  }

  lemma {:induction false} DigitsLength(n: nat, k: nat)
    requires 0 < k && n < TenTo(k)
    ensures |Digits(n)| <= k
  {
    if n >= 10 {
      assert k > 1 && n / 10 < TenTo(k - 1);
      DigitsLength(n / 10, k - 1);
    }
  }

  /** stomp_make_message. */
  function MessageHeader(id: nat): (h: seq<byte>)
    ensures |h| >= 21
  {
    MESSAGE + MESSAGE_ID + Digits(id) + [LF]
  }

  /** stomp_skip_command: behind the first line feed, which must come before any NUL. */
  function SkipCommand(f: seq<byte>): (c: Option<nat>)
    ensures c.Some? ==> 0 < c.value <= |f| && f[c.value - 1] == LF
                        && forall j :: 0 <= j < c.value ==> f[j] != NUL
  {
    match FindChar(f, 0, LF)
    case None => None
    case Some(p) => Some(p + 1)
  }

  /** The message that is enqueued. */
  function Forwarded(f: seq<byte>, id: nat): Option<seq<byte>> {
    match SkipCommand(f)
    case None => None
    case Some(c) => Some(MessageHeader(id) + f[c..])
  }

  /** A message is longer than its frame by less than thirty bytes. */
  lemma MessageLength(f: seq<byte>, id: nat)
    requires id < WORD && SkipCommand(f).Some?
    ensures |MessageHeader(id)| <= 30 && 0 < |Forwarded(f, id).value| < |f| + 30
  {
    assert TenTo(10) == 10000000000;
    DigitsLength(id, 10);
  }

  // ---------------------------------------------------------------------------
  // Lines behind different beginnings
  // ---------------------------------------------------------------------------

  /** From `x` in one memory and from `y` in the other the bytes are the same, and both places
      follow a line feed. */
  ghost predicate SameBehind(a: seq<byte>, x: nat, b: seq<byte>, y: nat) {
    && 0 < x <= |a| && 0 < y <= |b| && a[x..] == b[y..]
    && a[x - 1] == LF && b[y - 1] == LF
  }

  lemma SameAt(a: seq<byte>, x: nat, b: seq<byte>, y: nat, j: nat)
    requires SameBehind(a, x, b, y) && x + j < |a|
    ensures |a| - x == |b| - y && a[x + j] == b[y + j] && a[x + j - 1] == b[y + j - 1]
  {
    assert |a[x..]| == |b[y..]|;
    assert a[x + j] == a[x..][j] == b[y..][j] == b[y + j];
    if j > 0 {
      assert a[x + j - 1] == a[x..][j - 1] == b[y..][j - 1] == b[y + j - 1];
    }
  }

  lemma SameSlice(a: seq<byte>, x: nat, b: seq<byte>, y: nat, lo: nat, hi: nat)
    requires SameBehind(a, x, b, y) && lo <= hi && x + hi <= |a|
    ensures y + hi <= |b| && a[x + lo..x + hi] == b[y + lo..y + hi]
  {
    assert |a[x..]| == |b[y..]|;
    SliceOfTail(a, x, lo, hi);
    SliceOfTail(b, y, lo, hi);
  }

  /** The same position, counted from `x` and from `y`. */
  ghost predicate SamePlace(p: Option<nat>, x: nat, q: Option<nat>, y: nat) {
    if p.Some? then q.Some? && p.value - x == q.value - y else q.None?
  }

  lemma {:induction false} ShiftNextStart(a: seq<byte>, x: nat, b: seq<byte>, y: nat, j: nat)
    requires SameBehind(a, x, b, y)
    ensures SamePlace(NextStart(a, x + j, |a|), x, NextStart(b, y + j, |b|), y)
    decreases |a| - (x + j)
  {
    assert |a[x..]| == |b[y..]|;
    if x + j < |a| {
      SameAt(a, x, b, y, j);
      ShiftNextStart(a, x, b, y, j + 1);
    }
  }

  lemma {:induction false} ShiftHeader(a: seq<byte>, x: nat, b: seq<byte>, y: nat, j: nat, n: nat)
    requires SameBehind(a, x, b, y)
    ensures IsHeader(a, x + j, n) == IsHeader(b, y + j, n)
    decreases n
  {
    assert |a[x..]| == |b[y..]|;
    if 0 < n && x + j < |a| {
      SameAt(a, x, b, y, j);
      ShiftHeader(a, x, b, y, j + 1, n - 1);
    }
  }

  ghost predicate SameHeaders(p: seq<nat>, x: nat, q: seq<nat>, y: nat) {
    |p| == |q| && forall i :: 0 <= i < |p| ==> p[i] - x == q[i] - y >= 0
  }

  lemma ConsHeaders(p: seq<nat>, x: nat, q: seq<nat>, y: nat, s: nat, t: nat)
    requires SameHeaders(p, x, q, y) && s - x == t - y >= 0
    ensures SameHeaders([s] + p, x, [t] + q, y)
  {
  }

  lemma {:induction false} ShiftParse(a: seq<byte>, x: nat, b: seq<byte>, y: nat, j: nat, k: nat)
    requires SameBehind(a, x, b, y)
    ensures var p, q := ParseFrom(a, x + j, |a|, k), ParseFrom(b, y + j, |b|, k);
            SameHeaders(p.hdrs, x, q.hdrs, y) && SamePlace(p.body, x, q.body, y)
    decreases k
  {
    ShiftNextStart(a, x, b, y, j);
    var s, t := NextStart(a, x + j, |a|), NextStart(b, y + j, |b|);
    if s.Some? && k > 0 {
      var i := s.value - x;
      ShiftHeader(a, x, b, y, i, HEADER_LEN_MAX);
      if IsHeader(a, s.value, HEADER_LEN_MAX) {
        ShiftParse(a, x, b, y, i + 1, k - 1);
        var p, q := ParseFrom(a, s.value + 1, |a|, k - 1), ParseFrom(b, t.value + 1, |b|, k - 1);
        ConsHeaders(p.hdrs, x, q.hdrs, y, s.value, t.value);
      }
    }
  }

  lemma {:induction false} ShiftSpaces(a: seq<byte>, x: nat, b: seq<byte>, y: nat, j: nat)
    requires SameBehind(a, x, b, y) && x + j <= |a|
    ensures y + j <= |b| && SkipSpaces(a, x + j) - x == SkipSpaces(b, y + j) - y
    decreases |a| - (x + j)
  {
    assert |a[x..]| == |b[y..]|;
    if x + j < |a| {
      SameAt(a, x, b, y, j);
      ShiftSpaces(a, x, b, y, j + 1);
    }
  }

  lemma {:induction false} ShiftLineEnd(a: seq<byte>, x: nat, b: seq<byte>, y: nat, j: nat)
    requires SameBehind(a, x, b, y) && x + j <= |a|
    ensures y + j <= |b| && LineEnd(a, x + j) - x == LineEnd(b, y + j) - y
    decreases |a| - (x + j)
  {
    assert |a[x..]| == |b[y..]|;
    if x + j < |a| {
      SameAt(a, x, b, y, j);
      ShiftLineEnd(a, x, b, y, j + 1);
    }
  }

  lemma ShiftKey(a: seq<byte>, x: nat, b: seq<byte>, y: nat, j: nat, key: seq<byte>)
    requires SameBehind(a, x, b, y)
    ensures HasKey(a, x + j, key) == HasKey(b, y + j, key)
  {
    assert |a[x..]| == |b[y..]|;
    if x + j + |key| <= |a| {
      SameSlice(a, x, b, y, j, j + |key|);
    }
  }

  lemma ShiftText(a: seq<byte>, x: nat, b: seq<byte>, y: nat, j: nat)
    requires SameBehind(a, x, b, y) && x + j <= |a|
    ensures y + j <= |b| && LineText(a, x + j) == LineText(b, y + j)
  {
    ShiftSpaces(a, x, b, y, j);
    var s := SkipSpaces(a, x + j) - x;
    ShiftLineEnd(a, x, b, y, s);
    SameSlice(a, x, b, y, s, LineEnd(a, x + s) - x);
  }

  lemma SameTail(p: seq<nat>, x: nat, q: seq<nat>, y: nat)
    requires SameHeaders(p, x, q, y) && p != []
    ensures SameHeaders(p[1..], x, q[1..], y)
  {
  }

  lemma {:induction false} ShiftFind(a: seq<byte>, x: nat, b: seq<byte>, y: nat, p: seq<nat>, q: seq<nat>,
                                     key: seq<byte>)
    requires SameBehind(a, x, b, y) && SameHeaders(p, x, q, y)
    ensures var m, n := FindHeader(a, p, key), FindHeader(b, q, key);
            SamePlace(m, x, n, y) && (m.Some? ==> x <= m.value)
    decreases |p|
  {
    if p != [] {
      assert p[0] - x == q[0] - y >= 0;
      ShiftKey(a, x, b, y, p[0] - x, key);
      SameTail(p, x, q, y);
      ShiftFind(a, x, b, y, p[1..], q[1..], key);
    }
  }

  lemma ShiftHeaderValue(a: seq<byte>, x: nat, b: seq<byte>, y: nat, p: seq<nat>, q: seq<nat>, key: seq<byte>)
    requires SameBehind(a, x, b, y) && SameHeaders(p, x, q, y)
    ensures HeaderValue(a, p, key) == HeaderValue(b, q, key)
  {
    ShiftFind(a, x, b, y, p, q, key);
    var m := FindHeader(a, p, key);
    if m.Some? {
      ShiftText(a, x, b, y, m.value - x + |key|);
    }
  }

  // ---------------------------------------------------------------------------
  // The lines of a forwarded frame
  // ---------------------------------------------------------------------------

  /** At `p` memory has the line `line`, a line feed, and then `rest`. */
  ghost predicate LineAt(mem: seq<byte>, p: nat, line: seq<byte>, rest: seq<byte>) {
    p <= |mem| && mem[p..] == line + [LF] + rest
  }

  lemma LineParts(mem: seq<byte>, p: nat, line: seq<byte>, rest: seq<byte>)
    requires LineAt(mem, p, line, rest)
    ensures |mem| == p + |line| + 1 + |rest| && mem[p..p + |line|] == line && mem[p + |line|] == LF
    ensures mem[p + |line| + 1..] == rest
    ensures forall j :: 0 <= j < |line| ==> mem[p + j] == line[j]
  {
    var m := mem[p..];
    SliceOfTail(mem, p, 0, |line|);
    SliceOfTail(mem, p, |line| + 1, |m|);
    assert m[0..|line|] == line && m[|line|] == LF && m[|line| + 1..|m|] == rest;
    assert forall j :: 0 <= j < |line| ==> m[j] == line[j];
  }

  lemma KeyOfLine(mem: seq<byte>, p: nat, h: seq<byte>, rest: seq<byte>, key: seq<byte>)
    requires LineAt(mem, p, h, rest) && LF !in key
    ensures HasKey(mem, p, key) <==> key <= h
  {
    LineParts(mem, p, h, rest);
    if |key| <= |h| {
      assert mem[p..p + |key|] == mem[p..p + |h|][..|key|] == h[..|key|];
    } else if p + |key| <= |mem| {
      assert mem[p..p + |key|][|h|] == LF;
      assert key[|h|] in key;
    }
  }

  /** The command line ends in a line feed (or in CR LF): no header line starts before it. */
  predicate CommandLineEnds(f: seq<byte>, c: nat) {
    var s := NextStart(f, 1, |f|);
    SkipCommand(f) == Some(c) && (s.Some? ==> c <= s.value)
  }

  /** One header entry less: the last one is lost, and with it the place of the body. */
  lemma {:induction false} ParseBudget(mem: seq<byte>, i: nat, len: nat, k: nat)
    requires len <= |mem| && 0 < k
    ensures var a := ParseFrom(mem, i, len, k);
            ParseFrom(mem, i, len, k - 1) ==
            (if |a.hdrs| < k - 1 then a else Lines(a.hdrs[..k - 1], None))
    decreases k
  {
    match NextStart(mem, i, len)
    case None =>
    case Some(s) =>
      if k > 1 && IsHeader(mem, s, HEADER_LEN_MAX) {
        ParseBudget(mem, s + 1, len, k - 1);
        var b := ParseFrom(mem, s + 1, len, k - 1);
        if |b.hdrs| >= k - 2 {
          assert ([s] + b.hdrs)[..k - 1] == [s] + b.hdrs[..k - 2];
        }
      }
  }

  lemma {:induction false} NextStartLater(mem: seq<byte>, i: nat, q: nat, len: nat)
    requires i <= q && len <= |mem|
    requires NextStart(mem, i, len).Some? ==> q <= NextStart(mem, i, len).value
    ensures NextStart(mem, q, len) == NextStart(mem, i, len)
    decreases q - i
  {
    if i < q {
      NextStartLater(mem, i + 1, q, len);
    }
  }

  lemma HeaderBytes(id: nat)
    ensures var h := MessageHeader(id);
            && h[..8] == MESSAGE && h[8..19] == MESSAGE_ID && h[|h| - 1] == LF
            && forall j :: 8 <= j < |h| - 1 ==> !IsEol(h[j]) && h[j] != NUL
  {
    var h, d := MessageHeader(id), Digits(id);
    assert h == MESSAGE + MESSAGE_ID + d + [LF];
    forall j | 19 <= j < |h| - 1
      ensures IsDigit(h[j])
    {
      assert h[j] == d[j - 19] && d[j - 19] in d;
    }
    assert forall j :: 0 <= j < 11 ==> h[8 + j] == MESSAGE_ID[j];
    assert forall j :: 8 <= j < 19 ==> h[j] == MESSAGE_ID[j - 8];
  }

  /** The first line of the message is its message-id, the next search starts behind it. */
  lemma MessageLines(id: nat, s: seq<byte>)
    ensures var h := |MessageHeader(id)|;
            var g := MessageHeader(id) + s;
            && NextStart(g, 1, |g|) == Some(8) && IsHeader(g, 8, HEADER_LEN_MAX)
            && NextStart(g, 9, |g|) == NextStart(g, h, |g|)
  {
    HeaderBytes(id);
    var m := MessageHeader(id);
    var h, g := |m|, m + s;
    assert forall j :: 0 <= j < 8 ==> g[j] == m[..8][j] == MESSAGE[j];
    assert forall j :: 0 <= j < 11 ==> g[8 + j] == m[8..19][j] == MESSAGE_ID[j];
    assert forall j :: 8 <= j < h ==> g[j] == m[j];
    SkipLine(g, 1, 7, |g|);
    SkipEols(g, 7, 8, |g|);
    HeaderByColon(g, 8, 18, HEADER_LEN_MAX);
    SkipLine(g, 9, h - 1, |g|);
    assert g[h - 1] == LF;
  }

  /** The lines `b` of the message `g` are its message-id and then the lines `a` of the frame, which
      are found `h - c` bytes further on. */
  ghost predicate LinesKept(f: seq<byte>, a: Lines, c: nat, g: seq<byte>, b: Lines, h: nat) {
    && SameBehind(g, h, f, c)
    && b.hdrs != [] && b.hdrs[0] == 8 && SameHeaders(b.hdrs[1..], h, a.hdrs, c)
    && SamePlace(b.body, h, a.body, c)
  }

  /** Such lines have the same value for every header but the message-id. */
  lemma HeaderKept(f: seq<byte>, a: Lines, c: nat, g: seq<byte>, b: Lines, h: nat, key: seq<byte>)
    requires LinesKept(f, a, c, g, b, h) && !HasKey(g, 8, key)
    ensures HeaderValue(g, b.hdrs, key) == HeaderValue(f, a.hdrs, key)
  {
    var rest := b.hdrs[1..];
    assert b.hdrs == [8] + rest;
    assert FindHeader(g, b.hdrs, key) == FindHeader(g, rest, key);
    ShiftHeaderValue(g, h, f, c, rest, a.hdrs, key);
  }

  lemma BodyKept(f: seq<byte>, a: Lines, c: nat, g: seq<byte>, b: Lines, h: nat)
    requires LinesKept(f, a, c, g, b, h) && a.body.Some? && c <= a.body.value <= |f|
    ensures b.body.Some? && b.body.value <= |g| && g[b.body.value..] == f[a.body.value..]
  {
    assert |g[h..]| == |f[c..]|;
    SameSlice(g, h, f, c, a.body.value - c, |g| - h);
  }

  lemma KeptLines(f: seq<byte>, a: Lines, c: nat, g: seq<byte>, b: Lines, h: nat)
    requires SameBehind(g, h, f, c) && SameHeaders(b.hdrs, h, a.hdrs, c) && SamePlace(b.body, h, a.body, c)
    ensures LinesKept(f, a, c, g, Lines([8] + b.hdrs, b.body), h)
  {
    assert ([8] + b.hdrs)[1..] == b.hdrs;
  }

  lemma MessageParse(g: seq<byte>, h: nat)
    requires NextStart(g, 1, |g|) == Some(8) && IsHeader(g, 8, HEADER_LEN_MAX)
    requires NextStart(g, 9, |g|) == NextStart(g, h, |g|)
    ensures var b := ParseFrom(g, h, |g|, HEADERS_MAX - 1);
            Parse(g, |g|) == Lines([8] + b.hdrs, b.body)
  {
    SameStartSameLines(g, 9, h, |g|, HEADERS_MAX - 1);
    ParseHeader(g, 1, |g|, HEADERS_MAX - 1, 8);
  }

  /** The lines of a frame behind its first line feed, for which seven header entries are left. */
  function Kept(f: seq<byte>, c: nat): (a: Lines)
    ensures a.body.Some? ==> c <= a.body.value < |f|
  {
    ParseFrom(f, c, |f|, HEADERS_MAX - 1)
  }

  lemma KeptBehind(f: seq<byte>, c: nat, g: seq<byte>, h: nat)
    requires SameBehind(g, h, f, c)
    requires NextStart(g, 1, |g|) == Some(8) && IsHeader(g, 8, HEADER_LEN_MAX)
    requires NextStart(g, 9, |g|) == NextStart(g, h, |g|)
    ensures LinesKept(f, Kept(f, c), c, g, Parse(g, |g|), h)
  {
    ShiftParse(g, h, f, c, 0, HEADERS_MAX - 1);
    MessageParse(g, h);
    KeptLines(f, Kept(f, c), c, g, ParseFrom(g, h, |g|, HEADERS_MAX - 1), h);
  }

  /** The message-id as a header. */
  function IdLine(id: nat): seq<byte> {
    MESSAGE_ID + Digits(id)
  }

  lemma IdLineAt(id: nat, s: seq<byte>)
    ensures LineAt(MessageHeader(id) + s, 8, IdLine(id), s)
  {
    var g := MessageHeader(id) + s;
    assert g == MESSAGE + (IdLine(id) + [LF] + s);
  }

  /** The message has the message-id in front of the headers of the frame, as far as they find an
      entry, and then the same body. */
  lemma ForwardedLines(f: seq<byte>, id: nat, c: nat)
    requires SkipCommand(f) == Some(c)
    ensures var g := MessageHeader(id) + f[c..];
            LinesKept(f, Kept(f, c), c, g, Parse(g, |g|), |MessageHeader(id)|) && LineAt(g, 8, IdLine(id), f[c..])
  {
    var h, g := |MessageHeader(id)|, MessageHeader(id) + f[c..];
    HeaderBytes(id);
    MessageLines(id, f[c..]);
    IdLineAt(id, f[c..]);
    assert g[h..] == f[c..];
    KeptBehind(f, c, g, h);
  }

  /** The lines behind the command line are all lines of the frame, but for the entry that the
      message-id takes. */
  lemma KeptAreLines(f: seq<byte>, c: nat)
    requires CommandLineEnds(f, c)
    ensures var a := Parse(f, |f|);
            if |a.hdrs| < HEADERS_MAX - 1 then Kept(f, c) == a
            else |Kept(f, c).hdrs| == HEADERS_MAX - 1 && Kept(f, c).body == None
  {
    NextStartLater(f, 1, c, |f|);
    SameStartSameLines(f, 1, c, |f|, HEADERS_MAX - 1);
    ParseBudget(f, 1, |f|, HEADERS_MAX);
  }

  // ---------------------------------------------------------------------------
  // Forwarding and framing
  // ---------------------------------------------------------------------------

  lemma ForwardedNuls(f: seq<byte>, id: nat, c: nat)
    requires SkipCommand(f) == Some(c) && NulTerminated(f)
    ensures var h, g := |MessageHeader(id)|, MessageHeader(id) + f[c..];
            NulTerminated(g) && c <= Terminator(f) && Terminator(g) - h == Terminator(f) - c
  {
    var m := MessageHeader(id);
    var h, g, z := |m|, m + f[c..], Terminator(f);
    HeaderBytes(id);
    assert forall j :: 0 <= j < 8 ==> m[j] == m[..8][j] == MESSAGE[j];
    assert forall j :: 0 <= j < h ==> g[j] == m[j] != NUL;
    assert forall j :: h <= j < |g| ==> g[j] == f[c + (j - h)];
    assert g[h + (z - c)] == NUL;
  }

  lemma ForwardedContentLength(f: seq<byte>, id: nat, c: nat)
    requires SkipCommand(f) == Some(c)
    ensures var g := MessageHeader(id) + f[c..];
            HeaderValue(g, Parse(g, |g|).hdrs, CONTENT_LENGTH) == HeaderValue(f, Kept(f, c).hdrs, CONTENT_LENGTH)
  {
    var h, g := |MessageHeader(id)|, MessageHeader(id) + f[c..];
    ForwardedLines(f, id, c);
    KeyOfLine(g, 8, IdLine(id), f[c..], CONTENT_LENGTH);
    HeaderKept(f, Kept(f, c), c, g, Parse(g, |g|), h, CONTENT_LENGTH);
  }

  /** When the message is a frame; everything here is known before it is made. The body, and the
      content-length if there is one, must be found behind the command line with the seven entries
      that the message-id leaves. Then the content-length must give the length of the message, with
      the body in front of the first NUL, or not count at all. */
  ghost predicate Survives(f: seq<byte>, id: nat, c: nat)
    requires NulTerminated(f) && c <= |f|
  {
    var a, h := Kept(f, c), |MessageHeader(id)|;
    var len := h + |f| - c;
    len <= INT_MAX &&
    if a.body.Some? then
      var e := Estimate(ContentLength(f, a.hdrs), Some(a.body.value - c + h));
      if e > 0 then e == len && a.body.value <= Terminator(f) else OneNul(f)
    else
      OneNul(f)
      && (|a.hdrs| == HEADERS_MAX - 1 || InertWith(HeaderValue(f, a.hdrs, CONTENT_LENGTH), |a.hdrs| + 1, len))
  }

  /** The lines of `g` are the kept ones of `f` and one header more, and everything behind the
      command line has moved from `c` to `h`. */
  ghost predicate Moved(f: seq<byte>, c: nat, g: seq<byte>, h: nat) {
    var a, b := Kept(f, c), Parse(g, |g|);
    && |b.hdrs| == |a.hdrs| + 1 && SamePlace(b.body, h, a.body, c)
    && HeaderValue(g, b.hdrs, CONTENT_LENGTH) == HeaderValue(f, a.hdrs, CONTENT_LENGTH)
    && NulTerminated(f) && NulTerminated(g) && c <= Terminator(f) && Terminator(g) - h == Terminator(f) - c
    && |g| - h == |f| - c
  }

  lemma MovedWithBody(f: seq<byte>, id: nat, c: nat, g: seq<byte>)
    requires Moved(f, c, g, |MessageHeader(id)|) && Kept(f, c).body.Some?
    ensures WellFramed(g) <==> Survives(f, id, c)
  {
    assert ContentLength(g, Parse(g, |g|).hdrs) == ContentLength(f, Kept(f, c).hdrs);
    FramedWithBody(g, Estimate(ContentLength(f, Kept(f, c).hdrs), Parse(g, |g|).body));
  }

  lemma MovedWithoutBody(f: seq<byte>, id: nat, c: nat, g: seq<byte>)
    requires Moved(f, c, g, |MessageHeader(id)|) && Kept(f, c).body.None?
    ensures WellFramed(g) <==> Survives(f, id, c)
  {
  }

  /** The message of any frame is well-framed exactly when the frame survives. */
  lemma ForwardedIsFramed(f: seq<byte>, id: nat, c: nat)
    requires NulTerminated(f) && SkipCommand(f) == Some(c)
    ensures WellFramed(MessageHeader(id) + f[c..]) <==> Survives(f, id, c)
  {
    ForwardedNuls(f, id, c);
    ForwardedLines(f, id, c);
    ForwardedContentLength(f, id, c);
    if Kept(f, c).body.Some? {
      MovedWithBody(f, id, c, MessageHeader(id) + f[c..]);
    } else {
      MovedWithoutBody(f, id, c, MessageHeader(id) + f[c..]);
    }
  }

  lemma EstimateMoves(v: Option<int>, p: nat, c: nat, h: nat)
    requires c <= p
    ensures Estimate(v, Some(p - c + h)) == if v.None? then -1 else ToInt(Estimate(v, Some(p)) + h - c)
  {
    if v.Some? {
      ToIntAgain(v.value + p + 1, h - c);
    }
  }

  /** An estimate that was ignored never becomes the length of the message by accident. */
  lemma ShiftedOffLength(e: int, len: nat, h: nat, c: nat)
    requires -INT_MAX - 1 <= e <= 0 < len && c <= len <= INT_MAX && len + h - c <= INT_MAX
    ensures ToInt(e + h - c) != len + h - c
  {
  }

  lemma CountedSurvives(len: nat, c: nat, h: nat)
    requires c <= len && len + h - c <= INT_MAX
    ensures ToInt(len + h - c) == len + h - c
  {
  }

  /** A frame that ends where its content-length says survives. */
  lemma CountedFrameSurvives(f: seq<byte>, id: nat, c: nat, a: Lines)
    requires NulTerminated(f) && |f| <= INT_MAX && c <= |f| && |MessageHeader(id)| + |f| - c <= INT_MAX
    requires Kept(f, c) == a && a.body.Some? && a.body.value <= Terminator(f)
    requires Estimate(ContentLength(f, a.hdrs), a.body) == |f|
    ensures Survives(f, id, c)
  {
    EstimateMoves(ContentLength(f, a.hdrs), a.body.value, c, |MessageHeader(id)|);
    CountedSurvives(|f|, c, |MessageHeader(id)|);
  }

  lemma IgnoredEstimate(v: Option<int>, p: nat, c: nat, h: nat, len: nat)
    requires c <= p && c <= len <= INT_MAX && 0 < len && len + h - c <= INT_MAX && Estimate(v, Some(p)) <= 0
    ensures var e := Estimate(v, Some(p - c + h));
            && (e != len + h - c || e <= 0)
            && (e <= 0 <==> (v.Some? ==> ToInt(Estimate(v, Some(p)) + h - c) <= 0))
  {
    EstimateMoves(v, p, c, h);
    if v.Some? {
      ShiftedOffLength(Estimate(v, Some(p)), len, h, c);
    }
  }

  /** One whose content-length was ignored survives exactly if it stays so. */
  lemma IgnoredFrameSurvives(f: seq<byte>, id: nat, c: nat, a: Lines)
    requires NulTerminated(f) && |f| <= INT_MAX && c <= |f| && |MessageHeader(id)| + |f| - c <= INT_MAX
    requires Kept(f, c) == a && a.body.Some? && OneNul(f)
    requires Estimate(ContentLength(f, a.hdrs), a.body) <= 0
    ensures var v := ContentLength(f, a.hdrs);
            Survives(f, id, c) <==> (v.Some? ==> ToInt(Estimate(v, a.body) + |MessageHeader(id)| - c) <= 0)
  {
    IgnoredEstimate(ContentLength(f, a.hdrs), a.body.value, c, |MessageHeader(id)|, |f|);
  }

  /** For a well-framed frame with its body in place only a content-length that was ignored can go
      wrong: it is negative and points before the frame, and the longer message may bring it back. */
  lemma FramedBodySurvives(f: seq<byte>, id: nat, c: nat)
    requires WellFramed(f) && CommandLineEnds(f, c) && |MessageHeader(id)| + |f| - c <= INT_MAX
    requires |Parse(f, |f|).hdrs| < HEADERS_MAX - 1 && Parse(f, |f|).body.Some?
    ensures var number, e := ContentLength(f, Parse(f, |f|).hdrs), EstimLen(f, |f|);
            Survives(f, id, c) <==>
            (number.Some? && e <= 0 ==> ToInt(e + |MessageHeader(id)| - c) <= 0)
  {
    KeptAreLines(f, c);
    FramedWithBody(f, EstimLen(f, |f|));
    if EstimLen(f, |f|) > 0 {
      CountedFrameSurvives(f, id, c, Parse(f, |f|));
    } else {
      IgnoredFrameSurvives(f, id, c, Parse(f, |f|));
    }
  }

  /** With seven headers or more only the NUL at the end can delimit the message. */
  lemma FullFrameSurvives(f: seq<byte>, id: nat, c: nat)
    requires WellFramed(f) && CommandLineEnds(f, c) && |MessageHeader(id)| + |f| - c <= INT_MAX
    requires |Parse(f, |f|).hdrs| >= HEADERS_MAX - 1
    ensures Survives(f, id, c) <==> OneNul(f)
  {
    KeptAreLines(f, c);
  }

  /** Every header that is found behind the command line, but for a message-id, keeps its value, and
      the bytes from the body on are the same; with at most six headers these are all headers. */
  lemma {:induction false} ForwardingKeepsContent(f: seq<byte>, id: nat, c: nat, key: seq<byte>)
    requires SkipCommand(f) == Some(c) && LF !in key && !(key <= IdLine(id))
    ensures var g := MessageHeader(id) + f[c..];
            var a, b := Kept(f, c), Parse(g, |g|);
            && |b.hdrs| == |a.hdrs| + 1
            && HeaderValue(g, b.hdrs, key) == HeaderValue(f, a.hdrs, key)
            && (if a.body.Some? then b.body.Some? && g[b.body.value..] == f[a.body.value..] else b.body.None?)
    ensures CommandLineEnds(f, c) && |Parse(f, |f|).hdrs| < HEADERS_MAX - 1 ==> Kept(f, c) == Parse(f, |f|)
  {
    var h, g := |MessageHeader(id)|, MessageHeader(id) + f[c..];
    var a, b := Kept(f, c), Parse(g, |g|);
    ForwardedLines(f, id, c);
    KeyOfLine(g, 8, IdLine(id), f[c..], key);
    HeaderKept(f, a, c, g, b, h, key);
    if a.body.Some? {
      BodyKept(f, a, c, g, b, h);
    }
    if CommandLineEnds(f, c) {
      KeptAreLines(f, c);
    }
  }
}
