/** Which byte strings are frames: exactly those that stomp_msg_length delimits in every context. */
module Framing {
  import opened Bytes
  import opened Frames
  import opened Receiving

  // ---------------------------------------------------------------------------
  // What a parse depends on
  // ---------------------------------------------------------------------------

  ghost predicate NulTerminated(p: seq<byte>) {
    p != [] && p[|p| - 1] == NUL
  }

  lemma {:induction false} HeaderLocal(p: seq<byte>, mem: seq<byte>, i: nat, n: nat)
    requires NulTerminated(p) && p <= mem && i < |p|
    ensures IsHeader(mem, i, n) == IsHeader(p, i, n)
    decreases n
  {
    if 0 < n && i + 1 < |p| {
      HeaderLocal(p, mem, i + 1, n - 1);
    }
  }

  lemma {:induction false} NextStartLocal(p: seq<byte>, mem: seq<byte>, i: nat, len: nat)
    requires p <= mem && len <= |p|
    ensures NextStart(mem, i, len) == NextStart(p, i, len)
    decreases len - i
  {
    if i < len {
      NextStartLocal(p, mem, i + 1, len);
    }
  }

  /** Bytes behind a NUL-terminated prefix do not matter to the lines that start in it. */
  lemma {:induction false} ParseLocal(p: seq<byte>, mem: seq<byte>, i: nat, len: nat, k: nat)
    requires NulTerminated(p) && p <= mem && len <= |p|
    ensures ParseFrom(mem, i, len, k) == ParseFrom(p, i, len, k)
    decreases k
  {
    NextStartLocal(p, mem, i, len);
    match NextStart(mem, i, len)
    case None =>
    case Some(s) =>
      if k > 0 {
        HeaderLocal(p, mem, s, HEADER_LEN_MAX);
        ParseLocal(p, mem, s + 1, len, k - 1);
      }
  }

  lemma {:induction false} NextStartGrows(mem: seq<byte>, i: nat, len: nat, more: nat)
    requires len <= more <= |mem|
    ensures NextStart(mem, i, more) == (if NextStart(mem, i, len).Some? then NextStart(mem, i, len)
                                        else NextStart(mem, if i < len then len else i, more))
    decreases len - i
  {
    if i < len {
      NextStartGrows(mem, i + 1, len, more);
    }
  }

  lemma SameStartSameLines(mem: seq<byte>, i: nat, j: nat, len: nat, k: nat)
    requires len <= |mem| && NextStart(mem, i, len) == NextStart(mem, j, len)
    ensures ParseFrom(mem, i, len, k) == ParseFrom(mem, j, len, k)
  {
  }

  lemma ParseHeader(mem: seq<byte>, i: nat, len: nat, k: nat, s: nat)
    requires len <= |mem| && NextStart(mem, i, len) == Some(s) && IsHeader(mem, s, HEADER_LEN_MAX)
    ensures var rest := ParseFrom(mem, s + 1, len, k);
            ParseFrom(mem, i, len, k + 1) == Lines([s] + rest.hdrs, rest.body)
  {
  }

  /** More bytes do not change a parse that has found the body... */
  lemma {:induction false} ParseStable(mem: seq<byte>, i: nat, len: nat, more: nat, k: nat)
    requires len <= more <= |mem| && ParseFrom(mem, i, len, k).body.Some?
    ensures ParseFrom(mem, i, more, k) == ParseFrom(mem, i, len, k)
    decreases k
  {
    NextStartGrows(mem, i, len, more);
    var s := NextStart(mem, i, len).value;
    if IsHeader(mem, s, HEADER_LEN_MAX) {
      ParseStable(mem, s + 1, len, more, k - 1);
    }
  }

  /** The lines `a`, and then those of `b`. */
  function Append(a: Lines, b: Lines): Lines {
    Lines(a.hdrs + b.hdrs, b.body)
  }

  lemma AppendCons(s: nat, a: Lines, b: Lines)
    ensures Append(Lines([s] + a.hdrs, a.body), b) == Lines([s] + Append(a, b).hdrs, Append(a, b).body)
  {
    ConcatAssoc([s], a.hdrs, b.hdrs);
  }

  lemma AppendToNone(b: Lines)
    ensures Append(Lines([], None), b) == b
  {
  }

  /** ...and extend one that has not. */
  lemma {:induction false} ParseContinues(mem: seq<byte>, i: nat, len: nat, more: nat, k: nat, rest: Lines)
    requires len <= more <= |mem| && ParseFrom(mem, i, len, k).body.None?
    requires rest == ParseFrom(mem, if i < len then len else i, more, k - |ParseFrom(mem, i, len, k).hdrs|)
    ensures ParseFrom(mem, i, more, k) == Append(ParseFrom(mem, i, len, k), rest)
    decreases k
  {
    NextStartGrows(mem, i, len, more);
    AppendToNone(rest);
    match NextStart(mem, i, len)
    case None =>
      SameStartSameLines(mem, i, if i < len then len else i, more, k);
    case Some(s) =>
      if k > 0 {
        ParseHeader(mem, i, len, k - 1, s);
        ParseHeader(mem, i, more, k - 1, s);
        ParseContinues(mem, s + 1, len, more, k - 1, rest);
        AppendCons(s, ParseFrom(mem, s + 1, len, k - 1), rest);
      }
  }

  ghost predicate Within(hdrs: seq<nat>, lo: nat, hi: nat) {
    forall h :: h in hdrs ==> lo <= h < hi
  }

  /** Header lines start in order of the scan, and before the body. */
  lemma {:induction false} ParseBounds(mem: seq<byte>, i: nat, len: nat, k: nat)
    requires len <= |mem|
    ensures var r := ParseFrom(mem, i, len, k);
            Within(r.hdrs, i, if r.body.Some? then r.body.value else len)
    decreases k
  {
    match NextStart(mem, i, len)
    case None =>
    case Some(s) =>
      if k > 0 && IsHeader(mem, s, HEADER_LEN_MAX) {
        ParseBounds(mem, s + 1, len, k - 1);
      }
  }

  lemma {:induction false} SpacesLocal(p: seq<byte>, mem: seq<byte>, i: nat)
    requires NulTerminated(p) && p <= mem && i < |p|
    ensures SkipSpaces(mem, i) == SkipSpaces(p, i) < |p|
    decreases |p| - i
  {
    if IsSpace(p[i]) {
      SpacesLocal(p, mem, i + 1);
    }
  }

  lemma {:induction false} LineEndLocal(p: seq<byte>, mem: seq<byte>, i: nat)
    requires NulTerminated(p) && p <= mem && i < |p|
    ensures LineEnd(mem, i) == LineEnd(p, i) < |p|
    decreases |p| - i
  {
    if !IsEol(p[i]) && p[i] != NUL {
      LineEndLocal(p, mem, i + 1);
    }
  }

  lemma ValueLocal(p: seq<byte>, mem: seq<byte>, h: nat, key: seq<byte>)
    requires NulTerminated(p) && p <= mem && h < |p| && NUL !in key
    ensures HasKey(mem, h, key) == HasKey(p, h, key)
    ensures HasKey(p, h, key) ==> Value(mem, h, key) == Value(p, h, key)
  {
    if h + |key| < |p| {
      assert mem[h..h + |key|] == p[h..h + |key|];
      SpacesLocal(p, mem, h + |key|);
      LineEndLocal(p, mem, SkipSpaces(p, h + |key|));
    } else if h + |key| <= |mem| {
      assert mem[h..h + |key|][|p| - 1 - h] == NUL;
      assert h + |key| <= |p| ==> p[h..h + |key|][|p| - 1 - h] == NUL;
    }
  }

  lemma {:induction false} HeaderValueLocal(p: seq<byte>, mem: seq<byte>, hdrs: seq<nat>, key: seq<byte>)
    requires NulTerminated(p) && p <= mem && NUL !in key
    requires Within(hdrs, 0, |p|)
    ensures FindHeader(mem, hdrs, key) == FindHeader(p, hdrs, key)
    ensures HeaderValue(mem, hdrs, key) == HeaderValue(p, hdrs, key)
  {
    if hdrs != [] {
      assert hdrs[0] in hdrs && forall h :: h in hdrs[1..] ==> h in hdrs;
      ValueLocal(p, mem, hdrs[0], key);
      HeaderValueLocal(p, mem, hdrs[1..], key);
    }
  }

  lemma ContentLengthLocal(p: seq<byte>, mem: seq<byte>, hdrs: seq<nat>)
    requires NulTerminated(p) && p <= mem
    requires Within(hdrs, 0, |p|)
    ensures ContentLength(mem, hdrs) == ContentLength(p, hdrs)
  {
    HeaderValueLocal(p, mem, hdrs, CONTENT_LENGTH);
  }

  lemma {:induction false} FindInBoth(mem: seq<byte>, a: seq<nat>, b: seq<nat>, key: seq<byte>)
    ensures FindHeader(mem, a + b, key) ==
            (if FindHeader(mem, a, key).Some? then FindHeader(mem, a, key) else FindHeader(mem, b, key))
  {
    if a == [] {
      assert a + b == b;
    } else {
      assert (a + b)[1..] == a[1..] + b;
      FindInBoth(mem, a[1..], b, key);
    }
  }

  // ---------------------------------------------------------------------------
  // Frames
  // ---------------------------------------------------------------------------

  /** The position of the first NUL. */
  function Terminator(f: seq<byte>): (z: nat)
    requires NulTerminated(f)
    ensures z < |f| && f[z] == NUL && forall j :: 0 <= j < z ==> f[j] != NUL
  {
    FirstNul(f, 0, |f|).value
  }

  /** The only NUL is the last byte. */
  predicate OneNul(f: seq<byte>)
    requires NulTerminated(f)
  {
    Terminator(f) == |f| - 1
  }

  /** A content-length of `v` cannot put the end of a frame behind its `len` bytes, or in front of
      that: the sum with the place of a body that follows, which is at most INT_MAX - 1, is not
      positive as an int, or is `len`. */
  predicate NeverCounts(v: int, len: nat) {
    || len > INT_MAX - 2
    || v <= -INT_MAX
    || (v >= 0 && v + len + 2 > INT_MAX)
    || (v == -2 && len == INT_MAX - 2)
  }

  /** No header that might follow can make the content-length of a frame of `len` bytes with `count`
      headers count: either it is there and not a number that could, or there is no header entry
      left for it to be read together with a body, or there is no room for both. */
  predicate InertWith(value: Option<seq<byte>>, count: nat, len: nat) {
    match value
    case None => count == HEADERS_MAX - 1 || len + 18 > INT_MAX
    case Some(w) => Number(w).None? || NeverCounts(Number(w).value, len)
  }

  predicate Inert(f: seq<byte>, hdrs: seq<nat>) {
    InertWith(HeaderValue(f, hdrs, CONTENT_LENGTH), |hdrs|, |f|)
  }

  /** A check on the bytes of `f` alone. */
  ghost predicate WellFramed(f: seq<byte>) {
    NulTerminated(f) && |f| <= INT_MAX &&
    var lines := Parse(f, |f|);
    if lines.body.Some? then
      if EstimLen(f, |f|) > 0 then EstimLen(f, |f|) == |f| && lines.body.value <= Terminator(f)
      else OneNul(f)
    else
      OneNul(f) && (|lines.hdrs| == HEADERS_MAX || Inert(f, lines.hdrs))
  }

  lemma FramedWithBody(f: seq<byte>, e: int)
    requires NulTerminated(f) && Parse(f, |f|).body.Some? && EstimLen(f, |f|) == e
    ensures WellFramed(f) <==>
            && |f| <= INT_MAX
            && if e > 0 then e == |f| && Parse(f, |f|).body.value <= Terminator(f) else OneNul(f)
  {
  }

  /** With its body found inside, a frame fixes the estimate in every buffer that continues it. */
  lemma EstimateInContext(p: seq<byte>, mem: seq<byte>, len: nat)
    requires NulTerminated(p) && p <= mem && |p| <= len <= |mem| && Parse(p, |p|).body.Some?
    ensures Parse(mem, len) == Parse(p, |p|) && EstimLen(mem, len) == EstimLen(p, |p|)
  {
    ParseLocal(p, mem, 1, |p|, HEADERS_MAX);
    ParseBounds(p, 1, |p|, HEADERS_MAX);
    ParseStable(mem, 1, |p|, len, HEADERS_MAX);
    ContentLengthLocal(p, mem, Parse(p, |p|).hdrs);
  }

  /** The lines behind `p`, with the header entries that it leaves. */
  function Following(p: seq<byte>, mem: seq<byte>, len: nat): Lines
    requires len <= |mem|
  {
    ParseFrom(mem, |p|, len, HEADERS_MAX - |Parse(p, |p|).hdrs|)
  }

  /** Without a body inside, the lines that follow are appended... */
  lemma LinesInContext(p: seq<byte>, mem: seq<byte>, len: nat)
    requires NulTerminated(p) && p <= mem && |p| <= len <= |mem| && Parse(p, |p|).body.None?
    ensures var rest := Following(p, mem, len);
            Parse(mem, len) == Append(Parse(p, |p|), rest)
  {
    ParseLocal(p, mem, 1, |p|, HEADERS_MAX);
    ParseContinues(mem, 1, |p|, len, HEADERS_MAX, Following(p, mem, len));
  }

  /** ...and a content-length among them counts if there is none inside. */
  lemma ContentLengthInContext(p: seq<byte>, mem: seq<byte>, more: seq<nat>)
    requires NulTerminated(p) && p <= mem
    ensures var hdrs := Parse(p, |p|).hdrs;
            ContentLength(mem, hdrs + more) == if HeaderValue(p, hdrs, CONTENT_LENGTH).Some? then ContentLength(p, hdrs)
                                               else ContentLength(mem, more)
  {
    var hdrs := Parse(p, |p|).hdrs;
    ParseBounds(p, 1, |p|, HEADERS_MAX);
    HeaderValueLocal(p, mem, hdrs, CONTENT_LENGTH);
    FindInBoth(mem, hdrs, more, CONTENT_LENGTH);
  }

  lemma ScanFindsTerminator(f: seq<byte>, mem: seq<byte>, len: nat)
    requires NulTerminated(f) && f <= mem && Terminator(f) < len <= |mem|
    ensures FirstNul(mem, 0, len) == Some(Terminator(f))
  {
    assert mem[Terminator(f)] == NUL;
  }

  lemma NeverCountsMeans(v: int, len: nat, p: nat)
    requires NeverCounts(v, len) && len < p < INT_MAX && -INT_MAX - 1 <= v <= INT_MAX
    ensures ToInt(v + p + 1) <= 0 || ToInt(v + p + 1) == len
  {
  }

  ghost predicate AllStarts(mem: seq<byte>, hdrs: seq<nat>) {
    forall h :: h in hdrs ==> LineStart(mem, h)
  }

  lemma {:induction false} ParseStarts(mem: seq<byte>, i: nat, len: nat, k: nat)
    requires len <= |mem|
    ensures var r := ParseFrom(mem, i, len, k);
            AllStarts(mem, r.hdrs) && (r.body.Some? ==> LineStart(mem, r.body.value))
    decreases k
  {
    match NextStart(mem, i, len)
    case None =>
    case Some(s) =>
      if k > 0 && IsHeader(mem, s, HEADER_LEN_MAX) {
        ParseStarts(mem, s + 1, len, k - 1);
      }
  }

  lemma BehindNul(f: seq<byte>, mem: seq<byte>, p: nat)
    requires NulTerminated(f) && f <= mem && |f| <= p && LineStart(mem, p)
    ensures |f| < p
  {
    assert mem[|f| - 1] == NUL;
  }

  lemma {:induction false} FoundIsHeader(mem: seq<byte>, hdrs: seq<nat>, key: seq<byte>)
    requires FindHeader(mem, hdrs, key).Some?
    ensures FindHeader(mem, hdrs, key).value in hdrs
  {
    if !HasKey(mem, hdrs[0], key) {
      FoundIsHeader(mem, hdrs[1..], key);
    }
  }

  lemma KeyIsText(mem: seq<byte>, h: nat, p: nat)
    requires HasKey(mem, h, CONTENT_LENGTH) && h < p && LineStart(mem, p)
    ensures h + 16 <= p
  {
    forall j | h <= j < h + 15
      ensures !IsEol(mem[j])
    {
      assert mem[j] == mem[h..h + 15][j - h] == CONTENT_LENGTH[j - h];
    }
  }

  /** What follows a frame starts behind a line end: a body is more than a byte away, and a
      content-length in front of it more than sixteen bytes more. */
  lemma FollowingBounds(f: seq<byte>, mem: seq<byte>, len: nat)
    requires NulTerminated(f) && f <= mem && |f| <= len <= |mem| && Following(f, mem, len).body.Some?
    ensures var rest := Following(f, mem, len);
            && |f| < rest.body.value < len
            && (FindHeader(mem, rest.hdrs, CONTENT_LENGTH).Some? ==> |f| + 17 <= rest.body.value)
  {
    var rest, k := Following(f, mem, len), HEADERS_MAX - |Parse(f, |f|).hdrs|;
    ParseBounds(mem, |f|, len, k);
    ParseStarts(mem, |f|, len, k);
    BehindNul(f, mem, rest.body.value);
    if FindHeader(mem, rest.hdrs, CONTENT_LENGTH).Some? {
      var h := FindHeader(mem, rest.hdrs, CONTENT_LENGTH).value;
      FoundIsHeader(mem, rest.hdrs, CONTENT_LENGTH);
      BehindNul(f, mem, h);
      KeyIsText(mem, h, rest.body.value);
    }
  }

  lemma NoOwnEstimate(f: seq<byte>, mem: seq<byte>, len: nat, v: Option<int>)
    requires WellFramed(f) && f <= mem && |f| <= len <= |mem| && len <= INT_MAX && Parse(f, |f|).body.None?
    requires HeaderValue(f, Parse(f, |f|).hdrs, CONTENT_LENGTH).Some? && v == ContentLength(f, Parse(f, |f|).hdrs)
    requires Following(f, mem, len).body.Some?
    ensures var e := Estimate(v, Following(f, mem, len).body); e <= 0 || e == |f|
  {
    FollowingBounds(f, mem, len);
    if v.Some? {
      NeverCountsMeans(v.value, |f|, Following(f, mem, len).body.value);
    }
  }

  lemma NoLateEstimate(f: seq<byte>, mem: seq<byte>, len: nat)
    requires WellFramed(f) && f <= mem && |f| <= len <= |mem| && len <= INT_MAX && Parse(f, |f|).body.None?
    requires HeaderValue(f, Parse(f, |f|).hdrs, CONTENT_LENGTH).None? && Following(f, mem, len).body.Some?
    ensures ContentLength(mem, Following(f, mem, len).hdrs).None?
  {
    FollowingBounds(f, mem, len);
  }

  lemma NoEstimateInContext(f: seq<byte>, mem: seq<byte>, len: nat)
    requires WellFramed(f) && f <= mem && |f| <= len <= |mem| && len <= INT_MAX && Parse(f, |f|).body.None?
    ensures EstimLen(mem, len) <= 0 || EstimLen(mem, len) == |f|
  {
    var hdrs, rest := Parse(f, |f|).hdrs, Following(f, mem, len);
    LinesInContext(f, mem, len);
    ContentLengthInContext(f, mem, rest.hdrs);
    if rest.body.Some? {
      if HeaderValue(f, hdrs, CONTENT_LENGTH).Some? {
        NoOwnEstimate(f, mem, len, ContentLength(f, hdrs));
      } else {
        NoLateEstimate(f, mem, len);
      }
    }
  }

  lemma DelimitInContext(f: seq<byte>, mem: seq<byte>, len: nat, e: int)
    requires NulTerminated(f) && f <= mem && |f| <= len <= |mem|
    requires if e > 0 then e == |f| else OneNul(f)
    ensures Delimit(mem, len, e) == |f|
  {
    ScanFindsTerminator(f, mem, len);
  }

  lemma FrameInContext(f: seq<byte>, mem: seq<byte>, len: nat)
    requires WellFramed(f) && f <= mem && |f| <= len <= |mem| && len <= INT_MAX
    ensures MsgLength(mem, len) == |f|
  {
    if Parse(f, |f|).body.Some? {
      EstimateInContext(f, mem, len);
    } else {
      NoEstimateInContext(f, mem, len);
    }
    DelimitInContext(f, mem, len, EstimLen(mem, len));
  }

  lemma BodyFoundEarly(f: seq<byte>, len: nat)
    requires len <= |f| && Parse(f, |f|).body.Some?
    ensures if Parse(f, |f|).body.value < len then Parse(f, len) == Parse(f, |f|) else Parse(f, len).body.None?
  {
    if Parse(f, len).body.Some? {
      ParseStable(f, 1, len, |f|, HEADERS_MAX);
    } else if 0 < len {
      var hdrs := Parse(f, len).hdrs;
      ParseContinues(f, 1, len, |f|, HEADERS_MAX, ParseFrom(f, len, |f|, HEADERS_MAX - |hdrs|));
    }
  }

  lemma SamePrefix<T>(f: seq<T>, mem: seq<T>, n: nat, len: nat)
    requires n <= len <= |f| && len <= |mem| && mem[..len] == f[..len]
    ensures f[..n] <= f && f[..n] <= mem
  {
    assert f[..n] == f[..len][..n] == mem[..len][..n] == mem[..n];
  }

  /** From the first NUL on, a part of a frame has the estimate of the whole. */
  lemma EstimateInPart(f: seq<byte>, mem: seq<byte>, len: nat)
    requires NulTerminated(f) && len < |f| && len <= |mem| && mem[..len] == f[..len]
    requires Terminator(f) < len
    requires Parse(f, |f|).body.Some? && Parse(f, |f|).body.value <= Terminator(f)
    ensures EstimLen(mem, len) == EstimLen(f, |f|)
  {
    var z := Terminator(f);
    var p := f[..z + 1];
    SamePrefix(f, mem, z + 1, len);
    BodyFoundEarly(f, z + 1);
    ParseLocal(p, f, 1, z + 1, HEADERS_MAX);
    EstimateInContext(p, f, |f|);
    EstimateInContext(p, mem, len);
  }

  lemma {:induction false} NoFrameInPart(f: seq<byte>, mem: seq<byte>, len: nat)
    requires WellFramed(f) && len < |f| && len <= |mem| && mem[..len] == f[..len]
    ensures MsgLength(mem, len) == -1
  {
    var r := MsgLength(mem, len);
    if r != -1 {
      assert mem[r - 1] == mem[..len][r - 1] == f[..len][r - 1] == NUL;
      EstimateInPart(f, mem, len);
    }
  }

  // ---------------------------------------------------------------------------
  // Nothing else is delimited
  // ---------------------------------------------------------------------------

  /** A buffer in which `f` is not delimited. */
  ghost predicate Breaks(f: seq<byte>, mem: seq<byte>, len: nat) {
    len <= |mem| && len <= INT_MAX &&
    if |f| <= len then f <= mem && MsgLength(mem, len) != |f|
    else mem[..len] == f[..len] && MsgLength(mem, len) != -1
  }

  lemma {:induction false} SkipEols(mem: seq<byte>, i: nat, q: nat, len: nat)
    requires 0 < i <= q < len <= |mem|
    requires forall j :: i <= j < q ==> IsEol(mem[j])
    requires !IsEol(mem[q]) && IsEol(mem[q - 1])
    ensures NextStart(mem, i, len) == Some(q)
    decreases q - i
  {
    if i < q {
      SkipEols(mem, i + 1, q, len);
    }
  }

  lemma {:induction false} SkipLine(mem: seq<byte>, i: nat, q: nat, len: nat)
    requires 0 < i <= q <= len <= |mem|
    requires forall j :: i - 1 <= j < q ==> !IsEol(mem[j])
    ensures NextStart(mem, i, len) == NextStart(mem, q, len)
    decreases q - i
  {
    if i < q {
      SkipLine(mem, i + 1, q, len);
    }
  }

  lemma {:induction false} HeaderByColon(mem: seq<byte>, p: nat, c: nat, n: nat)
    requires p <= c < |mem| && c - p < n && mem[c] == COLON
    requires forall j :: p <= j < c ==> !IsEol(mem[j]) && mem[j] != NUL
    ensures IsHeader(mem, p, n)
    decreases c - p
  {
    if p < c {
      HeaderByColon(mem, p + 1, c, n - 1);
    }
  }

  /** Line ends and a digit: they give a frame without a body one, as far behind as one likes. */
  const DIGIT: byte := 48

  function BlankLines(n: nat): seq<byte> {
    seq(n, _ => LF) + [DIGIT]
  }

  lemma DigitIsBody(mem: seq<byte>, p: nat)
    requires p + 1 == |mem| && mem[p] == DIGIT
    ensures !IsHeader(mem, p, HEADER_LEN_MAX)
  {
    assert !IsHeader(mem, p + 1, HEADER_LEN_MAX - 1);
  }

  lemma BlankLinesParse(f: seq<byte>, n: nat, k: nat)
    requires NulTerminated(f) && 0 < n && 0 < k
    ensures var mem := f + BlankLines(n);
            ParseFrom(mem, |f|, |mem|, k) == Lines([], Some(|f| + n))
  {
    var mem := f + BlankLines(n);
    SkipEols(mem, |f|, |f| + n, |mem|);
    DigitIsBody(mem, |f| + n);
  }

  /** A body behind `f` and a content-length that puts the end of the frame elsewhere. */
  lemma BreaksOnTail(f: seq<byte>, t: seq<byte>, rest: Lines, v: int)
    requires NulTerminated(f) && Parse(f, |f|).body.None? && |f + t| <= INT_MAX
    requires rest == Following(f, f + t, |f + t|)
    requires ContentLength(f + t, Parse(f, |f|).hdrs + rest.hdrs) == Some(v)
    requires Estimate(Some(v), rest.body) > 0 && Estimate(Some(v), rest.body) != |f|
    ensures Breaks(f, f + t, |f + t|)
  {
    LinesInContext(f, f + t, |f + t|);
    assert EstimLen(f + t, |f + t|) == Estimate(Some(v), rest.body);
  }

  /** Where a body has to be for a content-length of `v` to count behind `len` bytes. */
  function Distance(len: nat, v: int): (p: nat)
    requires 2 <= len && -INT_MAX - 1 <= v <= INT_MAX && !NeverCounts(v, len)
    ensures len < p < INT_MAX && ToInt(v + p + 1) > 0 && ToInt(v + p + 1) != len
  {
    if v >= 0 then len + 1
    else if len - v < INT_MAX then len - v
    else if v + INT_MAX != len then INT_MAX - 1
    else INT_MAX - 2
  }

  /** A content-length that may count, without a body, breaks on a body at the right distance. */
  lemma {:induction false} BreaksOnNumber(f: seq<byte>, v: int) returns (mem: seq<byte>)
    requires NulTerminated(f) && 2 <= |f|
    requires var lines := Parse(f, |f|);
             && lines.body.None? && |lines.hdrs| < HEADERS_MAX
             && HeaderValue(f, lines.hdrs, CONTENT_LENGTH).Some? && ContentLength(f, lines.hdrs) == Some(v)
    requires !NeverCounts(v, |f|)
    ensures Breaks(f, mem, |mem|)
  {
    var n := Distance(|f|, v) - |f|;
    mem := f + BlankLines(n);
    BlankLinesParse(f, n, HEADERS_MAX - |Parse(f, |f|).hdrs|);
    ContentLengthInContext(f, mem, []);
    BreaksOnTail(f, BlankLines(n), Lines([], Some(|f| + n)), v);
  }

  /** The shortest header with a content-length and a body: the digit is both its value, because
      line ends are skipped like spaces, and the body. */
  function LateHeader(): (t: seq<byte>)
    ensures |t| == 18
  {
    [LF] + CONTENT_LENGTH + [LF, DIGIT]
  }

  lemma LateHeaderParse(f: seq<byte>, k: nat)
    requires NulTerminated(f) && 1 < k
    ensures var mem := f + LateHeader();
            ParseFrom(mem, |f|, |mem|, k) == Lines([|f| + 1], Some(|f| + 17))
  {
    var mem, h := f + LateHeader(), |f| + 1;
    assert forall j :: 0 <= j < 18 ==> mem[|f| + j] == LateHeader()[j];
    SkipEols(mem, |f|, h, |mem|);
    HeaderByColon(mem, h, h + 14, HEADER_LEN_MAX);
    SkipLine(mem, h + 1, h + 15, |mem|);
    SkipEols(mem, h + 15, h + 16, |mem|);
    DigitIsBody(mem, h + 16);
    assert ParseFrom(mem, h + 1, |mem|, k - 1) == Lines([], Some(h + 16));
  }

  lemma NumberZero()
    ensures Number([48]) == Some(0)
  {
    assert [48 as byte][..0] == [];
    assert Decimal([48]) == 0;
  }

  lemma LateHeaderNumber(f: seq<byte>)
    ensures ContentLength(f + LateHeader(), [|f| + 1]) == Some(0)
  {
    var mem, h := f + LateHeader(), |f| + 1;
    assert forall j :: 0 <= j < 18 ==> mem[|f| + j] == LateHeader()[j];
    assert mem[h..h + 15] == CONTENT_LENGTH;
    assert SkipSpaces(mem, h + 16) == h + 16 == SkipSpaces(mem, h + 15);
    assert LineEnd(mem, h + 17) == h + 17 == LineEnd(mem, h + 16);
    assert mem[h + 16..h + 17] == [48];
    NumberZero();
  }

  /** Without any content-length, a header that brings one breaks, too, if there is room for it. */
  lemma {:induction false} BreaksOnLateHeader(f: seq<byte>) returns (mem: seq<byte>)
    requires NulTerminated(f) && |f| + 18 <= INT_MAX
    requires var lines := Parse(f, |f|);
             lines.body.None? && |lines.hdrs| < HEADERS_MAX - 1 && HeaderValue(f, lines.hdrs, CONTENT_LENGTH).None?
    ensures Breaks(f, mem, |mem|)
  {
    mem := f + LateHeader();
    LateHeaderParse(f, HEADERS_MAX - |Parse(f, |f|).hdrs|);
    LateHeaderNumber(f);
    ContentLengthInContext(f, mem, [|f| + 1]);
    BreaksOnTail(f, LateHeader(), Lines([|f| + 1], Some(|f| + 17)), 0);
  }

  /** A body that is found does not help when the frame ends elsewhere, or when the scan for its
      NUL finds one before the body. */
  lemma {:induction false} BreaksWithBody(f: seq<byte>) returns (len: nat)
    requires NulTerminated(f) && !WellFramed(f) && Parse(f, |f|).body.Some? && |f| <= INT_MAX
    ensures Breaks(f, f, len)
  {
    len := |f|;
    if EstimLen(f, |f|) == |f| {
      len := Terminator(f) + 1;
      BodyFoundEarly(f, len);
    }
    ScanFindsTerminator(f, f, len);
  }

  lemma {:induction false} BreaksWithoutBody(f: seq<byte>) returns (mem: seq<byte>)
    requires NulTerminated(f) && !WellFramed(f) && Parse(f, |f|).body.None? && |f| <= INT_MAX
    ensures Breaks(f, mem, |mem|)
  {
    mem := f;
    var lines := Parse(f, |f|);
    if !OneNul(f) {
      ScanFindsTerminator(f, f, |f|);
    } else {
      match HeaderValue(f, lines.hdrs, CONTENT_LENGTH)
      case None => mem := BreaksOnLateHeader(f);
      case Some(w) =>
        ParseBounds(f, 1, |f|, HEADERS_MAX);
        FoundIsHeader(f, lines.hdrs, CONTENT_LENGTH);
        mem := BreaksOnNumber(f, Number(w).value);
    }
  }

  /** Whatever is not well-framed breaks somewhere. */
  lemma BreaksUnlessFramed(f: seq<byte>) returns (mem: seq<byte>, len: nat)
    requires !WellFramed(f) && |f| <= INT_MAX
    ensures Breaks(f, mem, len)
  {
    mem, len := f, |f|;
    if NulTerminated(f) {
      if Parse(f, |f|).body.Some? {
        len := BreaksWithBody(f);
      } else {
        mem := BreaksWithoutBody(f);
        len := |mem|;
      }
    }
  }

  lemma {:induction false} NothingInPart(f: seq<byte>, t: seq<byte>)
    requires WellFramed(f) && t < f
    ensures Unrecognised(StompLength, t)
  {
    forall mem, len: nat | t <= mem && |t| == len
      ensures StompLength(mem, len) <= 0
    {
      assert mem[..len] == t == f[..len];
      NoFrameInPart(f, mem, len);
    }
  }

  /** The frames that stomp_msg_length delimits in every context are exactly the well-framed byte
      strings. */
  lemma DelimitsIffWellFramed(f: seq<byte>)
    ensures Delimits(StompLength, f) <==> WellFramed(f)
  {
    if WellFramed(f) {
      forall mem, len: nat | f <= mem && |f| <= len <= |mem| && len <= INT_MAX
        ensures StompLength(mem, len) == |f|
      {
        FrameInContext(f, mem, len);
      }
      forall t | t < f
        ensures Unrecognised(StompLength, t)
      {
        NothingInPart(f, t);
      }
    } else if |f| <= INT_MAX {
      var mem, len := BreaksUnlessFramed(f);
      if |f| <= len {
        assert StompLength(mem, len) != |f|;
      } else {
        var t := f[..len];
        assert t <= mem && StompLength(mem, len) > 0;
        assert !Unrecognised(StompLength, t);
      }
    }
  }

  // ---------------------------------------------------------------------------
  // STOMP streams
  // ---------------------------------------------------------------------------

  lemma StompBounded()
    ensures Bounded(StompLength)
  {
  }

  ghost predicate AllFramed(fs: seq<seq<byte>>) {
    forall f :: f in fs ==> WellFramed(f)
  }

  /** A stream of well-framed frames and the beginning of one more, cut anywhere: exactly the frames
      are dispatched. */
  lemma {:induction false} StompChunking(fs: seq<seq<byte>>, g: seq<byte>, tail: seq<byte>, cs: seq<Chunk>)
    requires AllFramed(fs) && (tail == [] || (WellFramed(g) && tail < g))
    requires Stream(cs) == Flatten(fs) + tail && Fits(StompLength, [], cs)
    ensures FeedAll(StompLength, [], cs) == (fs, tail)
  {
    StompBounded();
    forall f | f in fs
      ensures Delimits(StompLength, f)
    {
      DelimitsIffWellFramed(f);
    }
    forall t | t <= tail
      ensures Unrecognised(StompLength, t)
    {
      if tail != [] {
        NothingInPart(g, t);
      }
    }
    ChunkingIndependence(StompLength, fs, tail, cs);
  }

  /** Whatever a client sends, the loop consumes it in pieces that end in NUL and keeps the rest. */
  lemma {:induction false} StompPartition(mem: seq<byte>, len: nat)
    requires len <= |mem|
    ensures Bounded(StompLength)
    ensures var r := Receive(StompLength, mem, len);
            && Flatten(r.frames) + r.mem[..r.len] == mem[..len]
            && (forall f :: f in r.frames ==> NulTerminated(f))
            && MsgLength(r.mem, r.len) == -1
  {
    StompBounded();
    ReceivePartitions(StompLength, mem, len);
    var r := Receive(StompLength, mem, len);
    forall f | f in r.frames
      ensures NulTerminated(f)
    {
      var m: seq<byte>, l: nat :| f <= m && |f| <= l <= |m| && StompLength(m, l) == |f| > 0;
    }
  }
}
