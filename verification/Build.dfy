/**
 * Frames written out from their parts, as a client writes them: a command line, header lines, a
 * blank line, a body and a NUL. They are parsed back into those parts, and are well-framed exactly
 * when the body has no NUL or the content-length is the length of the body.
 */
module Building {
  import opened Bytes
  import opened Frames
  import opened Framing
  import opened Forwarding

  function HeaderLines(hs: seq<seq<byte>>): seq<byte> {
    if hs == [] then [] else hs[0] + [LF] + HeaderLines(hs[1..])
  }

  function Build(cmd: seq<byte>, hs: seq<seq<byte>>, body: seq<byte>): seq<byte> {
    cmd + [LF] + (HeaderLines(hs) + [LF] + (body + [NUL]))
  }

  /** Where the body starts. */
  function BodyAt(cmd: seq<byte>, hs: seq<seq<byte>>): nat {
    |cmd| + 1 + |HeaderLines(hs)| + 1
  }

  predicate IsText(line: seq<byte>) {
    line != [] && NUL !in line && LF !in line && CR !in line
  }

  /** A header line shows its colon within the first eighty bytes. */
  predicate IsHeaderText(h: seq<byte>) {
    IsText(h) && COLON in h[..if |h| < HEADER_LEN_MAX then |h| else HEADER_LEN_MAX]
  }

  ghost predicate AllHeaders(hs: seq<seq<byte>>) {
    forall h :: h in hs ==> IsHeaderText(h)
  }

  /** The parts of a frame: the body may hold any bytes, but must not start with a line end or with
      a line that looks like a header. */
  ghost predicate Parts(cmd: seq<byte>, hs: seq<seq<byte>>, body: seq<byte>) {
    && IsText(cmd) && |hs| < HEADERS_MAX && AllHeaders(hs)
    && !IsEol((body + [NUL])[0]) && !IsHeader(body + [NUL], 0, HEADER_LEN_MAX)
  }

  /** Where the header lines start, from `p` on. */
  function Positions(p: nat, hs: seq<seq<byte>>): (r: seq<nat>)
    ensures |r| == |hs|
    decreases |hs|
  {
    if hs == [] then [] else [p] + Positions(p + |hs[0]| + 1, hs[1..])
  }

  // ---------------------------------------------------------------------------
  // Parsing back
  // ---------------------------------------------------------------------------

  lemma {:induction false} HeaderOfTail(mem: seq<byte>, p: nat, j: nat, n: nat)
    requires p <= |mem|
    ensures IsHeader(mem, p + j, n) == IsHeader(mem[p..], j, n)
    decreases n
  {
    if 0 < n && p + j < |mem| {
      HeaderOfTail(mem, p, j + 1, n - 1);
    }
  }

  lemma TextIsPassed(mem: seq<byte>, p: nat, line: seq<byte>, rest: seq<byte>)
    requires LineAt(mem, p, line, rest) && IsText(line)
    ensures NextStart(mem, p + 1, |mem|) == NextStart(mem, p + |line| + 1, |mem|)
  {
    LineParts(mem, p, line, rest);
    forall j | p <= j < p + |line|
      ensures !IsEol(mem[j])
    {
      assert mem[j] == line[j - p] && line[j - p] in line;
    }
    SkipLine(mem, p + 1, p + |line|, |mem|);
  }

  lemma FirstColon(h: seq<byte>) returns (c: nat)
    requires IsHeaderText(h)
    ensures c < |h| && c < HEADER_LEN_MAX && h[c] == COLON
  {
    var front := h[..if |h| < HEADER_LEN_MAX then |h| else HEADER_LEN_MAX];
    c :| 0 <= c < |front| && front[c] == COLON;
  }

  lemma HeaderTextIsHeader(mem: seq<byte>, p: nat, h: seq<byte>, rest: seq<byte>)
    requires LineAt(mem, p, h, rest) && IsHeaderText(h)
    ensures IsHeader(mem, p, HEADER_LEN_MAX)
  {
    LineParts(mem, p, h, rest);
    var c := FirstColon(h);
    forall j | p <= j < p + c
      ensures !IsEol(mem[j]) && mem[j] != NUL
    {
      assert mem[j] == h[j - p] && h[j - p] in h;
    }
    HeaderByColon(mem, p, p + c, HEADER_LEN_MAX);
  }

  lemma HeaderStep(mem: seq<byte>, p: nat, h: seq<byte>, more: seq<byte>, k: nat)
    requires 0 < p && LineAt(mem, p, h, more) && mem[p - 1] == LF && IsHeaderText(h)
    ensures var rest := ParseFrom(mem, p + |h| + 1, |mem|, k);
            ParseFrom(mem, p, |mem|, k + 1) == Lines([p] + rest.hdrs, rest.body)
  {
    LineParts(mem, p, h, more);
    assert h[0] in h && mem[p] == h[0];
    TextIsPassed(mem, p, h, more);
    HeaderTextIsHeader(mem, p, h, more);
    SameStartSameLines(mem, p + 1, p + |h| + 1, |mem|, k);
    ParseHeader(mem, p, |mem|, k, p);
  }

  lemma BodyStep(mem: seq<byte>, p: nat, tail: seq<byte>, k: nat)
    requires 0 < p && LineAt(mem, p, [], tail) && mem[p - 1] == LF && 0 < k
    requires tail != [] && !IsEol(tail[0]) && !IsHeader(tail, 0, HEADER_LEN_MAX)
    ensures ParseFrom(mem, p, |mem|, k) == Lines([], Some(p + 1))
  {
    LineParts(mem, p, [], tail);
    assert mem[p + 1] == mem[p + 1..][0];
    SkipEols(mem, p, p + 1, |mem|);
    HeaderOfTail(mem, p + 1, 0, HEADER_LEN_MAX);
  }

  lemma HeaderLinesNext(hs: seq<seq<byte>>, tail: seq<byte>)
    requires hs != []
    ensures HeaderLines(hs) + [LF] + tail == hs[0] + [LF] + (HeaderLines(hs[1..]) + [LF] + tail)
  {
    ConcatAssoc(hs[0] + [LF], HeaderLines(hs[1..]), [LF]);
    ConcatAssoc(hs[0] + [LF], HeaderLines(hs[1..]) + [LF], tail);
  }

  /** At `p` memory has header lines, a blank line, and then `tail`. */
  ghost predicate HeadersAt(mem: seq<byte>, p: nat, hs: seq<seq<byte>>, tail: seq<byte>) {
    0 < p <= |mem| && mem[p - 1] == LF && mem[p..] == HeaderLines(hs) + [LF] + tail
  }

  lemma HeadersNext(mem: seq<byte>, p: nat, hs: seq<seq<byte>>, tail: seq<byte>)
    requires HeadersAt(mem, p, hs, tail) && hs != []
    ensures LineAt(mem, p, hs[0], HeaderLines(hs[1..]) + [LF] + tail)
    ensures HeadersAt(mem, p + |hs[0]| + 1, hs[1..], tail)
  {
    HeaderLinesNext(hs, tail);
    LineParts(mem, p, hs[0], HeaderLines(hs[1..]) + [LF] + tail);
  }

  /** The lines of a frame whose headers start at `p`. */
  function BuiltLines(p: nat, hs: seq<seq<byte>>): Lines {
    Lines(Positions(p, hs), Some(p + |HeaderLines(hs)| + 1))
  }

  lemma HeaderParsed(mem: seq<byte>, p: nat, hs: seq<seq<byte>>, more: seq<byte>, k: nat)
    requires hs != [] && 0 < p && LineAt(mem, p, hs[0], more) && mem[p - 1] == LF && IsHeaderText(hs[0])
    requires ParseFrom(mem, p + |hs[0]| + 1, |mem|, k) == BuiltLines(p + |hs[0]| + 1, hs[1..])
    ensures ParseFrom(mem, p, |mem|, k + 1) == BuiltLines(p, hs)
  {
    HeaderStep(mem, p, hs[0], more, k);
  }

  /** Header lines behind a line feed, then a blank line and what counts as a body. */
  lemma {:induction false} ParseHeaderLines(mem: seq<byte>, p: nat, hs: seq<seq<byte>>, tail: seq<byte>, k: nat)
    requires HeadersAt(mem, p, hs, tail) && |hs| < k && AllHeaders(hs)
    requires tail != [] && !IsEol(tail[0]) && !IsHeader(tail, 0, HEADER_LEN_MAX)
    ensures ParseFrom(mem, p, |mem|, k) == BuiltLines(p, hs)
    decreases |hs|
  {
    if hs == [] {
      assert mem[p..] == [] + [LF] + tail;
      BodyStep(mem, p, tail, k);
    } else {
      assert hs[0] in hs && AllHeaders(hs[1..]);
      HeadersNext(mem, p, hs, tail);
      ParseHeaderLines(mem, p + |hs[0]| + 1, hs[1..], tail, k - 1);
      HeaderParsed(mem, p, hs, HeaderLines(hs[1..]) + [LF] + tail, k - 1);
    }
  }

  lemma HeadersBehindCommand(cmd: seq<byte>, hs: seq<seq<byte>>, body: seq<byte>)
    ensures var f := Build(cmd, hs, body);
            && LineAt(f, 0, cmd, HeaderLines(hs) + [LF] + (body + [NUL]))
            && HeadersAt(f, |cmd| + 1, hs, body + [NUL])
  {
    var f := Build(cmd, hs, body);
    assert f[0..] == f;
    LineParts(f, 0, cmd, HeaderLines(hs) + [LF] + (body + [NUL]));
  }

  lemma BodyIsLast(cmd: seq<byte>, hs: seq<seq<byte>>, body: seq<byte>)
    ensures var f := Build(cmd, hs, body);
            |f| == BodyAt(cmd, hs) + |body| + 1 && f[BodyAt(cmd, hs)..] == body + [NUL]
  {
    var more, n := HeaderLines(hs) + [LF] + (body + [NUL]), |HeaderLines(hs)| + 1;
    HeadersBehindCommand(cmd, hs, body);
    SliceOfTail(Build(cmd, hs, body), |cmd| + 1, n, |more|);
    assert more[n..|more|] == body + [NUL];
  }

  /** A frame that was built from its parts is parsed into them. */
  lemma BuildIsParsed(cmd: seq<byte>, hs: seq<seq<byte>>, body: seq<byte>)
    requires Parts(cmd, hs, body)
    ensures var f := Build(cmd, hs, body);
            && Parse(f, |f|) == Lines(Positions(|cmd| + 1, hs), Some(BodyAt(cmd, hs)))
            && f[BodyAt(cmd, hs)..] == body + [NUL]
  {
    var f := Build(cmd, hs, body);
    HeadersBehindCommand(cmd, hs, body);
    BodyIsLast(cmd, hs, body);
    TextIsPassed(f, 0, cmd, HeaderLines(hs) + [LF] + (body + [NUL]));
    SameStartSameLines(f, 1, |cmd| + 1, |f|, HEADERS_MAX);
    ParseHeaderLines(f, |cmd| + 1, hs, body + [NUL], HEADERS_MAX);
  }

  // ---------------------------------------------------------------------------
  // Headers
  // ---------------------------------------------------------------------------

  /** Without its leading spaces. */
  function Strip(text: seq<byte>): seq<byte> {
    if text != [] && IsSpace(text[0]) then Strip(text[1..]) else text
  }

  /** The text behind `key` and the spaces that may follow it in the first header that starts with
      `key`. */
  function TextOf(hs: seq<seq<byte>>, key: seq<byte>): Option<seq<byte>> {
    if hs == [] then None else if key <= hs[0] then Some(Strip(hs[0][|key|..])) else TextOf(hs[1..], key)
  }

  lemma {:induction false} TextEnds(mem: seq<byte>, p: nat, h: seq<byte>, rest: seq<byte>, i: nat)
    requires LineAt(mem, p, h, rest) && IsText(h) && i <= |h|
    ensures p + i <= |mem| && LineEnd(mem, p + i) == p + |h|
    decreases |h| - i
  {
    LineParts(mem, p, h, rest);
    if i < |h| {
      assert mem[p + i] == h[i] && h[i] in h;
      TextEnds(mem, p, h, rest, i + 1);
    }
  }

  lemma {:induction false} TextOfLine(mem: seq<byte>, p: nat, h: seq<byte>, rest: seq<byte>, i: nat)
    requires LineAt(mem, p, h, rest) && IsText(h) && i <= |h| && Strip(h[i..]) != []
    ensures p + i <= |mem| && LineText(mem, p + i) == Strip(h[i..])
    decreases |h| - i
  {
    LineParts(mem, p, h, rest);
    assert mem[p + i] == h[i] == h[i..][0];
    if IsSpace(h[i]) {
      assert h[i..][1..] == h[i + 1..];
      TextOfLine(mem, p, h, rest, i + 1);
      assert SkipSpaces(mem, p + i) == SkipSpaces(mem, p + i + 1);
    } else {
      assert SkipSpaces(mem, p + i) == p + i;
      TextEnds(mem, p, h, rest, i);
      assert mem[p + i..p + |h|] == mem[p..p + |h|][i..];
    }
  }

  lemma FirstHeaderValue(mem: seq<byte>, p: nat, hdrs: seq<nat>, key: seq<byte>)
    ensures HeaderValue(mem, [p] + hdrs, key) ==
            if HasKey(mem, p, key) then Some(LineText(mem, p + |key|)) else HeaderValue(mem, hdrs, key)
  {
    assert ([p] + hdrs)[1..] == hdrs;
  }

  lemma HeaderFound(mem: seq<byte>, p: nat, h: seq<byte>, more: seq<byte>, hdrs: seq<nat>, key: seq<byte>)
    requires LineAt(mem, p, h, more) && IsText(h) && LF !in key && key <= h && Strip(h[|key|..]) != []
    ensures HeaderValue(mem, [p] + hdrs, key) == Some(Strip(h[|key|..]))
  {
    KeyOfLine(mem, p, h, more, key);
    FirstHeaderValue(mem, p, hdrs, key);
    TextOfLine(mem, p, h, more, |key|);
  }

  lemma HeaderPassed(mem: seq<byte>, p: nat, h: seq<byte>, more: seq<byte>, hdrs: seq<nat>, key: seq<byte>)
    requires LineAt(mem, p, h, more) && LF !in key && !(key <= h)
    ensures HeaderValue(mem, [p] + hdrs, key) == HeaderValue(mem, hdrs, key)
  {
    KeyOfLine(mem, p, h, more, key);
    FirstHeaderValue(mem, p, hdrs, key);
  }

  lemma FirstIsValue(mem: seq<byte>, p: nat, hs: seq<seq<byte>>, more: seq<byte>, key: seq<byte>)
    requires hs != [] && LineAt(mem, p, hs[0], more) && IsText(hs[0]) && LF !in key
    requires key <= hs[0] && TextOf(hs, key) != Some([])
    ensures HeaderValue(mem, Positions(p, hs), key) == TextOf(hs, key)
  {
    HeaderFound(mem, p, hs[0], more, Positions(p + |hs[0]| + 1, hs[1..]), key);
  }

  lemma FirstIsPassed(mem: seq<byte>, p: nat, hs: seq<seq<byte>>, more: seq<byte>, key: seq<byte>, r: nat)
    requires hs != [] && LineAt(mem, p, hs[0], more) && LF !in key && !(key <= hs[0]) && r == p + |hs[0]| + 1
    ensures HeaderValue(mem, Positions(p, hs), key) == HeaderValue(mem, Positions(r, hs[1..]), key)
    ensures TextOf(hs, key) == TextOf(hs[1..], key)
  {
    HeaderPassed(mem, p, hs[0], more, Positions(r, hs[1..]), key);
  }

  /** A header is found under its key with its text, unless that is empty. */
  lemma {:induction false} BuiltHeaderValue(mem: seq<byte>, p: nat, hs: seq<seq<byte>>, rest: seq<byte>,
                                            key: seq<byte>)
    requires HeadersAt(mem, p, hs, rest) && LF !in key && AllHeaders(hs)
    requires TextOf(hs, key) != Some([])
    ensures HeaderValue(mem, Positions(p, hs), key) == TextOf(hs, key)
    decreases |hs|
  {
    if hs != [] {
      assert hs[0] in hs;
      HeadersNext(mem, p, hs, rest);
      if key <= hs[0] {
        FirstIsValue(mem, p, hs, HeaderLines(hs[1..]) + [LF] + rest, key);
      } else {
        var r := p + |hs[0]| + 1;
        FirstIsPassed(mem, p, hs, HeaderLines(hs[1..]) + [LF] + rest, key, r);
        BuiltHeaderValue(mem, r, hs[1..], rest, key);
      }
    }
  }

  // ---------------------------------------------------------------------------
  // Framing
  // ---------------------------------------------------------------------------

  lemma {:induction false} HeaderLinesAreText(hs: seq<seq<byte>>)
    requires AllHeaders(hs)
    ensures NUL !in HeaderLines(hs)
  {
    if hs != [] {
      assert hs[0] in hs && AllHeaders(hs[1..]);
      HeaderLinesAreText(hs[1..]);
    }
  }

  /** The first NUL of a frame is the first one behind its header lines. */
  lemma NulBehindHeaders(cmd: seq<byte>, hs: seq<seq<byte>>, body: seq<byte>)
    requires Parts(cmd, hs, body)
    ensures var f := Build(cmd, hs, body);
            && NulTerminated(f) && BodyAt(cmd, hs) <= Terminator(f)
            && (OneNul(f) <==> NUL !in body)
  {
    var f, front := Build(cmd, hs, body), cmd + [LF] + HeaderLines(hs) + [LF];
    HeaderLinesAreText(hs);
    ConcatAssoc(cmd + [LF], HeaderLines(hs) + [LF], body + [NUL]);
    ConcatAssoc(cmd + [LF], HeaderLines(hs), [LF]);
    assert f == front + (body + [NUL]);
    forall j | 0 <= j < |front|
      ensures f[j] != NUL
    {
      assert f[j] == front[j] && front[j] in front;
    }
    forall j | 0 <= j < |body|
      ensures f[|front| + j] == body[j] && body[j] in body
    {
    }
    var z := Terminator(f);
    if NUL in body {
      var i :| 0 <= i < |body| && body[i] == NUL;
      assert f[|front| + i] == NUL;
    } else {
      assert z >= |front| + |body|;
    }
  }

  /** The number that a client wrote into the content-length, if any. */
  function NumberOf(hs: seq<seq<byte>>): Option<int> {
    match TextOf(hs, CONTENT_LENGTH)
    case None => None
    case Some(w) => Number(w)
  }

  lemma BuiltEstimate(cmd: seq<byte>, hs: seq<seq<byte>>, body: seq<byte>)
    requires Parts(cmd, hs, body) && TextOf(hs, CONTENT_LENGTH) != Some([])
    ensures var f := Build(cmd, hs, body);
            EstimLen(f, |f|) == Estimate(NumberOf(hs), Some(BodyAt(cmd, hs)))
  {
    BuildIsParsed(cmd, hs, body);
    HeadersBehindCommand(cmd, hs, body);
    BuiltHeaderValue(Build(cmd, hs, body), |cmd| + 1, hs, body + [NUL], CONTENT_LENGTH);
  }

  lemma NumberIsInt(w: seq<byte>)
    ensures Number(w).Some? ==> -INT_MAX - 1 <= Number(w).value <= INT_MAX
  {
  }

  /** A frame is well-framed exactly if a content-length that counts is the length of the body, or
      without one if the body has no NUL. */
  lemma BuiltFrame(cmd: seq<byte>, hs: seq<seq<byte>>, body: seq<byte>)
    requires Parts(cmd, hs, body) && TextOf(hs, CONTENT_LENGTH) != Some([])
    ensures var f, n := Build(cmd, hs, body), NumberOf(hs);
            WellFramed(f) <==>
            && |f| <= INT_MAX
            && if n.Some? && ToInt(BodyAt(cmd, hs) + n.value + 1) > 0 then n.value == |body| else NUL !in body
  {
    var f, n := Build(cmd, hs, body), NumberOf(hs);
    BuildIsParsed(cmd, hs, body);
    BodyIsLast(cmd, hs, body);
    NulBehindHeaders(cmd, hs, body);
    BuiltEstimate(cmd, hs, body);
    FramedWithBody(f, Estimate(n, Some(BodyAt(cmd, hs))));
    if TextOf(hs, CONTENT_LENGTH).Some? {
      NumberIsInt(TextOf(hs, CONTENT_LENGTH).value);
    }
  }

  lemma NumberOfDigits(n: nat)
    requires n <= INT_MAX
    ensures Number(Digits(n)) == Some(n)
  {
    DigitsRoundTrip(n);
    assert Digits(n)[0] in Digits(n);
  }

  /** With a printed content-length of a size that counts exactly the length of the body will do, and
      then the body may hold any bytes. */
  lemma SizedFrame(cmd: seq<byte>, hs: seq<seq<byte>>, body: seq<byte>, n: nat)
    requires Parts(cmd, hs, body) && TextOf(hs, CONTENT_LENGTH) == Some(Digits(n))
    requires BodyAt(cmd, hs) + n < INT_MAX
    ensures WellFramed(Build(cmd, hs, body)) <==> n == |body|
  {
    BuiltFrame(cmd, hs, body);
    BodyIsLast(cmd, hs, body);
    NumberOfDigits(n);
  }

  // ---------------------------------------------------------------------------
  // Forwarding
  // ---------------------------------------------------------------------------

  /** "MESSAGE". */
  const MESSAGE_COMMAND: seq<byte> := MESSAGE[..7]

  lemma {:induction false} LineFeedEnds(f: seq<byte>, cmd: seq<byte>, more: seq<byte>, i: nat)
    requires f == cmd + [LF] + more && IsText(cmd) && i <= |cmd|
    ensures FindChar(f, i, LF) == Some(|cmd|)
    decreases |cmd| - i
  {
    if i < |cmd| {
      assert f[i] == cmd[i] && cmd[i] in cmd;
      LineFeedEnds(f, cmd, more, i + 1);
    }
  }

  /** Forwarding puts the message-id in front of the headers of the client, and changes nothing
      else but the command. */
  lemma ForwardedBuild(cmd: seq<byte>, hs: seq<seq<byte>>, body: seq<byte>, id: nat)
    requires IsText(cmd)
    ensures Forwarded(Build(cmd, hs, body), id) == Some(Build(MESSAGE_COMMAND, [IdLine(id)] + hs, body))
  {
    var f, more := Build(cmd, hs, body), HeaderLines(hs) + [LF] + (body + [NUL]);
    LineFeedEnds(f, cmd, more, 0);
    HeadersBehindCommand(cmd, hs, body);
    var idLine := IdLine(id);
    assert ([idLine] + hs)[1..] == hs;
    var first := MESSAGE_COMMAND + [LF];
    assert MESSAGE == first;
    assert MessageHeader(id) == first + (idLine + [LF]);
    HeaderLinesNext([idLine] + hs, body + [NUL]);
    ConcatAssoc(first, idLine + [LF], more);
  }

  /** So up to six headers leave room for the message-id: the message is built from parts again. */
  lemma {:induction false} ForwardedIsBuilt(cmd: seq<byte>, hs: seq<seq<byte>>, body: seq<byte>, id: nat)
    requires Parts(cmd, hs, body) && |hs| < HEADERS_MAX - 1
    ensures Parts(MESSAGE_COMMAND, [IdLine(id)] + hs, body)
    ensures TextOf([IdLine(id)] + hs, CONTENT_LENGTH) == TextOf(hs, CONTENT_LENGTH)
  {
    var idLine := IdLine(id);
    forall b | b in idLine
      ensures b != NUL && b != LF && b != CR
    {
      assert b in MESSAGE_ID || b in Digits(id);
    }
    assert idLine[10] == COLON;
    var front := idLine[..if |idLine| < HEADER_LEN_MAX then |idLine| else HEADER_LEN_MAX];
    assert front[10] == COLON;
    assert IsHeaderText(idLine);
    assert ([idLine] + hs)[1..] == hs;
    assert idLine[0] != CONTENT_LENGTH[0];
  }

  /** End to end for what a client writes: with up to six headers, a body without a NUL or an exact
      content-length, the message is a well-framed frame of the same headers and body. */
  lemma {:induction false} ClientFrameForwarded(cmd: seq<byte>, hs: seq<seq<byte>>, body: seq<byte>, id: nat)
    requires Parts(cmd, hs, body) && |hs| < HEADERS_MAX - 1
    requires if TextOf(hs, CONTENT_LENGTH).None? then NUL !in body
             else TextOf(hs, CONTENT_LENGTH) == Some(Digits(|body|))
    requires BodyAt(MESSAGE_COMMAND, [IdLine(id)] + hs) + |body| < INT_MAX
    ensures var g := Forwarded(Build(cmd, hs, body), id);
            g.Some? && WellFramed(g.value) && g.value == Build(MESSAGE_COMMAND, [IdLine(id)] + hs, body)
  {
    var hs' := [IdLine(id)] + hs;
    ForwardedBuild(cmd, hs, body, id);
    ForwardedIsBuilt(cmd, hs, body, id);
    if TextOf(hs, CONTENT_LENGTH).None? {
      BuiltFrame(MESSAGE_COMMAND, hs', body);
      BodyIsLast(MESSAGE_COMMAND, hs', body);
    } else {
      SizedFrame(MESSAGE_COMMAND, hs', body, |body|);
    }
  }
}
