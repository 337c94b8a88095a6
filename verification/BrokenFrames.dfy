/** Frames that the broker does not get right, byte by byte, and what they fail on. */
module BrokenFrames {
  import opened Bytes
  import opened Frames
  import opened Framing
  import opened Forwarding
  import opened Building

  /** "A", a content-length of 5 and a NUL: a number that counts, without a body. */
  const NUMBER_FRAME: seq<byte> := [65, LF] + CONTENT_LENGTH + [53, NUL]

  lemma NumberFrameParts()
    ensures var f := NUMBER_FRAME;
            && |f| == 19 && NulTerminated(f) && Parse(f, |f|) == Lines([2], None)
            && HeaderValue(f, [2], CONTENT_LENGTH) == Some([53])
  {
    var f := NUMBER_FRAME;
    assert forall j :: 0 <= j < 15 ==> f[2 + j] == CONTENT_LENGTH[j];
    HeaderByColon(f, 2, 16, HEADER_LEN_MAX);
    SkipEols(f, 1, 2, |f|);
    SkipLine(f, 3, 18, |f|);
    assert NextStart(f, 18, |f|) == None;
    ParseHeader(f, 1, |f|, HEADERS_MAX - 1, 2);
    assert f[2..17] == CONTENT_LENGTH;
    assert SkipSpaces(f, 17) == 17;
    assert LineEnd(f, 18) == 18 == LineEnd(f, 17);
    assert f[17..18] == [53];
  }

  /** It is taken for a longer frame once something follows it. */
  lemma NumberFrameBreaks() returns (mem: seq<byte>)
    ensures Breaks(NUMBER_FRAME, mem, |mem|)
  {
    NumberFrameParts();
    assert [53 as byte][..0] == [];
    assert Decimal([53]) == 5;
    assert Number([53]) == Some(5);
    mem := BreaksOnNumber(NUMBER_FRAME, 5);
  }

  /** "A" with a content-length of 9 and an empty body. */
  const SHORT_FRAME: seq<byte> := Build([65], [CONTENT_LENGTH + [57]], [])

  lemma ContentLengthIsHeader(n: byte)
    requires IsDigit(n)
    ensures IsHeaderText(CONTENT_LENGTH + [n]) && TextOf([CONTENT_LENGTH + [n]], CONTENT_LENGTH) == Some([n])
  {
    var h := CONTENT_LENGTH + [n];
    assert h[..if |h| < HEADER_LEN_MAX then |h| else HEADER_LEN_MAX][14] == COLON;
    assert h[|CONTENT_LENGTH|..] == [n];
  }

  /** It is not taken for a frame when it is there. */
  lemma ShortFrameBreaks() returns (len: nat)
    ensures Breaks(SHORT_FRAME, SHORT_FRAME, len)
  {
    var hs := [CONTENT_LENGTH + [57]];
    ContentLengthIsHeader(57);
    assert Parts([65], hs, []);
    NumberOfDigits(9);
    assert Digits(9) == [57];
    assert |HeaderLines(hs)| == 17;
    SizedFrame([65], hs, [], 9);
    BuildIsParsed([65], hs, []);
    NulBehindHeaders([65], hs, []);
    len := BreaksWithBody(SHORT_FRAME);
  }

  /** A frame with seven headers is forwarded as a frame exactly if its body has no NUL, whatever its
      content-length says. */
  lemma SevenHeadersSurvive(cmd: seq<byte>, hs: seq<seq<byte>>, body: seq<byte>, id: nat)
    requires Parts(cmd, hs, body) && |hs| == HEADERS_MAX - 1 && WellFramed(Build(cmd, hs, body))
    requires |MessageHeader(id)| + |Build(cmd, hs, body)| <= INT_MAX
    ensures WellFramed(Build(MESSAGE_COMMAND, [IdLine(id)] + hs, body)) <==> NUL !in body
  {
    var f, c := Build(cmd, hs, body), |cmd| + 1;
    ForwardedBuild(cmd, hs, body, id);
    BuildIsParsed(cmd, hs, body);
    NulBehindHeaders(cmd, hs, body);
    ForwardedIsFramed(f, id, c);
    FullFrameSurvives(f, id, c);
  }

  const SHORT_HEADER: seq<byte> := [97, COLON]

  /** A content-length of 1 and six more headers. */
  const SEVEN_HEADERS: seq<seq<byte>> :=
    [CONTENT_LENGTH + [49], SHORT_HEADER, SHORT_HEADER, SHORT_HEADER, SHORT_HEADER, SHORT_HEADER, SHORT_HEADER]

  lemma SevenHeadersLength()
    ensures |HeaderLines(SEVEN_HEADERS)| == 35
  {
    var hs := SEVEN_HEADERS;
    assert |HeaderLines(hs[7..])| == 0;
    assert hs[6..][1..] == hs[7..] && |HeaderLines(hs[6..])| == 3;
    assert hs[5..][1..] == hs[6..] && |HeaderLines(hs[5..])| == 6;
    assert hs[4..][1..] == hs[5..] && |HeaderLines(hs[4..])| == 9;
    assert hs[3..][1..] == hs[4..] && |HeaderLines(hs[3..])| == 12;
    assert hs[2..][1..] == hs[3..] && |HeaderLines(hs[2..])| == 15;
    assert hs[1..][1..] == hs[2..] && |HeaderLines(hs[1..])| == 18;
  }

  /** With these headers and a NUL for a body a frame is well-framed, and its message is not. */
  lemma SevenHeadersBreak(id: nat)
    requires id < WORD
    ensures WellFramed(Build([65], SEVEN_HEADERS, [NUL]))
    ensures var g := Forwarded(Build([65], SEVEN_HEADERS, [NUL]), id); g.Some? && !WellFramed(g.value)
  {
    var hs := SEVEN_HEADERS;
    ContentLengthIsHeader(49);
    assert IsHeaderText(SHORT_HEADER) by {
      assert SHORT_HEADER[..2][1] == COLON;
    }
    assert Parts([65], hs, [NUL]);
    assert TextOf(hs, CONTENT_LENGTH) == Some([49]) && Digits(1) == [49];
    SevenHeadersLength();
    SizedFrame([65], hs, [NUL], 1);
    ForwardedBuild([65], hs, [NUL], id);
    BodyIsLast([65], hs, [NUL]);
    MessageLength(Build([65], hs, [NUL]), id);
    SevenHeadersSurvive([65], hs, [NUL], id);
  }
}
