/**
 * Frames as they come over the wire, with line ends of CR and LF in any mix, and what is read from
 * their headers. Everything about the input is said in terms of its bytes.
 */
module Headers {
  import opened Bytes
  import opened Frames
  import opened Framing
  import opened Forwarding
  import opened Building
  import opened Protocol

  /** A line without its end, and the line ends behind it: blank lines are more of those. */
  datatype Line = Line(text: seq<byte>, end: seq<byte>)

  predicate IsLine(l: Line) {
    && l.text != [] && (forall b :: b in l.text ==> b != 0 && b != 10 && b != 13)
    && l.end != [] && (forall b :: b in l.end ==> b == 10 || b == 13)
  }

  /** There is a colon among the first eighty bytes, and no NUL, LF or CR before it. */
  ghost predicate ShowsColon(line: seq<byte>) {
    exists c :: 0 <= c < |line| && c < 80 && line[c] == 58
                && forall j :: 0 <= j < c ==> line[j] != 0 && line[j] != 10 && line[j] != 13
  }

  function Lay(ls: seq<Line>): seq<byte> {
    if ls == [] then [] else ls[0].text + ls[0].end + Lay(ls[1..])
  }

  /** A command line, header lines and a body with its NUL. */
  function Wire(ls: seq<Line>, body: seq<byte>): seq<byte> {
    Lay(ls) + (body + [0])
  }

  ghost predicate AreHeaders(ls: seq<Line>) {
    forall i :: 0 <= i < |ls| ==> IsLine(ls[i]) && ShowsColon(ls[i].text)
  }

  /** What starts a body: neither a line end nor a header. */
  ghost predicate StartsBody(tail: seq<byte>) {
    tail != [] && tail[0] != 10 && tail[0] != 13 && !ShowsColon(tail)
  }

  /** Up to seven headers. */
  ghost predicate WellWritten(ls: seq<Line>, body: seq<byte>) {
    0 < |ls| <= 8 && IsLine(ls[0]) && AreHeaders(ls[1..]) && StartsBody(body + [0])
  }

  // ---------------------------------------------------------------------------
  // Lines
  // ---------------------------------------------------------------------------

  /** stomp_is_header, in terms of bytes. */
  lemma {:induction false} HeaderShowsColon(mem: seq<byte>, p: nat, n: nat)
    requires p <= |mem|
    ensures IsHeader(mem, p, n) <==>
            exists c :: p <= c < |mem| && c < p + n && mem[c] == 58
                        && forall j :: p <= j < c ==> mem[j] != 0 && mem[j] != 10 && mem[j] != 13
    decreases n
  {
    if 0 < n && p < |mem| {
      HeaderShowsColon(mem, p + 1, n - 1);
    }
  }

  lemma HeaderAt(mem: seq<byte>, p: nat, line: seq<byte>, more: seq<byte>)
    requires p <= |mem| && mem[p..] == line + more && ShowsColon(line)
    ensures IsHeader(mem, p, HEADER_LEN_MAX)
  {
    var c :| 0 <= c < |line| && c < 80 && line[c] == 58
             && forall j :: 0 <= j < c ==> line[j] != 0 && line[j] != 10 && line[j] != 13;
    assert forall j :: 0 <= j <= c ==> mem[p + j] == mem[p..][j] == line[j];
    HeaderShowsColon(mem, p, HEADER_LEN_MAX);
    assert mem[p + c] == 58;
  }

  lemma NoHeaderAt(mem: seq<byte>, p: nat, tail: seq<byte>)
    requires p <= |mem| && mem[p..] == tail && !ShowsColon(tail)
    ensures !IsHeader(mem, p, HEADER_LEN_MAX)
  {
    HeaderShowsColon(mem, p, HEADER_LEN_MAX);
    forall c | p <= c < |mem| && c < p + HEADER_LEN_MAX && mem[c] == 58
      ensures exists j :: p <= j < c && (mem[j] == 0 || mem[j] == 10 || mem[j] == 13)
    {
      assert tail[c - p] == 58;
      var j :| 0 <= j < c - p && (tail[j] == 0 || tail[j] == 10 || tail[j] == 13);
      assert mem[p + j] == tail[j];
    }
  }

  /** At `p` memory has a line, and then `more`. */
  ghost predicate WireAt(mem: seq<byte>, p: nat, l: Line, more: seq<byte>) {
    p <= |mem| && mem[p..] == l.text + l.end + more && IsLine(l)
  }

  lemma WireParts(mem: seq<byte>, p: nat, l: Line, more: seq<byte>)
    requires WireAt(mem, p, l, more)
    ensures var q, r := p + |l.text|, p + |l.text| + |l.end|;
            && r <= |mem| && mem[r..] == more && mem[p..q] == l.text && p < q < r
            && (forall j :: p <= j < q ==> mem[j] == l.text[j - p] && mem[j] != 0 && mem[j] != 10 && mem[j] != 13)
            && (forall j :: q <= j < r ==> mem[j] == 10 || mem[j] == 13)
  {
    var m := mem[p..];
    assert |m| == |l.text| + |l.end| + |more|;
    forall j | p <= j < p + |l.text|
      ensures mem[j] == l.text[j - p] && mem[j] != 0 && mem[j] != 10 && mem[j] != 13
    {
      assert mem[j] == m[j - p] == l.text[j - p] && l.text[j - p] in l.text;
    }
    forall j | p + |l.text| <= j < p + |l.text| + |l.end|
      ensures mem[j] == 10 || mem[j] == 13
    {
      var i := j - p - |l.text|;
      assert mem[j] == m[j - p] == l.end[i] && l.end[i] in l.end;
    }
  }

  /** The next line start behind the first byte of a line is behind its line ends. */
  lemma NextBehind(mem: seq<byte>, p: nat, l: Line, more: seq<byte>)
    requires WireAt(mem, p, l, more) && more != [] && more[0] != 10 && more[0] != 13
    ensures NextStart(mem, p + 1, |mem|) == Some(p + |l.text| + |l.end|)
  {
    WireParts(mem, p, l, more);
    var q, r := p + |l.text|, p + |l.text| + |l.end|;
    assert mem[r] == mem[r..][0];
    SkipLine(mem, p + 1, q, |mem|);
    SkipEols(mem, q, r, |mem|);
  }

  lemma LayStarts(ls: seq<Line>, tail: seq<byte>)
    requires AreHeaders(ls) && StartsBody(tail)
    ensures var m := Lay(ls) + tail; m != [] && m[0] != 10 && m[0] != 13
  {
    if ls != [] {
      assert IsLine(ls[0]);
      assert (Lay(ls) + tail)[0] == ls[0].text[0] && ls[0].text[0] in ls[0].text;
    }
  }

  // ---------------------------------------------------------------------------
  // Parsing
  // ---------------------------------------------------------------------------

  /** Where the lines start, from `p` on. */
  function Starts(p: nat, ls: seq<Line>): (r: seq<nat>)
    ensures |r| == |ls|
    decreases |ls|
  {
    if ls == [] then [] else [p] + Starts(p + |ls[0].text| + |ls[0].end|, ls[1..])
  }

  /** At `p`, behind a line end, memory has these headers and then `tail`. */
  ghost predicate LaidAt(mem: seq<byte>, p: nat, ls: seq<Line>, tail: seq<byte>) {
    && 0 < p <= |mem| && (mem[p - 1] == 10 || mem[p - 1] == 13) && mem[p..] == Lay(ls) + tail
    && AreHeaders(ls) && StartsBody(tail)
  }

  lemma LaidNext(mem: seq<byte>, p: nat, ls: seq<Line>, tail: seq<byte>)
    requires LaidAt(mem, p, ls, tail) && ls != []
    ensures WireAt(mem, p, ls[0], Lay(ls[1..]) + tail)
    ensures LaidAt(mem, p + |ls[0].text| + |ls[0].end|, ls[1..], tail)
    ensures var m := Lay(ls[1..]) + tail; m != [] && m[0] != 10 && m[0] != 13
  {
    assert IsLine(ls[0]);
    ConcatAssoc(ls[0].text + ls[0].end, Lay(ls[1..]), tail);
    WireParts(mem, p, ls[0], Lay(ls[1..]) + tail);
    assert AreHeaders(ls[1..]) by {
      assert forall i :: 0 <= i < |ls[1..]| ==> ls[1..][i] == ls[i + 1];
    }
    LayStarts(ls[1..], tail);
  }

  lemma LaidRest(mem: seq<byte>, p: nat, ls: seq<Line>, tail: seq<byte>, r: nat)
    requires LaidAt(mem, p, ls, tail) && ls != [] && r == p + |ls[0].text| + |ls[0].end|
    ensures LaidAt(mem, r, ls[1..], tail)
  {
    LaidNext(mem, p, ls, tail);
  }

  lemma LineIsHeader(mem: seq<byte>, p: nat, l: Line, more: seq<byte>)
    requires WireAt(mem, p, l, more) && ShowsColon(l.text)
    ensures IsHeader(mem, p, HEADER_LEN_MAX)
  {
    ConcatAssoc(l.text, l.end, more);
    HeaderAt(mem, p, l.text, l.end + more);
  }

  lemma LineParsed(mem: seq<byte>, p: nat, l: Line, more: seq<byte>, k: nat)
    requires 0 < p && WireAt(mem, p, l, more) && ShowsColon(l.text) && (mem[p - 1] == 10 || mem[p - 1] == 13)
    requires more != [] && more[0] != 10 && more[0] != 13
    ensures var rest := ParseFrom(mem, p + |l.text| + |l.end|, |mem|, k);
            ParseFrom(mem, p, |mem|, k + 1) == Lines([p] + rest.hdrs, rest.body)
  {
    var r := p + |l.text| + |l.end|;
    WireParts(mem, p, l, more);
    LineIsHeader(mem, p, l, more);
    NextBehind(mem, p, l, more);
    assert mem[r] == mem[r..][0];
    SameStartSameLines(mem, p + 1, r, |mem|, k);
    ParseHeader(mem, p, |mem|, k, p);
  }

  lemma LaidHeader(mem: seq<byte>, p: nat, ls: seq<Line>, tail: seq<byte>, k: nat)
    requires LaidAt(mem, p, ls, tail) && ls != []
    ensures var rest := ParseFrom(mem, p + |ls[0].text| + |ls[0].end|, |mem|, k);
            ParseFrom(mem, p, |mem|, k + 1) == Lines([p] + rest.hdrs, rest.body)
  {
    LaidNext(mem, p, ls, tail);
    assert ShowsColon(ls[0].text);
    LineParsed(mem, p, ls[0], Lay(ls[1..]) + tail, k);
  }

  lemma LaidBody(mem: seq<byte>, p: nat, tail: seq<byte>, k: nat)
    requires LaidAt(mem, p, [], tail) && 0 < k
    ensures ParseFrom(mem, p, |mem|, k) == Lines([], Some(p))
  {
    assert mem[p..] == tail && mem[p] == mem[p..][0];
    NoHeaderAt(mem, p, tail);
  }

  /** The lines from `p` on are parsed into these headers, with `k` entries left. */
  ghost predicate AreParsed(mem: seq<byte>, p: nat, ls: seq<Line>, k: nat) {
    p <= |mem| && ParseFrom(mem, p, |mem|, k) == Lines(Starts(p, ls), Some(p + |Lay(ls)|))
  }

  lemma LaidStep(mem: seq<byte>, p: nat, ls: seq<Line>, tail: seq<byte>, k: nat, r: nat)
    requires LaidAt(mem, p, ls, tail) && ls != [] && 0 < k && r == p + |ls[0].text| + |ls[0].end|
    requires AreParsed(mem, r, ls[1..], k - 1)
    ensures AreParsed(mem, p, ls, k)
  {
    LaidHeader(mem, p, ls, tail, k - 1);
  }

  lemma LaidEnd(mem: seq<byte>, p: nat, tail: seq<byte>, k: nat)
    requires LaidAt(mem, p, [], tail) && 0 < k
    ensures AreParsed(mem, p, [], k)
  {
    LaidBody(mem, p, tail, k);
  }

  lemma {:induction false} LaidIsParsed(mem: seq<byte>, p: nat, ls: seq<Line>, tail: seq<byte>, k: nat)
    requires LaidAt(mem, p, ls, tail) && |ls| < k
    ensures AreParsed(mem, p, ls, k)
    decreases |ls|
  {
    if ls == [] {
      LaidEnd(mem, p, tail, k);
    } else {
      var r := p + |ls[0].text| + |ls[0].end|;
      LaidRest(mem, p, ls, tail, r);
      LaidIsParsed(mem, r, ls[1..], tail, k - 1);
      LaidStep(mem, p, ls, tail, k, r);
    }
  }

  /** From `p` on all the `k` entries left are used, and no body is found. */
  ghost predicate AreFull(mem: seq<byte>, p: nat, k: nat) {
    p <= |mem| && |ParseFrom(mem, p, |mem|, k).hdrs| == k && ParseFrom(mem, p, |mem|, k).body.None?
  }

  lemma LaidTakes(mem: seq<byte>, p: nat, ls: seq<Line>, tail: seq<byte>, k: nat, r: nat)
    requires LaidAt(mem, p, ls, tail) && ls != [] && 0 < k && r == p + |ls[0].text| + |ls[0].end|
    requires AreFull(mem, r, k - 1)
    ensures AreFull(mem, p, k)
  {
    LaidHeader(mem, p, ls, tail, k - 1);
  }

  lemma {:induction false} LaidFills(mem: seq<byte>, p: nat, ls: seq<Line>, tail: seq<byte>, k: nat)
    requires LaidAt(mem, p, ls, tail) && k <= |ls|
    ensures AreFull(mem, p, k)
    decreases |ls|
  {
    if k > 0 {
      var r := p + |ls[0].text| + |ls[0].end|;
      LaidRest(mem, p, ls, tail, r);
      LaidFills(mem, r, ls[1..], tail, k - 1);
      LaidTakes(mem, p, ls, tail, k, r);
    }
  }

  lemma FrameIsLaid(f: seq<byte>, l: Line, hs: seq<Line>, tail: seq<byte>)
    requires f == l.text + l.end + (Lay(hs) + tail) && IsLine(l) && AreHeaders(hs) && StartsBody(tail)
    ensures var p := |l.text| + |l.end|; LaidAt(f, p, hs, tail) && NextStart(f, 1, |f|) == Some(p)
  {
    assert f[0..] == f;
    WireParts(f, 0, l, Lay(hs) + tail);
    LayStarts(hs, tail);
    NextBehind(f, 0, l, Lay(hs) + tail);
  }

  lemma WireIsLaid(ls: seq<Line>, body: seq<byte>)
    requires WellWritten(ls, body)
    ensures var p, f := |ls[0].text| + |ls[0].end|, Wire(ls, body);
            LaidAt(f, p, ls[1..], body + [0]) && NextStart(f, 1, |f|) == Some(p)
  {
    ConcatAssoc(ls[0].text + ls[0].end, Lay(ls[1..]), body + [0]);
    FrameIsLaid(Wire(ls, body), ls[0], ls[1..], body + [0]);
  }

  lemma FrameIsParsed(f: seq<byte>, p: nat, hs: seq<Line>, tail: seq<byte>)
    requires LaidAt(f, p, hs, tail) && NextStart(f, 1, |f|) == Some(p) && |hs| < 8
    ensures Parse(f, |f|) == Lines(Starts(p, hs), Some(p + |Lay(hs)|))
    ensures p + |Lay(hs)| <= |f| && f[p + |Lay(hs)|..] == tail
  {
    LaidIsParsed(f, p, hs, tail, HEADERS_MAX);
    assert f[p] == f[p..][0];
    LayStarts(hs, tail);
    SameStartSameLines(f, 1, p, |f|, HEADERS_MAX);
    SliceOfTail(f, p, |Lay(hs)|, |f| - p);
  }

  /** The whole of `f` is a command line with its headers, and then `tail`. */
  ghost predicate IsFrameOf(f: seq<byte>, ls: seq<Line>, tail: seq<byte>) {
    && 0 < |ls| <= 8 && LaidAt(f, |ls[0].text| + |ls[0].end|, ls[1..], tail)
    && NextStart(f, 1, |f|) == Some(|ls[0].text| + |ls[0].end|)
  }

  lemma LinesOfFrame(f: seq<byte>, ls: seq<Line>, tail: seq<byte>)
    requires IsFrameOf(f, ls, tail)
    ensures Parse(f, |f|) == Lines(Starts(|ls[0].text| + |ls[0].end|, ls[1..]), Some(|Lay(ls)|))
    ensures |Lay(ls)| <= |f| && f[|Lay(ls)|..] == tail
  {
    FrameIsParsed(f, |ls[0].text| + |ls[0].end|, ls[1..], tail);
    assert |Lay(ls)| == |ls[0].text| + |ls[0].end| + |Lay(ls[1..])|;
  }

  lemma WireIsFrame(ls: seq<Line>, body: seq<byte>)
    requires WellWritten(ls, body)
    ensures IsFrameOf(Wire(ls, body), ls, body + [0])
  {
    WireIsLaid(ls, body);
  }

  /** Whatever the line ends, a frame is parsed into its headers and its body. */
  lemma WireIsParsed(ls: seq<Line>, body: seq<byte>)
    requires WellWritten(ls, body)
    ensures var f := Wire(ls, body);
            && Parse(f, |f|) == Lines(Starts(|ls[0].text| + |ls[0].end|, ls[1..]), Some(|Lay(ls)|))
            && f[|Lay(ls)|..] == body + [0]
  {
    WireIsFrame(ls, body);
    LinesOfFrame(Wire(ls, body), ls, body + [0]);
  }

  /** Eight headers or more fill the eight entries, and then no body is found. */
  lemma EightHeaders(l: Line, hs: seq<Line>, body: seq<byte>)
    requires IsLine(l) && AreHeaders(hs) && StartsBody(body + [0]) && |hs| >= 8
    ensures var f := Wire([l] + hs, body); |Parse(f, |f|).hdrs| == 8 && Parse(f, |f|).body.None?
  {
    var f, p := Wire([l] + hs, body), |l.text| + |l.end|;
    assert ([l] + hs)[1..] == hs;
    ConcatAssoc(l.text + l.end, Lay(hs), body + [0]);
    FrameIsLaid(f, l, hs, body + [0]);
    LayStarts(hs, body + [0]);
    assert f[p] == f[p..][0];
    SameStartSameLines(f, 1, p, |f|, HEADERS_MAX);
    LaidFills(f, p, hs, body + [0], HEADERS_MAX);
  }

  // ---------------------------------------------------------------------------
  // Values
  // ---------------------------------------------------------------------------

  /** Blanks, tabs, vertical tabs and form feeds. */
  predicate AreBlanks(blanks: seq<byte>) {
    forall b :: b in blanks ==> b == 9 || b == 11 || b == 12 || b == 32
  }

  /** A value that starts with none of those, and not with a line end. */
  predicate IsValue(text: seq<byte>) {
    && text != [] && text[0] != 9 && text[0] != 11 && text[0] != 12 && text[0] != 32
    && (forall b :: b in text ==> b != 0 && b != 10 && b != 13)
  }

  lemma {:induction false} BlanksAreSkipped(mem: seq<byte>, p: nat, q: nat)
    requires p <= q < |mem| && mem[q] !in [9, 10, 11, 12, 13, 32]
    requires forall j :: p <= j < q ==> mem[j] in [9, 10, 11, 12, 13, 32]
    ensures SkipSpaces(mem, p) == q
    decreases q - p
  {
    if p < q {
      assert IsSpace(mem[p]);
      BlanksAreSkipped(mem, p + 1, q);
    }
  }

  lemma {:induction false} ValueEnds(mem: seq<byte>, p: nat, q: nat)
    requires p <= q < |mem| && mem[q] in [0, 10, 13]
    requires forall j :: p <= j < q ==> mem[j] != 0 && mem[j] != 10 && mem[j] != 13
    ensures LineEnd(mem, p) == q
    decreases q - p
  {
    if p < q {
      ValueEnds(mem, p + 1, q);
    }
  }

  lemma LineSlices(mem: seq<byte>, p: nat, l: Line, more: seq<byte>, key: seq<byte>, blanks: seq<byte>, text: seq<byte>)
    requires WireAt(mem, p, l, more) && l.text == key + blanks + text
    ensures p + |l.text| <= |mem| && mem[p..p + |key|] == key
    ensures mem[p + |key|..p + |key| + |blanks|] == blanks
    ensures mem[p + |key| + |blanks|..p + |l.text|] == text
  {
    WireParts(mem, p, l, more);
    var line := mem[p..p + |l.text|];
    assert mem[p..p + |key|] == line[..|key|] == key;
    assert mem[p + |key|..p + |key| + |blanks|] == line[|key|..|key| + |blanks|] == blanks;
    assert mem[p + |key| + |blanks|..p + |l.text|] == line[|key| + |blanks|..] == text;
  }

  /** The value is behind everything that isspace() knows, line ends included. */
  lemma ValueAt(mem: seq<byte>, a: nat, b: nat, q: nat)
    requires a <= b < q < |mem| && IsValue(mem[b..q]) && mem[q] in [0, 10, 13]
    requires forall j :: a <= j < b ==> mem[j] in [9, 10, 11, 12, 13, 32]
    ensures LineText(mem, a) == mem[b..q]
  {
    forall j | b <= j < q
      ensures mem[j] != 0 && mem[j] != 10 && mem[j] != 13
    {
      assert mem[j] == mem[b..q][j - b] && mem[j] in mem[b..q];
    }
    assert mem[b] == mem[b..q][0];
    BlanksAreSkipped(mem, a, b);
    ValueEnds(mem, b, q);
  }

  lemma BlankBytes(mem: seq<byte>, a: nat, b: nat)
    requires a <= b <= |mem| && AreBlanks(mem[a..b])
    ensures forall j :: a <= j < b ==> mem[j] in [9, 10, 11, 12, 13, 32]
  {
    forall j | a <= j < b
      ensures mem[j] in [9, 10, 11, 12, 13, 32]
    {
      assert mem[j] == mem[a..b][j - a] && mem[j] in mem[a..b];
    }
  }

  lemma ValueOfLine(mem: seq<byte>, p: nat, l: Line, more: seq<byte>, key: seq<byte>, blanks: seq<byte>,
                    text: seq<byte>)
    requires WireAt(mem, p, l, more) && l.text == key + blanks + text && AreBlanks(blanks) && IsValue(text)
    ensures HasKey(mem, p, key) && Value(mem, p, key) == text
  {
    WireParts(mem, p, l, more);
    LineSlices(mem, p, l, more, key, blanks, text);
    BlankBytes(mem, p + |key|, p + |key| + |blanks|);
    ValueAt(mem, p + |key|, p + |key| + |blanks|, p + |l.text|);
  }

  /** A header that is nothing but its key and blanks takes its value from the next line. */
  lemma ValueOfNextLine(mem: seq<byte>, p: nat, l: Line, next: Line, more: seq<byte>, key: seq<byte>,
                        blanks: seq<byte>)
    requires WireAt(mem, p, l, next.text + next.end + more) && l.text == key + blanks && AreBlanks(blanks)
    requires IsLine(next) && IsValue(next.text)
    ensures HasKey(mem, p, key) && Value(mem, p, key) == next.text
  {
    var a, r := p + |key|, p + |l.text| + |l.end|;
    WireParts(mem, p, l, next.text + next.end + more);
    WireParts(mem, r, next, more);
    ConcatNothing(l.text);
    LineSlices(mem, p, l, next.text + next.end + more, key, blanks, []);
    BlankBytes(mem, a, a + |blanks|);
    assert forall j :: p + |l.text| <= j < r ==> mem[j] in [9, 10, 11, 12, 13, 32];
    ValueAt(mem, a, r, r + |next.text|);
  }

  lemma KeyOfWire(mem: seq<byte>, p: nat, l: Line, more: seq<byte>, key: seq<byte>)
    requires WireAt(mem, p, l, more) && 10 !in key && 13 !in key
    ensures HasKey(mem, p, key) <==> key <= l.text
  {
    WireParts(mem, p, l, more);
    var q := p + |l.text|;
    if |key| <= |l.text| {
      assert mem[p..p + |key|] == mem[p..q][..|key|] == l.text[..|key|];
    } else if p + |key| <= |mem| {
      assert mem[p..p + |key|][|l.text|] == mem[q];
      assert key[|l.text|] in key;
    }
  }

  /** Header i is the first one that starts with the key; behind it are blanks and then the value. */
  ghost predicate HasHeader(ls: seq<Line>, i: nat, key: seq<byte>, blanks: seq<byte>, text: seq<byte>) {
    && i < |ls| && ls[i].text == key + blanks + text && AreBlanks(blanks) && IsValue(text)
    && (forall j :: 0 <= j < i ==> !(key <= ls[j].text)) && 10 !in key && 13 !in key
  }

  lemma HeaderInRest(ls: seq<Line>, i: nat, key: seq<byte>, blanks: seq<byte>, text: seq<byte>)
    requires HasHeader(ls, i, key, blanks, text) && i > 0
    ensures !(key <= ls[0].text) && HasHeader(ls[1..], i - 1, key, blanks, text)
  {
  }

  lemma FirstHasValue(mem: seq<byte>, p: nat, ls: seq<Line>, tail: seq<byte>, key: seq<byte>, blanks: seq<byte>,
                      text: seq<byte>)
    requires LaidAt(mem, p, ls, tail) && HasHeader(ls, 0, key, blanks, text)
    ensures HeaderValue(mem, Starts(p, ls), key) == Some(text)
  {
    LaidNext(mem, p, ls, tail);
    FirstHeaderValue(mem, p, Starts(p + |ls[0].text| + |ls[0].end|, ls[1..]), key);
    ValueOfLine(mem, p, ls[0], Lay(ls[1..]) + tail, key, blanks, text);
  }

  lemma PassHeader(mem: seq<byte>, p: nat, l: Line, more: seq<byte>, key: seq<byte>, hdrs: seq<nat>)
    requires WireAt(mem, p, l, more) && !(key <= l.text) && 10 !in key && 13 !in key
    ensures HeaderValue(mem, [p] + hdrs, key) == HeaderValue(mem, hdrs, key)
  {
    KeyOfWire(mem, p, l, more, key);
    FirstHeaderValue(mem, p, hdrs, key);
  }

  lemma PassFirst(mem: seq<byte>, p: nat, ls: seq<Line>, tail: seq<byte>, key: seq<byte>, r: nat)
    requires LaidAt(mem, p, ls, tail) && ls != [] && !(key <= ls[0].text) && 10 !in key && 13 !in key
    requires r == p + |ls[0].text| + |ls[0].end|
    ensures HeaderValue(mem, Starts(p, ls), key) == HeaderValue(mem, Starts(r, ls[1..]), key)
  {
    LaidNext(mem, p, ls, tail);
    assert Starts(p, ls) == [p] + Starts(r, ls[1..]);
    PassHeader(mem, p, ls[0], Lay(ls[1..]) + tail, key, Starts(r, ls[1..]));
  }

  lemma {:induction false} ValueInLines(mem: seq<byte>, p: nat, ls: seq<Line>, tail: seq<byte>, i: nat,
                                        key: seq<byte>, blanks: seq<byte>, text: seq<byte>)
    requires LaidAt(mem, p, ls, tail) && HasHeader(ls, i, key, blanks, text)
    ensures HeaderValue(mem, Starts(p, ls), key) == Some(text)
    decreases |ls|
  {
    if i == 0 {
      FirstHasValue(mem, p, ls, tail, key, blanks, text);
    } else {
      var r := p + |ls[0].text| + |ls[0].end|;
      LaidRest(mem, p, ls, tail, r);
      HeaderInRest(ls, i, key, blanks, text);
      PassFirst(mem, p, ls, tail, key, r);
      ValueInLines(mem, r, ls[1..], tail, i - 1, key, blanks, text);
    }
  }

  /** Header i is the first one that starts with the key, and nothing but blanks is behind it. */
  ghost predicate HasEmptyHeader(ls: seq<Line>, i: nat, key: seq<byte>, blanks: seq<byte>) {
    && i + 1 < |ls| && ls[i].text == key + blanks && AreBlanks(blanks) && IsValue(ls[i + 1].text)
    && (forall j :: 0 <= j < i ==> !(key <= ls[j].text)) && 10 !in key && 13 !in key
  }

  lemma EmptyInRest(ls: seq<Line>, i: nat, key: seq<byte>, blanks: seq<byte>)
    requires HasEmptyHeader(ls, i, key, blanks) && i > 0
    ensures !(key <= ls[0].text) && HasEmptyHeader(ls[1..], i - 1, key, blanks)
  {
  }

  lemma FirstIsEmpty(mem: seq<byte>, p: nat, ls: seq<Line>, tail: seq<byte>, key: seq<byte>, blanks: seq<byte>)
    requires LaidAt(mem, p, ls, tail) && HasEmptyHeader(ls, 0, key, blanks)
    ensures HeaderValue(mem, Starts(p, ls), key) == Some(ls[1].text)
  {
    var rest := ls[1..];
    LaidNext(mem, p, ls, tail);
    assert IsLine(ls[1]);
    FirstHeaderValue(mem, p, Starts(p + |ls[0].text| + |ls[0].end|, rest), key);
    ConcatAssoc(rest[0].text + rest[0].end, Lay(rest[1..]), tail);
    ValueOfNextLine(mem, p, ls[0], ls[1], Lay(rest[1..]) + tail, key, blanks);
  }

  lemma {:induction false} EmptyInLines(mem: seq<byte>, p: nat, ls: seq<Line>, tail: seq<byte>, i: nat,
                                        key: seq<byte>, blanks: seq<byte>)
    requires LaidAt(mem, p, ls, tail) && HasEmptyHeader(ls, i, key, blanks)
    ensures HeaderValue(mem, Starts(p, ls), key) == Some(ls[i + 1].text)
    decreases |ls|
  {
    if i == 0 {
      FirstIsEmpty(mem, p, ls, tail, key, blanks);
    } else {
      var r := p + |ls[0].text| + |ls[0].end|;
      LaidRest(mem, p, ls, tail, r);
      EmptyInRest(ls, i, key, blanks);
      PassFirst(mem, p, ls, tail, key, r);
      EmptyInLines(mem, r, ls[1..], tail, i - 1, key, blanks);
    }
  }

  lemma {:induction false} NoValueInLines(mem: seq<byte>, p: nat, ls: seq<Line>, tail: seq<byte>, key: seq<byte>)
    requires LaidAt(mem, p, ls, tail) && 10 !in key && 13 !in key
    requires forall j :: 0 <= j < |ls| ==> !(key <= ls[j].text)
    ensures HeaderValue(mem, Starts(p, ls), key) == None
    decreases |ls|
  {
    if ls != [] {
      var r := p + |ls[0].text| + |ls[0].end|;
      LaidRest(mem, p, ls, tail, r);
      PassFirst(mem, p, ls, tail, key, r);
      NoValueInLines(mem, r, ls[1..], tail, key);
    }
  }

  /** A header has the value behind the blanks, for all line ends; without such a header there is none. */
  lemma HeaderOfWire(ls: seq<Line>, body: seq<byte>, i: nat, key: seq<byte>, blanks: seq<byte>, text: seq<byte>)
    requires WellWritten(ls, body) && HasHeader(ls[1..], i, key, blanks, text)
    ensures var f := Wire(ls, body); HeaderValue(f, Parse(f, |f|).hdrs, key) == Some(text)
  {
    WireIsParsed(ls, body);
    WireIsLaid(ls, body);
    ValueInLines(Wire(ls, body), |ls[0].text| + |ls[0].end|, ls[1..], body + [0], i, key, blanks, text);
  }

  /** A header without a value has the next header line for its value. */
  lemma EmptyHeaderOfWire(ls: seq<Line>, body: seq<byte>, i: nat, key: seq<byte>, blanks: seq<byte>)
    requires WellWritten(ls, body) && HasEmptyHeader(ls[1..], i, key, blanks)
    ensures var f := Wire(ls, body); HeaderValue(f, Parse(f, |f|).hdrs, key) == Some(ls[i + 2].text)
  {
    WireIsParsed(ls, body);
    WireIsLaid(ls, body);
    EmptyInLines(Wire(ls, body), |ls[0].text| + |ls[0].end|, ls[1..], body + [0], i, key, blanks);
  }

  /** The destination is what is behind "destination:" and any blanks. */
  lemma DestinationOfWire(ls: seq<Line>, body: seq<byte>, i: nat, blanks: seq<byte>, text: seq<byte>)
    requires WellWritten(ls, body)
    requires HasHeader(ls[1..], i, [100, 101, 115, 116, 105, 110, 97, 116, 105, 111, 110, 58], blanks, text)
    ensures Destination(Wire(ls, body)) == Some(text)
  {
    HeaderOfWire(ls, body, i, [100, 101, 115, 116, 105, 110, 97, 116, 105, 111, 110, 58], blanks, text);
  }

  lemma NoHeaderOfWire(ls: seq<Line>, body: seq<byte>, key: seq<byte>)
    requires WellWritten(ls, body) && 10 !in key && 13 !in key
    requires forall j :: 1 <= j < |ls| ==> !(key <= ls[j].text)
    ensures var f := Wire(ls, body); HeaderValue(f, Parse(f, |f|).hdrs, key) == None
  {
    WireIsParsed(ls, body);
    WireIsFrame(ls, body);
    assert forall j :: 0 <= j < |ls[1..]| ==> ls[1..][j] == ls[j + 1];
    NoValueInLines(Wire(ls, body), |ls[0].text| + |ls[0].end|, ls[1..], body + [0], key);
  }

  lemma NoDestination(ls: seq<Line>, body: seq<byte>)
    requires WellWritten(ls, body)
    requires forall j :: 1 <= j < |ls| ==> !([100, 101, 115, 116, 105, 110, 97, 116, 105, 111, 110, 58] <= ls[j].text)
    ensures Destination(Wire(ls, body)) == None
  {
    NoHeaderOfWire(ls, body, [100, 101, 115, 116, 105, 110, 97, 116, 105, 111, 110, 58]);
  }

  // ---------------------------------------------------------------------------
  // The content-length
  // ---------------------------------------------------------------------------

  /** strtol and the assignment to an int: a number out of the range of a long is cut, and then the low
      32 bits count. */
  function IntOf(v: int): int {
    var l := if v >= 0x8000_0000_0000_0000 then 0x7fff_ffff_ffff_ffff
             else if v < -0x8000_0000_0000_0000 then -0x8000_0000_0000_0000 else v;
    (l + 0x8000_0000) % 0x1_0000_0000 - 0x8000_0000
  }

  lemma LongToIntIs(v: int)
    ensures LongToInt(v) == IntOf(v)
  {
    ToIntIsModulo(if v > 0x7fff_ffff_ffff_ffff then 0x7fff_ffff_ffff_ffff
                  else if v < -0x8000_0000_0000_0000 then -0x8000_0000_0000_0000 else v);
  }

  /** A decimal number counts as it is, ... */
  lemma NumberOfPlain(n: nat)
    ensures IsValue(Digits(n)) && Number(Digits(n)) == Some(IntOf(n))
  {
    DigitsRoundTrip(n);
    LongToIntIs(n);
    assert Digits(n)[0] in Digits(n);
  }

  /** ...a plus sign in front changes nothing, ... */
  lemma NumberOfPlus(n: nat)
    ensures IsValue([43] + Digits(n)) && Number([43] + Digits(n)) == Some(IntOf(n))
  {
    DigitsRoundTrip(n);
    LongToIntIs(n);
    assert ([43] + Digits(n))[1..] == Digits(n);
  }

  /** ...with a minus sign it is negative, ... */
  lemma NumberOfMinus(n: nat)
    ensures IsValue([45] + Digits(n)) && Number([45] + Digits(n)) == Some(IntOf(-(n as int)))
  {
    DigitsRoundTrip(n);
    LongToIntIs(-(n as int));
    assert ([45] + Digits(n))[1..] == Digits(n);
  }

  /** ...and a text with anything else but digits behind its sign, or nothing, is no number. */
  lemma NotANumber(v: seq<byte>)
    requires v != []
    requires var digits := if v[0] == 43 || v[0] == 45 then v[1..] else v;
             digits == [] || exists d :: d in digits && !(48 <= d <= 57)
    ensures Number(v) == None
  {
    var digits := if v[0] == 43 || v[0] == 45 then v[1..] else v;
    if digits != [] {
      var d :| d in digits && !(48 <= d <= 57);
      assert !IsDigit(d);
    }
  }

  /** The end of a frame is estimated from the number behind "content-length:" and any blanks. */
  lemma EstimateOfWire(ls: seq<Line>, body: seq<byte>, i: nat, blanks: seq<byte>, n: nat)
    requires WellWritten(ls, body) && |Lay(ls)| + n + 1 <= INT_MAX
    requires HasHeader(ls[1..], i, [99, 111, 110, 116, 101, 110, 116, 45, 108, 101, 110, 103, 116, 104, 58], blanks,
                       Digits(n))
    ensures EstimLen(Wire(ls, body), |Wire(ls, body)|) == |Lay(ls)| + n + 1
  {
    var key: seq<byte> := [99, 111, 110, 116, 101, 110, 116, 45, 108, 101, 110, 103, 116, 104, 58];
    HeaderOfWire(ls, body, i, key, blanks, Digits(n));
    WireIsParsed(ls, body);
    NumberOfDigits(n);
  }

  /** So a frame whose content-length is the length of its body is taken whole, whatever its body and its
      line ends are. */
  lemma SizedWire(ls: seq<Line>, body: seq<byte>, i: nat, blanks: seq<byte>)
    requires WellWritten(ls, body) && |Wire(ls, body)| <= INT_MAX
    requires HasHeader(ls[1..], i, [99, 111, 110, 116, 101, 110, 116, 45, 108, 101, 110, 103, 116, 104, 58], blanks,
                       Digits(|body|))
    ensures MsgLength(Wire(ls, body), |Wire(ls, body)|) == |Wire(ls, body)|
  {
    EstimateOfWire(ls, body, i, blanks, |body|);
    var f := Wire(ls, body);
    assert f[|f| - 1] == (body + [0])[|body|] == 0;
  }

  lemma {:induction false} LayHasNoNul(ls: seq<Line>)
    requires forall l :: l in ls ==> IsLine(l)
    ensures 0 !in Lay(ls)
  {
    if ls != [] {
      assert IsLine(ls[0]);
      LayHasNoNul(ls[1..]);
    }
  }

  lemma UnsizedEstimate(ls: seq<Line>, body: seq<byte>)
    requires WellWritten(ls, body)
    requires forall j :: 1 <= j < |ls| ==> !(CONTENT_LENGTH <= ls[j].text)
    ensures EstimLen(Wire(ls, body), |Wire(ls, body)|) == -1
  {
    NoHeaderOfWire(ls, body, CONTENT_LENGTH);
  }

  lemma OnlyNulIsLast(ls: seq<Line>, body: seq<byte>)
    requires WellWritten(ls, body) && 0 !in body
    ensures var f := Wire(ls, body); f != [] && f[|f| - 1] == 0 && forall j :: 0 <= j < |f| - 1 ==> f[j] != 0
  {
    var f := Wire(ls, body);
    forall l | l in ls
      ensures IsLine(l)
    {
      var i :| 0 <= i < |ls| && ls[i] == l;
      assert i > 0 ==> ls[1..][i - 1] == l;
    }
    LayHasNoNul(ls);
    forall j | 0 <= j < |f| - 1
      ensures f[j] != 0
    {
      assert f[j] in Lay(ls) || f[j] in body;
    }
  }

  /** Without a content-length a frame is what ends in the first NUL. */
  lemma UnsizedWire(ls: seq<Line>, body: seq<byte>)
    requires WellWritten(ls, body) && 0 !in body
    requires forall j :: 1 <= j < |ls| ==>
               !([99, 111, 110, 116, 101, 110, 116, 45, 108, 101, 110, 103, 116, 104, 58] <= ls[j].text)
    ensures MsgLength(Wire(ls, body), |Wire(ls, body)|) == |Wire(ls, body)|
  {
    UnsizedEstimate(ls, body);
    OnlyNulIsLast(ls, body);
  }

  // ---------------------------------------------------------------------------
  // Line feeds
  // ---------------------------------------------------------------------------

  lemma BuiltIsWire(cmd: seq<byte>, h: seq<byte>, body: seq<byte>, ls: seq<Line>)
    requires ls == [Line(cmd, [10]), Line(h, [10, 10])]
    ensures Wire(ls, body) == Build(cmd, [h], body)
  {
    var hs := [h];
    assert ls[1..] == [Line(h, [10, 10])] && ls[1..][1..] == [] && hs[1..] == [];
    assert Lay(ls[1..]) == h + [10, 10] && HeaderLines(hs) == h + [10];
    assert Lay(ls) == cmd + [10] + (h + [10, 10]);
  }

  lemma DestinationLine(blanks: seq<byte>, text: seq<byte>, h: seq<byte>)
    requires AreBlanks(blanks) && IsValue(text) && h == DESTINATION + blanks + text
    ensures IsLine(Line(h, [10, 10])) && ShowsColon(h)
  {
    forall b | b in h
      ensures b != 0 && b != 10 && b != 13
    {
      assert b in DESTINATION || b in blanks || b in text;
    }
    assert h[11] == 58 && forall j :: 0 <= j < 11 ==> h[j] in h;
  }

  /** A frame that is built from its parts has a line feed behind each line. */
  lemma DestinationOfBuilt(cmd: seq<byte>, blanks: seq<byte>, text: seq<byte>, body: seq<byte>)
    requires IsText(cmd) && AreBlanks(blanks) && IsValue(text) && StartsBody(body + [0])
    ensures Destination(Build(cmd, [DESTINATION + blanks + text], body)) == Some(text)
  {
    var h := DESTINATION + blanks + text;
    var ls := [Line(cmd, [10]), Line(h, [10, 10])];
    DestinationLine(blanks, text, h);
    BuiltIsWire(cmd, h, body, ls);
    assert ls[1..] == [Line(h, [10, 10])];
    DestinationOfWire(ls, body, 0, blanks, text);
  }
}
