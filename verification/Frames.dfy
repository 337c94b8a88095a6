/**
 * Frame recognition as stomp/stomp_proto.c does it, on values. `mem` is memory from the start of
 * the frame on and `len` the number of bytes received: the bytes behind are whatever the buffer
 * held before, and some of the scans read them. The end of `mem` stops a scan like a NUL.
 */
module Frames {
  import opened Bytes

  /** STOMP_HEADERS_MAX and STOMP_HEADER_LEN_MAX. */
  const HEADERS_MAX := 8
  const HEADER_LEN_MAX := 80

  /** "content-length:" and "destination:". */
  const CONTENT_LENGTH: seq<byte> := [99, 111, 110, 116, 101, 110, 116, 45, 108, 101, 110, 103, 116, 104, 58]
  const DESTINATION: seq<byte> := [100, 101, 115, 116, 105, 110, 97, 116, 105, 111, 110, 58]

  predicate IsEol(b: byte) {
    b == CR || b == LF
  }

  /** isspace in the C locale. */
  predicate IsSpace(b: byte) {
    b == 32 || 9 <= b <= 13
  }

  predicate IsDigit(b: byte) {
    48 <= b <= 57
  }

  /** The first byte of a line other than the command line; blank lines do not count. */
  predicate LineStart(mem: seq<byte>, p: nat) {
    0 < p < |mem| && !IsEol(mem[p]) && IsEol(mem[p - 1])
  }

  /** The first line start at or after `i`; stomp_next_line from a line at `p` is this at `p + 1`. */
  function NextStart(mem: seq<byte>, i: nat, len: nat): (r: Option<nat>)
    requires len <= |mem|
    ensures r.Some? ==> i <= r.value < len && LineStart(mem, r.value)
    decreases len - i
  {
    if i >= len then None
    else if LineStart(mem, i) then Some(i)
    else NextStart(mem, i + 1, len)
  }

  lemma {:induction false} NextStartIsLeast(mem: seq<byte>, i: nat, len: nat, p: nat)
    requires i <= p < len <= |mem| && LineStart(mem, p)
    ensures NextStart(mem, i, len).Some? && NextStart(mem, i, len).value <= p
    decreases len - i
  {
    if i < p {
      NextStartIsLeast(mem, i + 1, len, p);
    }
  }

  /** stomp_is_header, with `n` bytes left to look at. */
  predicate IsHeader(mem: seq<byte>, p: nat, n: nat)
    decreases n, |mem|
  {
    0 < n && p < |mem| && !IsEol(mem[p]) && mem[p] != NUL
    && (mem[p] == COLON || IsHeader(mem, p + 1, n - 1))
  }

  /** sm_hdr and sm_body: where the header lines and the body start. */
  datatype Lines = Lines(hdrs: seq<nat>, body: Option<nat>)

  /** stomp_parse_lines from the line starts at or after `i` on, with `k` of the eight header
      entries left; once all are used the remaining lines are passed over. */
  function ParseFrom(mem: seq<byte>, i: nat, len: nat, k: nat): (r: Lines)
    requires len <= |mem|
    ensures |r.hdrs| <= k && (r.body.Some? ==> |r.hdrs| < k && i <= r.body.value < len)
    decreases k, |mem|
  {
    match NextStart(mem, i, len)
    case None => Lines([], None)
    case Some(p) =>
      if k == 0 then Lines([], None)
      else if !IsHeader(mem, p, HEADER_LEN_MAX) then Lines([], Some(p))
      else
        var rest := ParseFrom(mem, p + 1, len, k - 1);
        Lines([p] + rest.hdrs, rest.body)
  }

  function Parse(mem: seq<byte>, len: nat): (r: Lines)
    requires len <= |mem|
    ensures |r.hdrs| <= HEADERS_MAX
  {
    ParseFrom(mem, 1, len, HEADERS_MAX)
  }

  /** strncmp(hdr, key, strlen(key)) == 0. */
  predicate HasKey(mem: seq<byte>, p: nat, key: seq<byte>) {
    p + |key| <= |mem| && mem[p..p + |key|] == key
  }

  /** stomp_find_header. */
  function FindHeader(mem: seq<byte>, hdrs: seq<nat>, key: seq<byte>): (r: Option<nat>)
    ensures r.Some? ==> HasKey(mem, r.value, key)
  {
    if hdrs == [] then None
    else if HasKey(mem, hdrs[0], key) then Some(hdrs[0])
    else FindHeader(mem, hdrs[1..], key)
  }

  function SkipSpaces(mem: seq<byte>, p: nat): (q: nat)
    requires p <= |mem|
    ensures p <= q <= |mem|
    decreases |mem| - p
  {
    if p < |mem| && IsSpace(mem[p]) then SkipSpaces(mem, p + 1) else p
  }

  /** The next CR, LF or NUL. */
  function LineEnd(mem: seq<byte>, p: nat): (q: nat)
    requires p <= |mem|
    ensures p <= q <= |mem|
    ensures forall i :: p <= i < q ==> !IsEol(mem[i]) && mem[i] != NUL
    ensures q < |mem| ==> IsEol(mem[q]) || mem[q] == NUL
    decreases |mem| - p
  {
    if p < |mem| && !IsEol(mem[p]) && mem[p] != NUL then LineEnd(mem, p + 1) else p
  }

  /** What is left of a line behind its leading spaces. */
  function LineText(mem: seq<byte>, p: nat): seq<byte>
    requires p <= |mem|
  {
    var start := SkipSpaces(mem, p);
    mem[start..LineEnd(mem, start)]
  }

  /** What stomp_read_header copies from the header at `p`. Skipping spaces skips line ends too. */
  function Value(mem: seq<byte>, p: nat, key: seq<byte>): seq<byte>
    requires HasKey(mem, p, key)
  {
    LineText(mem, p + |key|)
  }

  function HeaderValue(mem: seq<byte>, hdrs: seq<nat>, key: seq<byte>): Option<seq<byte>> {
    match FindHeader(mem, hdrs, key)
    case None => None
    case Some(h) => Some(Value(mem, h, key))
  }

  // ---------------------------------------------------------------------------
  // Numbers
  // ---------------------------------------------------------------------------

  function Decimal(digits: seq<byte>): nat
    requires forall d :: d in digits ==> IsDigit(d)
  {
    if digits == [] then 0
    else
      var last := digits[|digits| - 1];
      assert IsDigit(last);
      10 * Decimal(digits[..|digits| - 1]) + last as int - 48
  }

  const WORD := 0x1_0000_0000

  /** An int keeps the low 32 bits of what it is assigned. */
  function ToInt(v: int): (i: int)
    ensures -INT_MAX - 1 <= i <= INT_MAX
    ensures -INT_MAX - 1 <= v <= INT_MAX ==> i == v
    decreases if v < 0 then -2 * v - 1 else 2 * v
  {
    if v > INT_MAX then ToInt(v - WORD) else if v < -INT_MAX - 1 then ToInt(v + WORD) else v
  }

  lemma {:induction false} ToIntIsModulo(v: int)
    ensures ToInt(v) == (v + INT_MAX + 1) % WORD - INT_MAX - 1
    decreases if v < 0 then -2 * v - 1 else 2 * v
  {
    if v > INT_MAX {
      ToIntIsModulo(v - WORD);
    } else if v < -INT_MAX - 1 {
      ToIntIsModulo(v + WORD);
    }
  }

  /** Wrapping around before an addition makes no difference to it. */
  lemma {:induction false} ToIntAgain(v: int, d: int)
    ensures ToInt(ToInt(v) + d) == ToInt(v + d)
  {
    ToIntIsModulo(v);
    ToIntIsModulo(ToInt(v) + d);
    ToIntIsModulo(v + d);
  }

  /** strtol cuts to the range of a long, and its result is assigned to an int. */
  function LongToInt(v: int): (i: int)
    ensures -INT_MAX - 1 <= i <= INT_MAX
    ensures -INT_MAX - 1 <= v <= INT_MAX ==> i == v
  {
    ToInt(if v > 0x7fff_ffff_ffff_ffff then 0x7fff_ffff_ffff_ffff
          else if v < -0x8000_0000_0000_0000 then -0x8000_0000_0000_0000 else v)
  }

  /** strtol on a whole header value, which has no leading space; None if it stops early. It reads
      nothing from an empty value, and then stands at its end. */
  function Number(v: seq<byte>): Option<int> {
    var signed := v != [] && (v[0] == 43 || v[0] == 45);
    var digits := if signed then v[1..] else v;
    if v == [] then Some(0)
    else if digits == [] || exists d :: d in digits && !IsDigit(d) then None
    else Some(LongToInt(if v[0] == 45 then -(Decimal(digits) as int) else Decimal(digits) as int))
  }

  /** The number in the content-length header, if there is one. */
  function ContentLength(mem: seq<byte>, hdrs: seq<nat>): Option<int> {
    match HeaderValue(mem, hdrs, CONTENT_LENGTH)
    case None => None
    case Some(v) => Number(v)
  }

  // ---------------------------------------------------------------------------
  // Lengths
  // ---------------------------------------------------------------------------

  /** The end of a frame with its body at `body` and a content-length, as an int. */
  function Estimate(number: Option<int>, body: Option<nat>): int {
    if number.None? || body.None? then -1 else ToInt(number.value + body.value + 1)
  }

  /** stomp_msg_estimlen. */
  function EstimLen(mem: seq<byte>, len: nat): int
    requires len <= |mem|
  {
    var lines := Parse(mem, len);
    Estimate(ContentLength(mem, lines.hdrs), lines.body)
  }

  function FirstNul(mem: seq<byte>, i: nat, len: nat): (r: Option<nat>)
    requires len <= |mem|
    ensures r.Some? ==> i <= r.value < len && mem[r.value] == NUL
    ensures forall j :: i <= j < (if r.Some? then r.value else len) ==> mem[j] != NUL
    decreases len - i
  {
    if i >= len then None else if mem[i] == NUL then Some(i) else FirstNul(mem, i + 1, len)
  }

  /** The end of stomp_msg_length, once a length is estimated. */
  function Delimit(mem: seq<byte>, len: nat, clen: int): (r: int)
    requires len <= |mem|
    ensures r == -1 || (0 < r <= len && mem[r - 1] == NUL)
  {
    if clen > 0 then
      if len >= clen && mem[clen - 1] == NUL then clen else -1
    else
      match FirstNul(mem, 0, len)
      case None => -1
      case Some(z) => z + 1
  }

  /** stomp_msg_length: the length of the frame in front, or -1 when there is none yet. */
  function MsgLength(mem: seq<byte>, len: nat): (r: int)
    requires len <= |mem|
    ensures r == -1 || (0 < r <= len && mem[r - 1] == NUL)
  {
    Delimit(mem, len, EstimLen(mem, len))
  }

  /** strchr from byte `i` on. */
  function FindChar(mem: seq<byte>, i: nat, c: byte): (r: Option<nat>)
    requires i <= |mem|
    ensures r.Some? ==> i <= r.value < |mem| && mem[r.value] == c
    ensures r.Some? ==> forall j :: i <= j < r.value ==> mem[j] != c && mem[j] != NUL
    decreases |mem| - i
  {
    if i < |mem| && mem[i] == c then Some(i)
    else if i == |mem| || mem[i] == NUL then None
    else FindChar(mem, i + 1, c)
  }

  /** stomp_parse_command: the first command of the table that the frame starts with. */
  function ParseCommand(f: seq<byte>, table: seq<seq<byte>>): (r: Option<nat>)
    ensures r.Some? ==> r.value < |table| && table[r.value] <= f
    ensures forall i :: 0 <= i < (if r.Some? then r.value else |table|) ==> !(table[i] <= f)
  {
    if table == [] then None
    else if table[0] <= f then Some(0)
    else
      match ParseCommand(f, table[1..])
      case None => None
      case Some(i) => Some(i + 1)
  }

  /** stomp_msg_length as the callback of the session layer. */
  function StompLength(mem: seq<byte>, len: nat): (r: int)
    ensures len <= |mem| ==> r == MsgLength(mem, len)
  {
    if len <= |mem| then MsgLength(mem, len) else -1
  }
}
