/** The three ways a response body ends: chunked (RFC 9112, section 7.1), Content-Length and
    close-delimited (section 6.3), read from a socket that may cut any read short. */
module HttpBody {
  import opened Bytes
  import opened Net

  const CR: byte := 13
  const LF: byte := 10
  const CRLF: seq<byte> := [13, 10]
  const LONG_MAX: int := 0x7fff_ffff_ffff_ffff

  /** A sink for the body chunks that are forwarded; empty ones are not sent. */
  ghost predicate NoneEmpty(chunks: seq<seq<byte>>) {
    forall i :: 0 <= i < |chunks| ==> chunks[i] != []
  }

  // ---- the chunk size line ----

  predicate IsSpace(c: byte) { c == 32 || 9 <= c <= 13 }

  predicate IsHex(c: byte) { 48 <= c <= 57 || 65 <= c <= 70 || 97 <= c <= 102 }

  function HexDigit(c: byte): nat
    requires IsHex(c)
  {
    if c <= 57 then c - 48 else if c <= 70 then c - 55 else c - 87
  }

  /** The value of the hexadecimal digits that start at `i`. */
  function HexRun(s: seq<byte>, i: nat, acc: nat): nat
    decreases |s| - i
  {
    if i < |s| && IsHex(s[i]) then HexRun(s, i + 1, 16 * acc + HexDigit(s[i])) else acc
  }

  function SkipSpace(s: seq<byte>, i: nat): (j: nat)
    requires i <= |s|
    ensures i <= j <= |s|
    decreases |s| - i
  {
    if i < |s| && IsSpace(s[i]) then SkipSpace(s, i + 1) else i
  }

  /** C's `strtol(s, nullptr, 16)`: blanks, a sign, an optional 0x, then digits, saturating. */
  function StrtolHex(s: seq<byte>): int {
    var i := SkipSpace(s, 0);
    var neg := i < |s| && s[i] == 45;
    var j := if i < |s| && (s[i] == 45 || s[i] == 43) then i + 1 else i;
    var k := if j + 2 < |s| && s[j] == 48 && (s[j + 1] == 120 || s[j + 1] == 88) && IsHex(s[j + 2]) then j + 2 else j;
    var v: int := HexRun(s, k, 0);
    if neg then (if v > LONG_MAX then -LONG_MAX - 1 else -v) else if v > LONG_MAX then LONG_MAX else v
  }

  /** The end of the line that starts at `p`, just after its line feed. */
  function LineStop(d: seq<byte>, p: nat): (e: nat)
    requires p <= |d|
    ensures p <= e <= |d|
    decreases |d| - p
  {
    if p == |d| then p else if d[p] == LF then p + 1 else LineStop(d, p + 1)
  }

  /** The line without its line feed and without any carriage return. */
  function LineText(d: seq<byte>, p: nat): (t: seq<byte>)
    requires p <= |d|
    ensures t != [] ==> p < LineStop(d, p)
    decreases |d| - p
  {
    if p == |d| || d[p] == LF then []
    else (if d[p] == CR then [] else [d[p]]) + LineText(d, p + 1)
  }

  // ---- trailers ----

  /** What the trailer loop takes for the end: an empty line first, or an empty line later. */
  predicate TailDone(d: seq<byte>, p: nat, e: nat)
    requires p <= e <= |d|
  {
    || (e - p >= 4 && d[e - 4] == CR && d[e - 3] == LF && d[e - 2] == CR && d[e - 1] == LF)
    || (e - p == 2 && d[p] == CR && d[p + 1] == LF)
  }

  function TailStop(d: seq<byte>, p: nat, e: nat): (r: nat)
    requires p <= e <= |d|
    ensures e <= r <= |d|
    decreases |d| - e
  {
    if e == |d| || TailDone(d, p, e) then e else TailStop(d, p, e + 1)
  }

  // ---- the chunked reader as a function of the bytes and the read boundaries ----

  function Upto(p: nat, n: nat, d: seq<byte>): nat { if p + n <= |d| then p + n else |d| }

  /** Where the chunked reader stops. */
  function ChunkedStop(d: seq<byte>, cuts: set<nat>, p: nat): (e: nat)
    requires p <= |d|
    ensures p <= e <= |d|
    decreases |d| - p
  {
    var line, q := LineText(d, p), LineStop(d, p);
    if line == [] then q
    else if StrtolHex(line) <= 0 then TailStop(d, q, q)
    else ChunkedStop(d, cuts, ReadStop(d, cuts, Upto(q, StrtolHex(line), d), 2))
  }

  /** The body bytes it forwards. */
  function ChunkedData(d: seq<byte>, cuts: set<nat>, p: nat): seq<byte>
    requires p <= |d|
    decreases |d| - p
  {
    var line, q := LineText(d, p), LineStop(d, p);
    if line == [] || StrtolHex(line) <= 0 then []
    else
      var r := Upto(q, StrtolHex(line), d);
      d[q..r] + ChunkedData(d, cuts, ReadStop(d, cuts, r, 2))
  }

  // ---- the reading loops ----

  method ReadLine(s: Socket) returns (line: seq<byte>)
    requires s.Valid() && s.Patient()
    modifies s
    ensures s.Valid() && s.written == old(s.written)
    ensures line == LineText(s.data, old(s.pos)) && s.pos == LineStop(s.data, old(s.pos))
  {
    line := [];
    while true
      invariant s.Valid() && old(s.pos) <= s.pos && s.written == old(s.written)
      invariant line + LineText(s.data, s.pos) == LineText(s.data, old(s.pos))
      invariant LineStop(s.data, s.pos) == LineStop(s.data, old(s.pos))
      decreases |s.data| - s.pos
    {
      var r := s.ReadSome(1);
      if !r.Got? { break; }
      var c := r.bytes[0];
      if c == LF { break; }
      if c != CR { line := line + [c]; }
    }
  }

  lemma {:induction false} TailTest(d: seq<byte>, p: nat, e: nat)
    requires p <= e <= |d|
    ensures var tail := d[p..e];
      TailDone(d, p, e) <==> (|tail| >= 4 && tail[|tail| - 4..] == CRLF + CRLF) || (|tail| >= 2 && tail == CRLF)
  {
    var tail := d[p..e];
    if |tail| >= 4 {
      var w := tail[|tail| - 4..];
      assert w == [d[e - 4], d[e - 3], d[e - 2], d[e - 1]] && CRLF + CRLF == [13, 10, 13, 10];
    } else if |tail| == 2 {
      assert tail == [d[p], d[p + 1]];
    }
  }

  method ReadTail(s: Socket)
    requires s.Valid() && s.Patient()
    modifies s
    ensures s.Valid() && s.written == old(s.written)
    ensures s.pos == TailStop(s.data, old(s.pos), old(s.pos))
  {
    hide TailDone;
    ghost var p := s.pos;
    var tail: seq<byte> := [];
    TailTest(s.data, p, p);
    while true
      invariant s.Valid() && p <= s.pos && s.written == old(s.written)
      invariant tail == s.data[p..s.pos]
      invariant TailStop(s.data, p, s.pos) == TailStop(s.data, p, p)
      invariant !TailDone(s.data, p, s.pos)
      decreases |s.data| - s.pos
    {
      var r := s.ReadSome(1);
      if !r.Got? { break; }
      tail := tail + [r.bytes[0]];
      TailTest(s.data, p, s.pos);
      assert TailStop(s.data, p, s.pos) == TailStop(s.data, p, p);
      assert TailDone(s.data, p, s.pos) ==> TailStop(s.data, p, s.pos) == s.pos;
      if |tail| >= 4 && tail[|tail| - 4..] == CRLF + CRLF { break; }
      if |tail| >= 2 && tail == CRLF { break; }
    }
  }

  /** Reads of at most `cap` bytes until `n` bytes have come or the peer is done. */
  method ReadData(s: Socket, n: nat, cap: nat) returns (chunks: seq<seq<byte>>, got: nat)
    requires s.Valid() && s.Patient() && cap > 0
    modifies s
    ensures s.Valid() && s.written == old(s.written)
    ensures s.pos == Upto(old(s.pos), n, s.data) == old(s.pos) + got && got <= n
    ensures NoneEmpty(chunks) && Concat(chunks) == s.data[old(s.pos)..s.pos]
  {
    chunks, got := [], 0;
    while got < n
      invariant s.Valid() && s.written == old(s.written) && got <= n && s.pos == old(s.pos) + got
      invariant NoneEmpty(chunks) && Concat(chunks) == s.data[old(s.pos)..s.pos]
      decreases n - got
    {
      var r := s.ReadSome(if n - got < cap then n - got else cap);
      if !r.Got? { break; }
      assert (chunks + [r.bytes])[..|chunks|] == chunks;
      chunks := chunks + [r.bytes];
      got := got + |r.bytes|;
    }
  }

  /** One round of the chunked reader: it stops, or moves on behind a chunk. */
  lemma {:induction false} ChunkedRound(d: seq<byte>, cuts: set<nat>, p: nat)
    requires p <= |d|
    ensures var line, q := LineText(d, p), LineStop(d, p);
      if line == [] then ChunkedStop(d, cuts, p) == q && ChunkedData(d, cuts, p) == []
      else if StrtolHex(line) <= 0 then ChunkedStop(d, cuts, p) == TailStop(d, q, q) && ChunkedData(d, cuts, p) == []
      else
        var r := Upto(q, StrtolHex(line), d);
        var e := ReadStop(d, cuts, r, 2);
        p < e && ChunkedStop(d, cuts, p) == ChunkedStop(d, cuts, e)
        && ChunkedData(d, cuts, p) == d[q..r] + ChunkedData(d, cuts, e)
  {
    hide StrtolHex, LineText, LineStop, TailStop, ReadStop;
  }

  method ReadChunked(s: Socket) returns (chunks: seq<seq<byte>>)
    requires s.Valid() && s.Patient()
    modifies s
    ensures s.Valid() && s.written == old(s.written)
    ensures s.pos == ChunkedStop(s.data, s.cuts, old(s.pos))
    ensures NoneEmpty(chunks) && Concat(chunks) == ChunkedData(s.data, s.cuts, old(s.pos))
  {
    hide StrtolHex, LineText, LineStop, TailStop, ReadStop, Concat, ChunkedStop, ChunkedData;
    ghost var p := s.pos;
    chunks := [];
    ConcatNil();
    while true
      invariant s.Valid() && s.written == old(s.written) && NoneEmpty(chunks)
      invariant ChunkedStop(s.data, s.cuts, s.pos) == ChunkedStop(s.data, s.cuts, p)
      invariant Concat(chunks) + ChunkedData(s.data, s.cuts, s.pos) == ChunkedData(s.data, s.cuts, p)
      decreases |s.data| - s.pos
    {
      ChunkedRound(s.data, s.cuts, s.pos);
      var sizeLine := ReadLine(s);
      if sizeLine == [] { break; }
      var sz := StrtolHex(sizeLine);
      if sz <= 0 {
        ReadTail(s);
        break;
      }
      var more, _ := ReadData(s, sz, 16384);
      ConcatAppend(chunks, more);
      chunks := chunks + more;
      var _ := s.ReadSome(2);
    }
  }

  lemma {:induction false} ConcatNil()
    ensures Concat([]) == []
  {
  }

  method ReadUntilClose(s: Socket) returns (chunks: seq<seq<byte>>)
    requires s.Valid() && s.Patient()
    modifies s
    ensures s.Valid() && s.written == old(s.written) && s.pos == |s.data|
    ensures NoneEmpty(chunks) && Concat(chunks) == s.data[old(s.pos)..]
  {
    chunks := [];
    while true
      invariant s.Valid() && s.written == old(s.written) && old(s.pos) <= s.pos
      invariant NoneEmpty(chunks) && Concat(chunks) == s.data[old(s.pos)..s.pos]
      decreases |s.data| - s.pos
    {
      var r := s.ReadSome(16384);
      if !r.Got? { break; }
      assert (chunks + [r.bytes])[..|chunks|] == chunks;
      chunks := chunks + [r.bytes];
    }
  }
}
