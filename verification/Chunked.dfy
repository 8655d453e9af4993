/** Chunked bodies as a sender writes them, and what the chunked reader makes of them. */
module Chunked {
  import opened Bytes
  import opened Net
  import opened HttpBody

  /** A chunked body: chunk size digits, chunk extension and data, then the last chunk and trailers. */
  datatype Chunks =
    | Chunk(digits: seq<byte>, ext: seq<byte>, data: seq<byte>, rest: Chunks)
    | Last(digits: seq<byte>, ext: seq<byte>, trailers: seq<seq<byte>>)

  function HexValue(s: seq<byte>): nat
    requires forall i :: 0 <= i < |s| ==> IsHex(s[i])
  {
    if s == [] then 0 else 16 * HexValue(s[..|s| - 1]) + HexDigit(s[|s| - 1])
  }

  predicate NoBreak(s: seq<byte>) {
    forall i :: 0 <= i < |s| ==> s[i] != CR && s[i] != LF
  }

  /** A size line: digits with the value `n`, then nothing or an extension. */
  predicate SizeLine(digits: seq<byte>, ext: seq<byte>, n: nat) {
    && digits != [] && (forall i :: 0 <= i < |digits| ==> IsHex(digits[i])) && HexValue(digits) == n
    && NoBreak(ext) && (ext != [] ==> !IsHex(ext[0]) && ext[0] != 120 && ext[0] != 88)
  }

  predicate WellFormed(b: Chunks) {
    match b
    case Chunk(digits, ext, data, rest) =>
      0 < |data| <= 0x7fff_ffff_ffff_ffff && SizeLine(digits, ext, |data|) && WellFormed(rest)
    case Last(digits, ext, trailers) =>
      SizeLine(digits, ext, 0) && forall i :: 0 <= i < |trailers| ==> trailers[i] != [] && NoBreak(trailers[i])
  }

  function TrailerBytes(trailers: seq<seq<byte>>): (w: seq<byte>)
    ensures |w| >= 2
  {
    if trailers == [] then CRLF else trailers[0] + CRLF + TrailerBytes(trailers[1..])
  }

  function Wire(b: Chunks): (w: seq<byte>)
    ensures |w| > 2
  {
    match b
    case Chunk(digits, ext, data, rest) => (digits + ext + CRLF) + (data + (CRLF + Wire(rest)))
    case Last(digits, ext, trailers) => (digits + ext + CRLF) + TrailerBytes(trailers)
  }

  /** The body the sender meant. */
  function Payload(b: Chunks): seq<byte> {
    match b
    case Chunk(_, _, data, rest) => data + Payload(rest)
    case Last(_, _, _) => []
  }

  /** Where the two-byte read after the first chunk's data starts. */
  function BreakAt(p: nat, b: Chunks): nat
    requires b.Chunk?
  {
    p + |b.digits| + |b.ext| + 2 + |b.data|
  }

  /** No read boundary falls inside the CRLF after a chunk's data. */
  predicate CutFree(cuts: set<nat>, p: nat, b: Chunks)
    decreases b
  {
    b.Chunk? ==> BreakAt(p, b) + 1 !in cuts && CutFree(cuts, BreakAt(p, b) + 2, b.rest)
  }

  /** The same for every chunk that has another chunk after it. */
  predicate InnerCutFree(cuts: set<nat>, p: nat, b: Chunks)
    decreases b
  {
    b.Chunk? && b.rest.Chunk? ==> BreakAt(p, b) + 1 !in cuts && InnerCutFree(cuts, BreakAt(p, b) + 2, b.rest)
  }

  /** Where the last chunk's data ends, 0 without a chunk. */
  function DataEnd(p: nat, b: Chunks): (e: nat)
    ensures b.Chunk? ==> p < e
    decreases b
  {
    if b.Last? then 0 else if b.rest.Last? then BreakAt(p, b) else DataEnd(BreakAt(p, b) + 2, b.rest)
  }

  // ---- size lines ----

  lemma {:induction false} HexRunIs(digits: seq<byte>, ext: seq<byte>, i: nat)
    requires forall j :: 0 <= j < |digits| ==> IsHex(digits[j])
    requires i <= |digits| && (ext != [] ==> !IsHex(ext[0]))
    ensures HexRun(digits + ext, i, HexValue(digits[..i])) == HexValue(digits)
    decreases |digits| - i
  {
    if i < |digits| {
      assert digits[..i + 1][..i] == digits[..i];
      HexRunIs(digits, ext, i + 1);
    } else {
      assert digits[..i] == digits;
    }
  }

  lemma {:induction false} HexAt(v: nat)
    requires v < 16
    ensures Ascii("0123456789abcdef")[v] == if v < 10 then 48 + v else 87 + v
  {
  }

  lemma {:induction false} CapitalAt(v: nat)
    requires v < 6
    ensures Ascii("ABCDEF")[v] == 65 + v
  {
  }

  /** The digits and their values: no other character is one. */
  lemma {:induction false} HexDigitsAre(c: byte)
    ensures IsHex(c) ==>
      var v := HexDigit(c);
      v < 16 && (c == Ascii("0123456789abcdef")[v] || (v >= 10 && c == Ascii("ABCDEF")[v - 10]))
    ensures !IsHex(c) ==> c !in Ascii("0123456789abcdef") && c !in Ascii("ABCDEF")
  {
    hide Ascii;
    if IsHex(c) {
      HexAt(HexDigit(c));
      if c < 97 && c > 57 { CapitalAt(HexDigit(c) - 10); }
    } else {
      forall v: nat | v < 16 ensures Ascii("0123456789abcdef")[v] != c { HexAt(v); }
      forall v: nat | v < 6 ensures Ascii("ABCDEF")[v] != c { CapitalAt(v); }
    }
  }

  /** `strtol` finds the size in a size line, extension or not. */
  lemma {:induction false} SizeIsRead(digits: seq<byte>, ext: seq<byte>, n: nat)
    requires SizeLine(digits, ext, n) && n <= 0x7fff_ffff_ffff_ffff
    ensures StrtolHex(digits + ext) == n
  {
    var s := digits + ext;
    assert s[0] == digits[0] && IsHex(s[0]) && SkipSpace(s, 0) == 0;
    assert |digits| > 1 ==> s[1] == digits[1] && IsHex(s[1]);
    assert |digits| == 1 && |s| > 1 ==> s[1] == ext[0];
    HexRunIs(digits, ext, 0);
    assert digits[..0] == [];
  }

  /** How much of a line of length `n` at `p` has come. */
  function Come(d: seq<byte>, p: nat, n: nat): (m: nat)
    requires p <= |d|
    ensures m <= n
  {
    if p + n <= |d| then n else |d| - p
  }

  lemma {:induction false} LineFrom(d: seq<byte>, p: nat, line: seq<byte>, i: nat)
    requires NoBreak(line) && Shows(d, p, line + CRLF) && p <= |d| && i <= Come(d, p, |line|)
    ensures LineStop(d, p + i) == Upto(p, |line| + 2, d)
    ensures LineText(d, p + i) == line[i..Come(d, p, |line|)]
    decreases |line| - i
  {
    var w, m := line + CRLF, Come(d, p, |line|);
    if i < m {
      assert d[p + i] == w[i];
      LineFrom(d, p, line, i + 1);
      assert line[i..m] == [line[i]] + line[i + 1..m];
    } else if m == |line| {
      BreakFrom(d, p, line);
    }
  }

  lemma {:induction false} BreakFrom(d: seq<byte>, p: nat, line: seq<byte>)
    requires Shows(d, p, line + CRLF) && p + |line| <= |d|
    ensures LineStop(d, p + |line|) == Upto(p, |line| + 2, d) && LineText(d, p + |line|) == []
  {
    var w, q := line + CRLF, p + |line|;
    if q < |d| {
      assert d[p + |line|] == w[|line|];
      if q + 1 < |d| {
        assert d[p + (|line| + 1)] == w[|line| + 1];
      }
      assert LineText(d, q + 1) == [];
    }
  }

  /** A line that has come completely. */
  lemma {:induction false} WholeLine(d: seq<byte>, p: nat, line: seq<byte>)
    requires NoBreak(line) && Shows(d, p, line + CRLF) && p + |line| + 2 <= |d|
    ensures LineStop(d, p) == p + |line| + 2 && LineText(d, p) == line
  {
    LineFrom(d, p, line, 0);
  }

  lemma {:induction false} AtEnd(d: seq<byte>, cuts: set<nat>)
    ensures ChunkedStop(d, cuts, |d|) == |d| && ChunkedData(d, cuts, |d|) == []
  {
  }

  /** A stream that ends inside a size line ends the body there. */
  lemma {:induction false} BrokenLine(d: seq<byte>, cuts: set<nat>, p: nat, line: seq<byte>)
    requires NoBreak(line) && Shows(d, p, line + CRLF) && p <= |d| < p + |line| + 2
    ensures ChunkedStop(d, cuts, p) == |d| && ChunkedData(d, cuts, p) == []
  {
    hide StrtolHex;
    LineFrom(d, p, line, 0);
    AtEnd(d, cuts);
  }

  // ---- trailers ----

  /** Only the end of `w` looks like the end of a trailer section. */
  predicate EndsOnce(w: seq<byte>) {
    && |w| >= 2 && w[|w| - 2] == CR && w[|w| - 1] == LF
    && (|w| > 2 ==> |w| > 4 && w[0] != CR && w[|w| - 4] == CR && w[|w| - 3] == LF)
    && (forall i :: 0 <= i < |w| - 3 && w[i] == LF ==> w[i + 1] != CR)
  }

  lemma {:induction false} TrailersEndOnce(trailers: seq<seq<byte>>)
    requires forall i :: 0 <= i < |trailers| ==> trailers[i] != [] && NoBreak(trailers[i])
    ensures EndsOnce(TrailerBytes(trailers))
    decreases |trailers|
  {
    if trailers != [] {
      var t, u := trailers[0], TrailerBytes(trailers[1..]);
      TrailersEndOnce(trailers[1..]);
      var w := t + CRLF + u;
      assert w[0] == t[0] && forall i :: 0 <= i < |t| ==> w[i] == t[i];
      assert forall i :: 0 <= i < |u| ==> w[|t| + 2 + i] == u[i];
      assert w[|t|] == CR && w[|t| + 1] == LF;
      forall i | 0 <= i < |w| - 3 && w[i] == LF
        ensures w[i + 1] != CR
      {
        if i >= |t| + 2 {
          assert w[i] == u[i - |t| - 2] && w[i + 1] == u[i - |t| - 2 + 1];
        }
      }
    }
  }

  lemma {:induction false} TailFrom(d: seq<byte>, p: nat, w: seq<byte>, e: nat)
    requires EndsOnce(w) && Shows(d, p, w) && p <= e <= |d| && e <= p + |w|
    ensures TailStop(d, p, e) == Upto(p, |w|, d)
    decreases |d| - e
  {
    if e < |d| {
      var k := e - p;
      assert k >= 4 ==> d[p + (k - 4)] == w[k - 4] && d[p + (k - 3)] == w[k - 3] && d[p + (k - 2)] == w[k - 2];
      assert k >= 1 ==> d[p + (k - 1)] == w[k - 1];
      assert k >= 2 ==> d[p + 0] == w[0] && d[p + 1] == w[1];
      if k < |w| {
        assert !TailDone(d, p, e);
        TailFrom(d, p, w, e + 1);
      } else {
        assert TailDone(d, p, e);
      }
    }
  }

  // ---- whole bodies ----

  lemma {:induction false} LastIsRead(d: seq<byte>, cuts: set<nat>, p: nat, b: Chunks)
    requires b.Last? && WellFormed(b) && p <= |d| && Shows(d, p, Wire(b))
    ensures ChunkedStop(d, cuts, p) == Upto(p, |Wire(b)|, d) && ChunkedData(d, cuts, p) == []
  {
    hide StrtolHex, LineText, LineStop, TailStop, TailDone, HexValue;
    var line := b.digits + b.ext;
    ShowsParts(d, p, line + CRLF, TrailerBytes(b.trailers));
    if |d| < p + |line| + 2 {
      BrokenLine(d, cuts, p, line);
    } else {
      WholeLine(d, p, line);
      SizeIsRead(b.digits, b.ext, 0);
      TrailersEndOnce(b.trailers);
      TailFrom(d, p + |line| + 2, TrailerBytes(b.trailers), p + |line| + 2);
    }
  }

  /** What reading one chunk leaves for the next round. */
  lemma {:induction false} ChunkIsRead(d: seq<byte>, cuts: set<nat>, p: nat, b: Chunks)
    requires b.Chunk? && WellFormed(b) && Shows(d, p, Wire(b))
    requires p + |b.digits| + |b.ext| + 2 <= |d|
    ensures var q := p + |b.digits| + |b.ext| + 2; var r := Upto(q, |b.data|, d);
      && ChunkedStop(d, cuts, p) == ChunkedStop(d, cuts, ReadStop(d, cuts, r, 2))
      && ChunkedData(d, cuts, p) == d[q..r] + ChunkedData(d, cuts, ReadStop(d, cuts, r, 2))
      && d[q..r] == b.data[..r - q]
      && Shows(d, q + |b.data|, CRLF) && Shows(d, q + |b.data| + 2, Wire(b.rest))
  {
    hide StrtolHex, LineText, LineStop, TailStop, HexValue, ReadStop, ChunkedStop, ChunkedData;
    var line := b.digits + b.ext;
    var q := p + |line| + 2;
    ChunkedRound(d, cuts, p);
    ShowsParts(d, p, line + CRLF, b.data + (CRLF + Wire(b.rest)));
    ShowsParts(d, q, b.data, CRLF + Wire(b.rest));
    ShowsParts(d, q + |b.data|, CRLF, Wire(b.rest));
    WholeLine(d, p, line);
    SizeIsRead(b.digits, b.ext, |b.data|);
    var r := Upto(q, |b.data|, d);
    ShownSlice(d, q, b.data, r);
  }

  lemma {:induction false} BrokenChunk(d: seq<byte>, cuts: set<nat>, p: nat, b: Chunks)
    requires b.Chunk? && WellFormed(b) && Shows(d, p, Wire(b)) && p <= |d| < p + |b.digits| + |b.ext| + 2
    ensures ChunkedStop(d, cuts, p) == |d| && ChunkedData(d, cuts, p) == []
  {
    hide Shows, ChunkedStop, ChunkedData, HexValue;
    var line := b.digits + b.ext;
    ShowsParts(d, p, line + CRLF, b.data + (CRLF + Wire(b.rest)));
    BrokenLine(d, cuts, p, line);
  }

  /** The two-byte read at a chunk's CRLF. */
  lemma {:induction false} BreakIsRead(d: seq<byte>, cuts: set<nat>, r: nat)
    requires r <= |d| && Shows(d, r, CRLF)
    ensures var e := ReadStop(d, cuts, r, 2);
      && (r + 1 !in cuts || |d| <= r + 1 ==> e == Upto(r, 2, d))
      && (r + 1 in cuts && r + 1 < |d| ==> ChunkedStop(d, cuts, e) == r + 2 && ChunkedData(d, cuts, e) == [])
  {
    if r < |d| {
      assert d[r + 0] == CRLF[0];
      if r + 1 < |d| {
        assert d[r + 1] == CRLF[1];
        if r + 1 in cuts {
          assert ReadStop(d, cuts, r, 2) == r + 1;
          assert LineText(d, r + 1) == [] && LineStop(d, r + 1) == r + 2;
        }
      }
    }
  }

  /** The chunked reader on a well-formed body, complete or cut off by the peer.

      A complete body is left exactly at its end iff no CRLF read is split. A body that was cut
      off is read up to the end of the stream, unless a CRLF read was split. What is forwarded
      is a prefix of the body, and all of it iff its data came completely and no CRLF read
      before the last chunk is split. */
  lemma {:induction false} BodyIsRead(d: seq<byte>, cuts: set<nat>, p: nat, b: Chunks)
    requires WellFormed(b) && p <= |d| && Shows(d, p, Wire(b))
    ensures CutFree(cuts, p, b) ==> ChunkedStop(d, cuts, p) == Upto(p, |Wire(b)|, d)
    ensures p + |Wire(b)| <= |d| ==> (ChunkedStop(d, cuts, p) == p + |Wire(b)| <==> CutFree(cuts, p, b))
    ensures ChunkedData(d, cuts, p) <= Payload(b)
    ensures ChunkedData(d, cuts, p) == Payload(b) <==> InnerCutFree(cuts, p, b) && DataEnd(p, b) <= |d|
    decreases b
  {
    hide Shows, ReadStop, TailStop, StrtolHex, HexValue, LineText, LineStop, ChunkedStop, ChunkedData, SizeLine;
    if b.Last? {
      LastIsRead(d, cuts, p, b);
    } else {
      var line := b.digits + b.ext;
      var q := p + |line| + 2;
      if |d| < q {
        BrokenChunk(d, cuts, p, b);
      } else {
        ChunkIsRead(d, cuts, p, b);
        var r := Upto(q, |b.data|, d);
        if |d| < q + |b.data| {
          AtEnd(d, cuts);
        } else {
          BreakIsRead(d, cuts, r);
          assert b.data[..r - q] == b.data;
          if |d| <= r + 1 {
            AtEnd(d, cuts);
          } else if r + 1 !in cuts {
            BodyIsRead(d, cuts, r + 2, b.rest);
          }
        }
      }
    }
  }
}
