/** One request and its response on a local connection, and whether the connection may be reused. */
module HttpExchange {
  import opened Bytes
  import opened Decimals
  import opened Net
  import opened HttpBody
  import opened Chunked
  import opened HttpHead
  import opened WrittenHead
  import opened HttpRequest

  // ---- what one attempt does, as a function of the connection ----

  datatype Outcome = Retry | Done(meta: Meta, body: Str, stop: nat, keep: bool)

  /** The attempt on a connection that delivers `d`, cut at `cuts`, read from `p`. */
  ghost function Exchange(d: seq<byte>, cuts: set<nat>, p: nat, writable: bool): (x: Outcome)
    requires p <= |d|
    ensures x.Done? ==> p <= x.stop <= |d|
  {
    if !writable || HeadLen(d, p).None? then Retry
    else
      var q := p + HeadLen(d, p).value;
      BodyExchange(d, cuts, q, ParseMeta(d[p..q]))
  }

  /** The rest of the attempt, once the head `m` has been read up to `q`. */
  ghost function BodyExchange(d: seq<byte>, cuts: set<nat>, q: nat, m: Meta): (x: Outcome)
    requires q <= |d|
    ensures x.Done? && x.meta == m && q <= x.stop <= |d|
  {
    if m.chunked then Done(m, ChunkedData(d, cuts, q), ChunkedStop(d, cuts, q), KeepAlive(m))
    else if m.length >= 0 then
      var r := Upto(q, m.length, d);
      Done(m, d[q..r], r, KeepAlive(m) && r == q + m.length)
    else Done(m, d[q..], |d|, false)
  }

  // ---- responses as a service means them ----

  datatype Body = Coded(chunks: Chunks) | Sized(data: Str) | Streamed(data: Str)

  datatype Response = Response(start: Str, lines: seq<Str>, body: Body)

  function MetaOf(r: Response): Meta { AbsorbAll(StartMeta(r.start), r.lines) }

  function HeadOf(r: Response): Str { HeadBytes(r.start, r.lines) }

  function BodyBytes(b: Body): Str { if b.Coded? then Wire(b.chunks) else b.data }

  function BodyOf(b: Body): Str { if b.Coded? then Payload(b.chunks) else b.data }

  function ResponseBytes(r: Response): Str { HeadOf(r) + BodyBytes(r.body) }

  /** A response whose head announces the framing its body has. */
  predicate ResponseOk(r: Response) {
    && HeadOk(r.start, r.lines) && |HeadOf(r)| <= 65536
    && match r.body
       case Coded(c) => MetaOf(r).chunked && WellFormed(c)
       case Sized(data) => !MetaOf(r).chunked && MetaOf(r).length == |data|
       case Streamed(_) => !MetaOf(r).chunked && MetaOf(r).length < 0
  }

  /** No CRLF read of the response at `p` is split. */
  predicate Unsplit(cuts: set<nat>, p: nat, r: Response) {
    r.body.Coded? ==> CutFree(cuts, p + |HeadOf(r)|, r.body.chunks)
  }

  /** The same, but a split before the last chunk is allowed. */
  predicate InnerUnsplit(cuts: set<nat>, p: nat, r: Response) {
    r.body.Coded? ==> InnerCutFree(cuts, p + |HeadOf(r)|, r.body.chunks)
  }

  /** `d` holds the response `r` at `p`: all of it, or as much as came before the peer stopped. */
  ghost predicate Delivers(d: seq<byte>, p: nat, r: Response) {
    && ResponseOk(r) && p <= |d| && Shows(d, p, ResponseBytes(r))
    && (r.body.Streamed? ==> |d| <= p + |ResponseBytes(r)|)
  }

  /** Where the data of the body ends, 0 for a chunked body without chunks. */
  function BodyEnd(p: nat, r: Response): nat {
    if r.body.Coded? then DataEnd(p + |HeadOf(r)|, r.body.chunks) else p + |ResponseBytes(r)|
  }

  predicate Complete(d: seq<byte>, p: nat, r: Response) { p + |ResponseBytes(r)| <= |d| }

  lemma {:induction false} HeadIsRead(d: seq<byte>, p: nat, r: Response)
    requires Delivers(d, p, r)
    ensures var q := p + |HeadOf(r)|;
      && Shows(d, q, BodyBytes(r.body))
      && HeadLen(d, p) == (if q <= |d| then Some(|HeadOf(r)|) else None)
      && (q <= |d| ==> ParseMeta(d[p..q]) == MetaOf(r))
  {
    hide HeadLen, ParseMeta, HeadBytes, AbsorbAll, StartMeta, Shows;
    var q := p + |HeadOf(r)|;
    ShowsParts(d, p, HeadOf(r), BodyBytes(r.body));
    HeadFound(d, p, r.start, r.lines);
    if q <= |d| {
      ShownSlice(d, p, HeadOf(r), q);
      assert HeadOf(r)[..q - p] == HeadOf(r);
      HeadParsed(r.start, r.lines);
    }
  }

  /** What the client makes of a response.

      If the peer stopped before the end of the head, nothing is forwarded. Otherwise the head
      is the sender's and the forwarded body is a prefix of the sender's body; it is all of it iff
      the body's data came completely and no CRLF read before the last chunk is split. The
      connection is kept iff the head allows it and the response is chunked, cut off or not, or
      complete. If it is kept and no CRLF read was split, reading stopped at the end of the
      response or, if the peer stopped early, at the end of the stream; of a complete response
      it stops exactly at the end iff no CRLF read is split. */
  lemma {:induction false} ResponseIsRead(d: seq<byte>, cuts: set<nat>, p: nat, r: Response)
    requires Delivers(d, p, r)
    ensures var x := Exchange(d, cuts, p, true);
      if |d| < p + |HeadOf(r)| then x.Retry?
      else
        && x.Done? && x.meta == MetaOf(r) && x.body <= BodyOf(r.body)
        && (x.body == BodyOf(r.body) <==> InnerUnsplit(cuts, p, r) && BodyEnd(p, r) <= |d|)
        && (x.keep <==> KeepAlive(MetaOf(r)) && (r.body.Coded? || Complete(d, p, r)))
        && (Unsplit(cuts, p, r) && x.keep ==> x.stop == Upto(p, |ResponseBytes(r)|, d))
        && (Complete(d, p, r) ==> (x.stop == p + |ResponseBytes(r)| <==> Unsplit(cuts, p, r)))
  {
    hide HeadLen, ParseMeta, HeadBytes, MetaOf, Shows, ChunkedStop, ChunkedData, Wire, Payload, CutFree, InnerCutFree;
    HeadIsRead(d, p, r);
    var q := p + |HeadOf(r)|;
    if q <= |d| {
      match r.body
      case Coded(c) => BodyIsRead(d, cuts, q, c);
      case Sized(data) =>
        var e := Upto(q, |data|, d);
        ShownSlice(d, q, data, e);
        if e == q + |data| { assert data[..e - q] == data; }
      case Streamed(data) =>
        ShownSlice(d, q, data, |d|);
        assert d[q..|d|] == d[q..];
        if |d| == q + |data| { assert data[..|d| - q] == data; }
    }
  }

  /** A reused connection stands exactly behind the response it has delivered, iff no CRLF read
      of that response was split. */
  lemma {:induction false} ReuseIsSafe(d: seq<byte>, cuts: set<nat>, p: nat, r: Response)
    requires Delivers(d, p, r) && Complete(d, p, r) && KeepAlive(MetaOf(r))
    ensures var x := Exchange(d, cuts, p, true);
      x.Done? && x.keep && (x.stop == p + |ResponseBytes(r)| <==> Unsplit(cuts, p, r))
  {
    hide Delivers, Exchange, KeepAlive, MetaOf, ResponseBytes, Unsplit;
    ResponseIsRead(d, cuts, p, r);
    assert |HeadOf(r)| <= |ResponseBytes(r)| by { HeadShorter(r); }
  }

  /** A chunked response that the service breaks off anywhere behind its head: it is forwarded as
      if it were complete and its connection is put back, iff the head allows that; what comes
      next on the connection is nothing, unless a CRLF read was split. */
  lemma {:induction false} BrokenOffIsKept(d: seq<byte>, cuts: set<nat>, p: nat, r: Response)
    requires Delivers(d, p, r) && r.body.Coded? && p + |HeadOf(r)| <= |d| < p + |ResponseBytes(r)|
    ensures var x := Exchange(d, cuts, p, true);
      && x.Done? && (x.keep <==> KeepAlive(MetaOf(r)))
      && (x.keep && Unsplit(cuts, p, r) ==> Exchange(d, cuts, x.stop, true).Retry?)
  {
    hide HeadLen, KeepAlive, MetaOf, ResponseBytes, Unsplit, BodyExchange;
    ResponseIsRead(d, cuts, p, r);
    NoHead(d, |d|, 0);
  }

  lemma {:induction false} HeadShorter(r: Response)
    ensures |HeadOf(r)| <= |ResponseBytes(r)|
  {
  }

  // ---- responses by what was written ----

  /** The response was written with this version, status and headers. */
  predicate WrittenAs(r: Response, version: Str, status: nat, tail: Str, hs: seq<Header>) {
    && StatusLineOk(version, status, tail) && HeadersOk(hs)
    && r.start == StatusLine(version, status, tail) && r.lines == HeaderLines(hs)
  }

  lemma {:induction false} WrittenMeans(r: Response, version: Str, status: nat, tail: Str, hs: seq<Header>)
    requires WrittenAs(r, version, status, tail, hs)
    ensures var m := MetaOf(r); m.http == version && m.status == status && Means(m, m, hs, |hs|) && HeadOk(r.start, r.lines)
  {
    hide StatusLine, HeaderLines, StatusLineOk, HeadersOk, Means, ParseMeta, AbsorbAll, StartMeta, HeadOk;
    HeadMeans(version, status, tail, hs);
  }

  /** How the headers say that the body ends. */
  ghost predicate Announces(hs: seq<Header>, body: Body) {
    match body
    case Coded(c) => Says(hs, |hs|, "transfer-encoding", "chunked") && WellFormed(c)
    case Sized(data) =>
      && !Says(hs, |hs|, "transfer-encoding", "chunked") && |data| <= 0x7fff_ffff_ffff_ffff
      && exists i: nat :: GivesLength(hs, |hs|, i) && Stripped(hs[i].1) == Decimal(|data|)
    case Streamed(_) =>
      !Says(hs, |hs|, "transfer-encoding", "chunked") && forall i :: 0 <= i < |hs| ==> !Named(hs[i], "content-length")
  }

  /** Every response written so, with a head of at most 65536 bytes, is one the other claims are about. */
  lemma {:induction false} WrittenOk(r: Response, version: Str, status: nat, tail: Str, hs: seq<Header>)
    requires WrittenAs(r, version, status, tail, hs) && |HeadOf(r)| <= 65536 && Announces(hs, r.body)
    ensures ResponseOk(r)
  {
    hide WrittenAs, HeadersAre, Says, MetaOf, HeadOf, HeadOk, Stripped, Decimal, Named;
    WrittenMeans(r, version, status, tail, hs);
  }

  /** What the client makes of a written response whose head arrived: its status, its headers but for
      the framing ones, and its connection is kept iff the response is chunked, or sized and
      complete, says no close, and is of HTTP/1.1 or says keep-alive. */
  lemma {:induction false} WrittenIsRead(d: seq<byte>, cuts: set<nat>, p: nat, r: Response,
        version: Str, status: nat, tail: Str, hs: seq<Header>)
    requires Delivers(d, p, r) && p + |HeadOf(r)| <= |d| && WrittenAs(r, version, status, tail, hs)
    ensures var x := Exchange(d, cuts, p, true);
      && x.Done? && x.meta.http == version && x.meta.status == status && HeadersAre(x.meta.headers, hs, |hs|)
      && (x.keep <==>
            && (r.body.Coded? || (r.body.Sized? && p + |ResponseBytes(r)| <= |d|))
            && !Says(hs, |hs|, "connection", "close")
            && (StartsWith(version, Ascii("HTTP/1.1")) || Says(hs, |hs|, "connection", "keep-alive")))
  {
    hide Exchange, HeadersAre, Says, LengthIs, MetaOf, HeadOf, Shows, ResponseBytes, InnerUnsplit, Unsplit, BodyEnd, WrittenAs, Ascii;
    ResponseIsRead(d, cuts, p, r);
    WrittenMeans(r, version, status, tail, hs);
    VersionText();
  }

  lemma {:induction false} VersionText()
    ensures HTTP11 == Ascii("HTTP/1.1")
  {
  }

  // ---- what a split CRLF read does to the next request ----

  const LAST_CHUNK: Str := [48, 13, 10, 13, 10]

  lemma {:induction false} LastChunkAsHead(d: seq<byte>, p: nat)
    requires p + 5 <= |d| && Shows(d, p, LAST_CHUNK)
    ensures HeadLen(d, p) == Some(5)
    ensures var m := ParseMeta(d[p..p + 5]); m.status == 0 && !m.chunked && m.length == -1
  {
    hide HeadLen, Ascii;
    var zero: Str := [48];
    assert HeadBytes(zero, []) == LAST_CHUNK;
    HeadFound(d, p, zero, []);
    ShownSlice(d, p, LAST_CHUNK, p + 5);
    HeadParsed(zero, []);
    assert AbsorbAll(StartMeta(zero), []) == StartMeta(zero);
    assert SkipSpace(zero, 0) == 0 && WordEnd(zero, 0) == 1;
  }

  /** A one-chunk response whose CRLF read is split: the connection is put back five bytes early,
      and the next request on it is answered with status 0 and with everything that came after
      the first response, the next response's head included, as its body. */
  lemma {:induction false} SplitMixes(d: seq<byte>, cuts: set<nat>, p: nat, r: Response)
    requires Delivers(d, p, r) && Complete(d, p, r) && KeepAlive(MetaOf(r))
    requires r.body.Coded? && r.body.chunks.Chunk? && r.body.chunks.rest == Last([48], [], [])
    requires BreakAt(p + |HeadOf(r)|, r.body.chunks) + 1 in cuts
    ensures var end := p + |ResponseBytes(r)|; var x := Exchange(d, cuts, p, true);
      && x.Done? && x.keep && x.body == BodyOf(r.body) && x.stop == end - 5
      && var y := Exchange(d, cuts, x.stop, true); y.Done? && y.meta.status == 0 && y.body == d[end..]
  {
    hide HeadLen, ParseMeta, HeadBytes, MetaOf, Shows, ChunkedStop, ChunkedData, StrtolHex, HexValue, KeepAlive, ReadStop;
    var q, c := p + |HeadOf(r)|, r.body.chunks;
    var b := BreakAt(q, c);
    HeadIsRead(d, p, r);
    ResponseIsRead(d, cuts, p, r);
    assert Wire(c.rest) == LAST_CHUNK by { assert TrailerBytes([]) == CRLF; }
    assert |Wire(c)| == b - q + 7;
    ChunkIsRead(d, cuts, q, c);
    BreakIsRead(d, cuts, b);
    LastChunkAsHead(d, b + 2);
  }
}
