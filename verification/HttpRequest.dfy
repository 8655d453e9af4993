/** The request the client writes to a local service. */
module HttpRequest {
  import opened Bytes
  import opened Decimals
  import opened HttpBody
  import opened Chunked
  import opened HttpHead
  import opened WrittenHead

  /** A visitor's request; `headers` in the order in which the header map is traversed. */
  datatype Request = Request(verb: Str, path: Str, headers: seq<(Str, Str)>, body: Str)

  const HOST: Str := Ascii("host")
  const ACCEPT_ENCODING: Str := Ascii("accept-encoding")
  const SPACE: Str := Ascii(" ")
  const VERSION_TEXT: Str := Ascii(" HTTP/1.1")
  const HOST_TEXT: Str := Ascii("Host") + COLON_TEXT
  const KEEP_ALIVE_TEXT: Str := Ascii("Connection") + COLON_TEXT + Ascii("keep-alive")
  const LENGTH_TEXT: Str := Ascii("Content-Length") + COLON_TEXT
  const COLON_TEXT: Str := Ascii(": ")

  /** Headers the client writes itself, or leaves out. */
  predicate Dropped(name: Str) {
    var lk := Lower(name);
    lk == HOST || lk == CONTENT_LENGTH || lk == CONNECTION || lk == TRANSFER_ENCODING || lk == ACCEPT_ENCODING
  }

  function KeptLines(headers: seq<(Str, Str)>, k: nat): seq<Str>
    requires k <= |headers|
  {
    if k == 0 then []
    else
      var (name, value) := headers[k - 1];
      KeptLines(headers, k - 1) + if Dropped(name) then [] else [name + COLON_TEXT + value]
  }

  function RequestLines(addr: Str, req: Request): seq<Str> {
    [HOST_TEXT + addr, KEEP_ALIVE_TEXT] + KeptLines(req.headers, |req.headers|)
      + if req.body == [] then [] else [LENGTH_TEXT + Decimal(|req.body|)]
  }

  function RequestStart(req: Request): Str { req.verb + SPACE + req.path + VERSION_TEXT }

  function RequestBytes(addr: Str, req: Request): Str {
    HeadBytes(RequestStart(req), RequestLines(addr, req)) + req.body
  }

  // ---- building it ----

  /** Lines, each with its line end. */
  function Terminated(lines: seq<Str>): Str {
    if lines == [] then [] else Terminated(lines[..|lines| - 1]) + (lines[|lines| - 1] + CRLF)
  }

  lemma {:induction false} TerminatedAppend(lines: seq<Str>, more: seq<Str>)
    ensures Terminated(lines + more) == Terminated(lines) + Terminated(more)
    decreases |more|
  {
    if more == [] {
      assert lines + more == lines;
    } else {
      var k := |more| - 1;
      TerminatedAppend(lines, more[..k]);
      assert (lines + more)[..|lines| + k] == lines + more[..k];
    }
  }

  lemma {:induction false} TrailerIsTerminated(lines: seq<Str>)
    ensures TrailerBytes(lines) == Terminated(lines) + CRLF
    decreases |lines|
  {
    if lines != [] {
      var t, u := [lines[0]], lines[1..];
      TrailerIsTerminated(u);
      TerminatedAppend(t, u);
      assert t + u == lines;
      assert Terminated(t) == lines[0] + CRLF by { assert t[..0] == [] && Terminated([]) == []; }
    }
  }

  lemma {:induction false} TerminatedOne(line: Str)
    ensures Terminated([line]) == line + CRLF && Terminated([]) == []
  {
    assert [line][..0] == [];
  }

  method BuildRequest(addr: Str, req: Request) returns (r: Str)
    ensures r == RequestBytes(addr, req)
  {
    hide Terminated, TrailerBytes, Lower, Decimal, Ascii;
    ghost var start := RequestStart(req);
    r := req.verb + SPACE + req.path + VERSION_TEXT + CRLF;
    r := r + HOST_TEXT + addr + CRLF;
    r := r + KEEP_ALIVE_TEXT + CRLF;
    ghost var first := [HOST_TEXT + addr, KEEP_ALIVE_TEXT];
    FirstLines(start, HOST_TEXT + addr, KEEP_ALIVE_TEXT);
    ghost var kept: seq<Str> := [];
    assert first + kept == first;
    for i := 0 to |req.headers|
      invariant kept == KeptLines(req.headers, i)
      invariant r == start + CRLF + Terminated(first + kept)
    {
      var (name, value) := req.headers[i];
      if Dropped(name) { continue; }
      NextLine(first + kept, name + COLON_TEXT + value);
      assert first + (kept + [name + COLON_TEXT + value]) == first + kept + [name + COLON_TEXT + value];
      r := r + (name + COLON_TEXT + value + CRLF);
      kept := kept + [name + COLON_TEXT + value];
    }
    if req.body != [] {
      NextLine(first + kept, LENGTH_TEXT + Decimal(|req.body|));
      r := r + (LENGTH_TEXT + Decimal(|req.body|) + CRLF);
    }
    TrailerIsTerminated(RequestLines(addr, req));
    r := r + CRLF;
    assert first + kept + [] == first + kept;
    assert r == HeadBytes(start, RequestLines(addr, req));
    r := r + req.body;
  }

  lemma {:induction false} NextLine(lines: seq<Str>, line: Str)
    ensures Terminated(lines + [line]) == Terminated(lines) + (line + CRLF)
  {
    TerminatedAppend(lines, [line]);
    TerminatedOne(line);
  }

  lemma {:induction false} FirstLines(start: Str, a: Str, b: Str)
    ensures start + CRLF + Terminated([a, b]) == start + CRLF + a + CRLF + b + CRLF
  {
    TerminatedOne(a);
    NextLine([a], b);
  }

  // ---- the local service reads the request as it was meant ----

  /** No byte of the request line or of a header could end its line or its name early. */
  predicate RequestOk(addr: Str, req: Request) {
    && NoBreak(addr) && NoBreak(req.verb) && NoBreak(req.path) && |req.body| <= 0x7fff_ffff_ffff_ffff
    && forall i :: 0 <= i < |req.headers| ==>
         req.headers[i].0 != [] && NoBreak(req.headers[i].0) && NoBreak(req.headers[i].1) && COLON !in req.headers[i].0
  }

  /** The name of a line that was put together from a name and a value. */
  lemma {:induction false} NameOf(name: Str, value: Str)
    requires COLON !in name
    ensures HasName(name + COLON_TEXT + value) && Name(name + COLON_TEXT + value) == name
    ensures Value(name + COLON_TEXT + value) == Stripped(value)
  {
    LineIs((name, value));
  }

  lemma {:induction false} LengthLine(n: nat)
    ensures var line := LENGTH_TEXT + Decimal(n); Called(line, CONTENT_LENGTH) && Value(line) == Decimal(n)
  {
    hide Decimal;
    var name := Ascii("Content-Length");
    var line := LENGTH_TEXT + Decimal(n);
    NameOf(name, Decimal(n));
    assert Lower(name) == CONTENT_LENGTH;
    DecimalDigits(n);
    assert line[15] == 32 && line[16] == Decimal(n)[0];
    assert SkipBlank(line, 15) == 16;
    assert line[16..] == Decimal(n);
  }

  /** A line that says nothing about how the body is framed. */
  predicate Plain(line: Str) {
    && line != [] && NoBreak(line)
    && !Called(line, CONTENT_LENGTH) && !Called(line, TRANSFER_ENCODING)
  }

  lemma {:induction false} NoBreaks(a: Str, b: Str)
    requires NoBreak(a) && NoBreak(b)
    ensures NoBreak(a + b)
  {
  }

  lemma {:induction false} KeptPlain(headers: seq<(Str, Str)>, k: nat)
    requires k <= |headers|
    requires forall i :: 0 <= i < k ==>
      headers[i].0 != [] && NoBreak(headers[i].0) && NoBreak(headers[i].1) && COLON !in headers[i].0
    ensures forall i :: 0 <= i < |KeptLines(headers, k)| ==> Plain(KeptLines(headers, k)[i])
  {
    hide Lower, Find, Name, HasName;
    if k > 0 {
      KeptPlain(headers, k - 1);
      NameOf(headers[k - 1].0, headers[k - 1].1);
    }
  }

  /** A header whose name is no framing header's. */
  lemma {:induction false} NamedPlain(name: Str, value: Str)
    requires name != [] && COLON !in name && NoBreak(name) && NoBreak(value) && |name| != 14 && |name| != 17
    ensures Plain(name + COLON_TEXT + value)
  {
    hide Find, Name, HasName, Ascii, Value;
    NameOf(name, value);
    ColonText();
    NoBreaks(name, COLON_TEXT);
    NoBreaks(name + COLON_TEXT, value);
    assert |Lower(name)| == |name|;
  }

  lemma {:induction false} ColonText()
    ensures NoBreak(COLON_TEXT)
  {
  }

  lemma {:induction false} HostLine(addr: Str)
    requires NoBreak(addr)
    ensures Plain(HOST_TEXT + addr)
  {
    hide Plain;
    NamedPlain(Ascii("Host"), addr);
  }

  lemma {:induction false} KeepAliveLine()
    ensures Plain(KEEP_ALIVE_TEXT)
  {
    hide Plain;
    NamedPlain(Ascii("Connection"), Ascii("keep-alive"));
  }

  /** Whatever headers the visitor sent, a local service that frames messages as the client does
      takes exactly the visitor's body for the body: by its length, or none at all. */
  lemma {:induction false} RequestIsFramed(addr: Str, req: Request)
    requires RequestOk(addr, req)
    ensures var start, lines := RequestStart(req), RequestLines(addr, req); var m := ParseMeta(HeadBytes(start, lines));
      && HeadOk(start, lines) && RequestBytes(addr, req) == HeadBytes(start, lines) + req.body
      && !m.chunked && m.length == if req.body == [] then -1 else |req.body|
  {
    hide Lower, Find, Name, HasName, Value, Number, Decimal, Absorb, AbsorbAll, ParseMeta, KeptLines, HeadBytes, Called, Plain;
    var start, lines := RequestStart(req), RequestLines(addr, req);
    HostLine(addr);
    KeepAliveLine();
    KeptPlain(req.headers, |req.headers|);
    FramingLine(|req.body|);
    PlainIs(lines, req.body == []);
    assert start != [] && NoBreak(start);
    HeadParsed(start, lines);
    MetaMeans(StartMeta(start), lines);
    LengthMeans(StartMeta(start), lines);
    NumberOfDecimal(|req.body|);
  }

  lemma {:induction false} FramingLine(n: nat)
    ensures var line := LENGTH_TEXT + Decimal(n);
      line != [] && NoBreak(line) && Called(line, CONTENT_LENGTH) && Value(line) == Decimal(n)
          && !Called(line, TRANSFER_ENCODING)
  {
    hide Called, Value, Decimal;
    LengthLine(n);
    DecimalDigits(n);
    NoBreaks(LENGTH_TEXT, Decimal(n));
    OneName(LENGTH_TEXT + Decimal(n));
  }

  lemma {:induction false} OneName(line: Str)
    ensures !(Called(line, CONTENT_LENGTH) && Called(line, TRANSFER_ENCODING))
  {
    hide Name, Lower;
    assert |CONTENT_LENGTH| != |TRANSFER_ENCODING|;
  }

  lemma {:induction false} PlainIs(lines: seq<Str>, all: bool)
    requires forall i :: 0 <= i < |lines| && (all || i < |lines| - 1) ==> Plain(lines[i])
    requires !all ==> lines != [] && lines[|lines| - 1] != [] && NoBreak(lines[|lines| - 1])
    ensures forall i :: 0 <= i < |lines| ==> lines[i] != [] && NoBreak(lines[i])
    ensures forall i :: 0 <= i < |lines| && (all || i < |lines| - 1) ==>
      !Called(lines[i], CONTENT_LENGTH) && !Called(lines[i], TRANSFER_ENCODING)
  {
    hide Called;
  }

  // ---- what a local service reads ----

  /** The headers of a visitor that the client replaces or leaves out. */
  predicate Replaced(h: Header) {
    || Named(h, "host") || Named(h, "content-length") || Named(h, "connection") || Named(h, "transfer-encoding")
    || Named(h, "accept-encoding")
  }

  function Kept(hs: seq<Header>, k: nat): seq<Header>
    requires k <= |hs|
  {
    if k == 0 then [] else Kept(hs, k - 1) + if Replaced(hs[k - 1]) then [] else [hs[k - 1]]
  }

  /** All headers that are written. */
  function SentHeaders(addr: Str, req: Request): seq<Header> {
    [(Ascii("Host"), addr), (Ascii("Connection"), Ascii("keep-alive"))] + Kept(req.headers, |req.headers|)
      + if req.body == [] then [] else [(Ascii("Content-Length"), Decimal(|req.body|))]
  }

  lemma {:induction false} KeptAre(hs: seq<Header>, k: nat)
    requires k <= |hs|
    ensures KeptLines(hs, k) == HeaderLines(Kept(hs, k))
  {
    hide Lower, Ascii;
    if k > 0 { KeptAre(hs, k - 1); }
  }

  lemma {:induction false} LinesAre(addr: Str, req: Request)
    ensures RequestLines(addr, req) == HeaderLines(SentHeaders(addr, req))
  {
    hide Decimal, KeptLines, Kept, Ascii;
    KeptAre(req.headers, |req.headers|);
  }

  lemma {:induction false} KeptOk(hs: seq<Header>, k: nat)
    requires k <= |hs| && forall i :: 0 <= i < k ==> HeaderOk(hs[i])
    ensures HeadersOk(Kept(hs, k))
  {
    hide HeaderOk, Replaced;
    if k > 0 { KeptOk(hs, k - 1); }
  }

  lemma {:induction false} SentOk(addr: Str, req: Request)
    requires RequestOk(addr, req)
    ensures HeadersOk(SentHeaders(addr, req))
  {
    hide Kept, Decimal, Ascii, NoBreak;
    assert forall i :: 0 <= i < |req.headers| ==> HeaderOk(req.headers[i]);
    KeptOk(req.headers, |req.headers|);
    DigitsNoBreak(|req.body|);
    TextOk("Host", addr);
    TextNoBreak("keep-alive");
    TextOk("Connection", Ascii("keep-alive"));
    TextOk("Content-Length", Decimal(|req.body|));
  }

  lemma {:induction false} DigitsNoBreak(n: nat)
    ensures NoBreak(Decimal(n))
  {
    hide Decimal;
    DecimalDigits(n);
  }

  /** Letters and dashes. */
  predicate PlainText(s: string) { forall i :: 0 <= i < |s| ==> s[i] == '-' || 'A' <= s[i] <= 'z' }

  lemma {:induction false} TextNoBreak(s: string)
    requires PlainText(s)
    ensures NoBreak(Ascii(s)) && COLON !in Ascii(s)
  {
    assert forall i :: 0 <= i < |s| ==> Ascii(s)[i] == s[i] as int % 256;
  }

  lemma {:induction false} TextOk(name: string, value: Str)
    requires name != [] && PlainText(name) && NoBreak(value)
    ensures HeaderOk((Ascii(name), value))
  {
    hide Ascii;
    TextNoBreak(name);
  }

  lemma {:induction false} InKept(hs: seq<Header>, k: nat, h: Header)
    requires k <= |hs|
    ensures h in Kept(hs, k) <==> exists i :: 0 <= i < k && hs[i] == h && !Replaced(h)
  {
    hide Replaced;
    if k > 0 { InKept(hs, k - 1, h); }
  }

  /** The last header of its name is the last one that is kept. */
  lemma {:induction false} LastKept(hs: seq<Header>, k: nat, i: nat) returns (j: nat)
    requires k <= |hs| && LastOfName(hs, k, i) && !Replaced(hs[i])
    ensures j < |Kept(hs, k)| && Kept(hs, k)[j] == hs[i] && LastOfName(Kept(hs, k), |Kept(hs, k)|, j)
  {
    hide Replaced;
    if i == k - 1 {
      j := |Kept(hs, k)| - 1;
    } else {
      j := LastKept(hs, k - 1, i);
      assert hs[k - 1].0 != hs[i].0;
    }
  }

  /** The headers of the request, as the service finds them: the address it was reached at, and what
      the visitor sent except for what is replaced. */
  ghost predicate VisitorHeaders(m: map<Str, Str>, addr: Str, hs: seq<Header>) {
    && (forall k :: k in m <==> k == Ascii("Host") || exists i :: 0 <= i < |hs| && hs[i].0 == k && !Replaced(hs[i]))
    && Ascii("Host") in m && m[Ascii("Host")] == Stripped(addr)
    && (forall i: nat :: i < |hs| && LastOfName(hs, |hs|, i) && !Replaced(hs[i]) ==>
          hs[i].0 in m && m[hs[i].0] == Stripped(hs[i].1))
  }

  /** What the client writes itself: one header that is passed on, and framing ones. */
  lemma {:induction false} OwnNames(v: Str)
    ensures Replaced((Ascii("Host"), v)) && !Framing((Ascii("Host"), v))
    ensures Framing((Ascii("Connection"), v)) && Framing((Ascii("Content-Length"), v))
    ensures Ascii("Connection") != Ascii("Host") && Ascii("Content-Length") != Ascii("Host")
  {
    assert |Lower(Ascii("Host"))| == 4;
    assert Lower(Ascii("Host")) == Ascii("host") && Lower(Ascii("Connection")) == Ascii("connection");
    assert Lower(Ascii("Content-Length")) == Ascii("content-length");
  }

  lemma {:induction false} SameName(h: Header, g: Header)
    requires h.0 == g.0
    ensures Replaced(h) == Replaced(g) && Framing(h) == Framing(g) && (Framing(h) ==> Replaced(h))
  {
  }

  /** Where every header stands that is written. */
  lemma {:induction false} SentParts(addr: Str, req: Request, i: nat)
    requires i < |SentHeaders(addr, req)|
    ensures var h, kept := SentHeaders(addr, req)[i], Kept(req.headers, |req.headers|);
      if i == 0 then h == (Ascii("Host"), addr) && !Framing(h)
      else if 2 <= i < |kept| + 2 then h == kept[i - 2] && !Framing(h) && !Replaced(h)
      else Framing(h) && h.0 != Ascii("Host")
  {
    hide Kept, Replaced, Framing, Decimal, Ascii;
    var h, kept := SentHeaders(addr, req)[i], Kept(req.headers, |req.headers|);
    OwnNames(h.1);
    SameName(h, h);
    if 2 <= i < |kept| + 2 {
      assert h == kept[i - 2] && h in kept;
      InKept(req.headers, |req.headers|, h);
    }
  }

  lemma {:induction false} NameArrives(m: map<Str, Str>, addr: Str, req: Request, k: Str)
    requires var hs := SentHeaders(addr, req); HeadersAre(m, hs, |hs|)
    ensures k in m <==> k == Ascii("Host") || exists i :: 0 <= i < |req.headers| && req.headers[i].0 == k && !Replaced(req.headers[i])
  {
    hide Kept, Replaced, Framing, SentHeaders, Ascii;
    var hs, vs := SentHeaders(addr, req), req.headers;
    var kept := Kept(vs, |vs|);
    SentSize(addr, req);
    if k in m {
      var i: nat :| i < |hs| && hs[i].0 == k && !Framing(hs[i]);
      SentParts(addr, req, i);
      InKept(vs, |vs|, hs[i]);
    }
    if k == Ascii("Host") { SentParts(addr, req, 0); }
    if i :| 0 <= i < |vs| && vs[i].0 == k && !Replaced(vs[i]) {
      InKept(vs, |vs|, vs[i]);
      var j :| 0 <= j < |kept| && kept[j] == vs[i];
      SentParts(addr, req, j + 2);
    }
  }

  lemma {:induction false} SentSize(addr: Str, req: Request)
    ensures |SentHeaders(addr, req)| >= |Kept(req.headers, |req.headers|)| + 2
  {
    hide Kept, Decimal, Ascii;
  }

  lemma {:induction false} HostArrives(m: map<Str, Str>, addr: Str, req: Request)
    requires var hs := SentHeaders(addr, req); HeadersAre(m, hs, |hs|)
    ensures Ascii("Host") in m && m[Ascii("Host")] == Stripped(addr)
  {
    hide Kept, Replaced, Framing, SentHeaders, Ascii, Stripped;
    var hs := SentHeaders(addr, req);
    SentSize(addr, req);
    SentParts(addr, req, 0);
    forall j | 0 < j < |hs| ensures hs[j].0 != hs[0].0 {
      SentParts(addr, req, j);
      OwnNames(addr);
      if hs[j].0 == hs[0].0 { SameName(hs[j], hs[0]); }
    }
    assert LastOfName(hs, |hs|, 0);
  }

  lemma {:induction false} ValueArrives(m: map<Str, Str>, addr: Str, req: Request, i: nat)
    requires var hs := SentHeaders(addr, req); HeadersAre(m, hs, |hs|)
    requires LastOfName(req.headers, |req.headers|, i) && !Replaced(req.headers[i])
    ensures req.headers[i].0 in m && m[req.headers[i].0] == Stripped(req.headers[i].1)
  {
    hide Kept, Replaced, Framing, SentHeaders, Ascii, Stripped;
    var hs, vs := SentHeaders(addr, req), req.headers;
    var kept := Kept(vs, |vs|);
    SentSize(addr, req);
    var j := LastKept(vs, |vs|, i);
    SentParts(addr, req, j + 2);
    forall k | j + 2 < k < |hs| ensures hs[k].0 != hs[j + 2].0 {
      SentParts(addr, req, k);
      if hs[k].0 == hs[j + 2].0 { SameName(hs[k], hs[j + 2]); }
    }
    assert LastOfName(hs, |hs|, j + 2);
  }

  lemma {:induction false} SentAre(m: map<Str, Str>, addr: Str, req: Request)
    requires var hs := SentHeaders(addr, req); HeadersAre(m, hs, |hs|)
    ensures VisitorHeaders(m, addr, req.headers)
  {
    hide Replaced, SentHeaders, Ascii, Stripped, HeadersAre;
    var vs := req.headers;
    forall k ensures k in m <==> k == Ascii("Host") || exists i :: 0 <= i < |vs| && vs[i].0 == k && !Replaced(vs[i]) {
      NameArrives(m, addr, req, k);
    }
    HostArrives(m, addr, req);
    forall i: nat | LastOfName(vs, |vs|, i) && !Replaced(vs[i]) ensures vs[i].0 in m && m[vs[i].0] == Stripped(vs[i].1) {
      ValueArrives(m, addr, req, i);
    }
  }

  // ---- the request line ----

  /** The request line, as a service takes it apart at its blanks. */
  ghost predicate RequestLineIs(b: Str, verb: Str, path: Str) {
    var i := Find(b, 32, 0);
    i < |b| && b[..i] == verb &&
    var j := Find(b, 32, i + 1);
    j < |b| && b[i + 1..j] == path &&
    var e := FindCrlf(b, 0);
    e < |b| && j < e && b[j + 1..e] == Ascii("HTTP/1.1")
  }

  lemma {:induction false} LineParts(verb: Str, path: Str, rest: Str)
    requires NoBreak(verb) && NoBreak(path) && 32 !in verb && 32 !in path
    ensures RequestLineIs(verb + [32] + path + [32] + Ascii("HTTP/1.1") + CRLF + rest, verb, path)
  {
    hide NoBreak, Ascii, Find, FindCrlf;
    var v := Ascii("HTTP/1.1");
    var line := verb + [32] + path + [32] + v;
    var b := line + CRLF + rest;
    LineBlanks(b, verb, path, v + CRLF + rest);
    assert b == verb + [32] + path + [32] + (v + CRLF + rest);
    LineEnds(verb, path, v, rest);
    var j := |verb| + 1 + |path|;
    assert b[j + 1..|line|] == v;
  }

  lemma {:induction false} LineBlanks(b: Str, verb: Str, path: Str, rest: Str)
    requires b == verb + [32] + path + [32] + rest && 32 !in verb && 32 !in path
    ensures Find(b, 32, 0) == |verb| && Find(b, 32, |verb| + 1) == |verb| + 1 + |path| < |b|
    ensures b[..|verb|] == verb && b[|verb| + 1..|verb| + 1 + |path|] == path
  {
    var i, j := |verb|, |verb| + 1 + |path|;
    assert forall k :: 0 <= k < i ==> b[k] == verb[k];
    assert forall k :: i < k < j ==> b[k] == path[k - i - 1];
    assert b[i] == 32 && b[j] == 32;
    FindFirst(b, 32, i, 0);
    FindFirst(b, 32, j, i + 1);
  }

  lemma {:induction false} LineEnds(verb: Str, path: Str, v: Str, rest: Str)
    requires NoBreak(verb) && NoBreak(path) && v == Ascii("HTTP/1.1")
    ensures var line := verb + [32] + path + [32] + v; FindCrlf(line + CRLF + rest, 0) == |line|
  {
    hide FindCrlf;
    var line := verb + [32] + path + [32] + v;
    VersionNoBreak();
    NoBreaks(verb, [32]);
    NoBreaks(verb + [32], path);
    NoBreaks(verb + [32] + path, [32]);
    NoBreaks(verb + [32] + path + [32], v);
    var b := line + CRLF + rest;
    assert forall k :: 0 <= k < |line| + 2 ==> b[k] == (line + CRLF)[k];
    CrlfFrom(b, 0, line, 0);
  }

  lemma {:induction false} VersionNoBreak()
    ensures NoBreak(Ascii("HTTP/1.1"))
  {
  }

  /** A service finds the visitor's verb and path in the request line, the visitor's headers but
      for the replaced ones with their values, the address it was reached at, the wish to keep
      the connection, and the visitor's body behind the head. */
  lemma {:induction false} RequestMeans(addr: Str, req: Request)
    requires RequestOk(addr, req)
    ensures var head := HeadBytes(RequestStart(req), RequestLines(addr, req)); var m := ParseMeta(head);
      && RequestBytes(addr, req) == head + req.body
      && (32 !in req.verb && 32 !in req.path ==> RequestLineIs(RequestBytes(addr, req), req.verb, req.path))
      && VisitorHeaders(m.headers, addr, req.headers)
      && !m.chunked && !m.close && m.keep && m.length == if req.body == [] then -1 else |req.body|
  {
    hide ParseMeta, RequestLines, VisitorHeaders, RequestLineIs, TrailerBytes, RequestOk, HeadOk, Ascii;
    var start := RequestStart(req);
    RequestIsFramed(addr, req);
    HeadersArrive(addr, req);
    LineOk(addr, req);
    if 32 !in req.verb && 32 !in req.path {
      StartText(req);
      LineParts(req.verb, req.path, TrailerBytes(RequestLines(addr, req)) + req.body);
      assert RequestBytes(addr, req) == start + CRLF + (TrailerBytes(RequestLines(addr, req)) + req.body);
    }
  }

  lemma {:induction false} LineOk(addr: Str, req: Request)
    requires RequestOk(addr, req)
    ensures NoBreak(req.verb) && NoBreak(req.path)
  {
  }

  lemma {:induction false} HeadersArrive(addr: Str, req: Request)
    requires RequestOk(addr, req)
    ensures var m := ParseMeta(HeadBytes(RequestStart(req), RequestLines(addr, req)));
      VisitorHeaders(m.headers, addr, req.headers) && !m.close && m.keep
  {
    hide ParseMeta, AbsorbAll, RequestLines, SentHeaders, HeadersAre, VisitorHeaders, Says, LengthIs, Decimal, TrailerBytes, RequestOk;
    var start, hs := RequestStart(req), SentHeaders(addr, req);
    RequestIsFramed(addr, req);
    LinesAre(addr, req);
    SentOk(addr, req);
    HeadParsed(start, RequestLines(addr, req));
    StartIsBare(start);
    HeadersMean(StartMeta(start), hs, |hs|);
    assert hs[..|hs|] == hs;
    SentAre(ParseMeta(HeadBytes(start, RequestLines(addr, req))).headers, addr, req);
    OwnWish(addr, req);
  }

  lemma {:induction false} StartIsBare(start: Str)
    ensures var m := StartMeta(start); !m.chunked && !m.close && !m.keep && m.length == -1 && m.headers == map[]
  {
  }

  lemma {:induction false} StartText(req: Request)
    ensures RequestStart(req) == req.verb + [32] + req.path + [32] + Ascii("HTTP/1.1")
  {
    assert VERSION_TEXT == [32] + Ascii("HTTP/1.1") && SPACE == [32];
  }

  /** Of the headers that are written only the client's own one is about the connection. */
  lemma {:induction false} OwnWish(addr: Str, req: Request)
    ensures var hs := SentHeaders(addr, req);
      Says(hs, |hs|, "connection", "keep-alive") && !Says(hs, |hs|, "connection", "close")
  {
    hide Kept, Replaced, Decimal;
    var hs := SentHeaders(addr, req);
    var wish := Ascii("keep-alive");
    SentSize(addr, req);
    assert hs[1] == (Ascii("Connection"), wish);
    WishSays();
    forall i: nat | i < |hs| && Named(hs[i], "connection") ensures hs[i] == hs[1] {
      SentParts(addr, req, i);
      NotTheWish(hs[i]);
    }
  }

  lemma {:induction false} WishSays()
    ensures Named((Ascii("Connection"), Ascii("keep-alive")), "connection")
    ensures Contains(Stripped(Ascii("keep-alive")), Ascii("keep-alive")) && !Contains(Stripped(Ascii("keep-alive")), Ascii("close"))
  {
    var wish, close := Ascii("keep-alive"), Ascii("close");
    assert Lower(Ascii("Connection")) == Ascii("connection");
    assert wish[0] == 107 && Stripped(wish) == wish;
    assert wish[0..0 + |wish|] == wish && OccursAt(wish, wish, 0);
    forall i | 0 <= i <= |wish| - |close| ensures !OccursAt(wish, close, i) {
      assert close[0] == 99;
      assert forall j :: 0 <= j < |wish| ==> wish[j] != 99;
      assert wish[i..i + |close|][0] == wish[i];
    }
  }

  lemma {:induction false} NotTheWish(h: Header)
    ensures Named(h, "connection") ==> Framing(h) && Replaced(h) && h.0 != Ascii("Content-Length") && h.0 != Ascii("Host")
  {
    assert |Ascii("Content-Length")| == 14 && |Ascii("connection")| == 10 && |Ascii("Host")| == 4;
  }
}
