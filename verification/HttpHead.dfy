/** The response head: reading it byte by byte, and what the client takes from it. */
module HttpHead {
  import opened Bytes
  import opened Decimals
  import opened Net
  import opened HttpBody
  import opened Chunked

  type Str = seq<byte>

  const MAX_HEAD: nat := 65536
  const COLON: byte := 58

  // ---- finding the end of the head ----

  /** The first `n` bytes from `p` end with an empty line. */
  predicate EndsHead(d: seq<byte>, p: nat, n: nat)
    requires p + n <= |d|
  {
    n >= 4 && d[p + n - 4] == CR && d[p + n - 3] == LF && d[p + n - 2] == CR && d[p + n - 1] == LF
  }

  ghost predicate IsHead(d: seq<byte>, p: nat, n: nat) {
    n <= MAX_HEAD && p + n <= |d| && EndsHead(d, p, n) && forall m :: 0 <= m < n ==> !EndsHead(d, p, m)
  }

  /** How long the head at `p` is, if there is one. */
  ghost function HeadLen(d: seq<byte>, p: nat): Option<nat> {
    if exists n :: IsHead(d, p, n) then
      var n :| IsHead(d, p, n);
      Some(n)
    else None
  }

  lemma {:induction false} OneHead(d: seq<byte>, p: nat, n: nat)
    requires IsHead(d, p, n)
    ensures HeadLen(d, p) == Some(n)
  {
    var m := HeadLen(d, p).value;
    assert IsHead(d, p, m);
  }

  lemma {:induction false} NoHead(d: seq<byte>, p: nat, k: nat)
    requires p + k <= |d| && forall m :: 0 <= m <= k ==> !EndsHead(d, p, m)
    requires k >= MAX_HEAD || p + k == |d|
    ensures HeadLen(d, p) == None
  {
    forall n ensures !IsHead(d, p, n) {}
  }

  lemma {:induction false} HeadTest(d: seq<byte>, p: nat, n: nat)
    requires p + n <= |d|
    ensures var head := d[p..p + n];
      EndsHead(d, p, n) <==> |head| >= 4 && head[|head| - 4..] == CRLF + CRLF
  {
    var head := d[p..p + n];
    if |head| >= 4 {
      var e := p + n;
      assert head[|head| - 4..] == [d[e - 4], d[e - 3], d[e - 2], d[e - 1]] && CRLF + CRLF == [13, 10, 13, 10];
    }
  }

  lemma {:induction false} Snoc(d: seq<byte>, p: nat, e: nat)
    requires p < e <= |d|
    ensures d[p..e] == d[p..e - 1] + [d[e - 1]]
  {
  }

  method ReadHttpHead(s: Socket) returns (ok: bool, head: Str)
    requires s.Valid() && s.Patient()
    modifies s
    ensures s.Valid() && s.written == old(s.written)
    ensures match HeadLen(s.data, old(s.pos))
      case Some(n) => ok && s.pos == old(s.pos) + n && head == s.data[old(s.pos)..s.pos]
      case None => !ok
  {
    hide EndsHead, HeadLen, IsHead;
    ghost var p := s.pos;
    head := [];
    HeadTest(s.data, p, 0);
    while |head| < MAX_HEAD
      invariant s.Valid() && p <= s.pos && s.written == old(s.written)
      invariant head == s.data[p..s.pos] && |head| <= MAX_HEAD
      invariant forall m :: 0 <= m <= |head| ==> !EndsHead(s.data, p, m)
      decreases MAX_HEAD - |head|
    {
      var r := s.ReadSome(1);
      if !r.Got? {
        NoHead(s.data, p, |head|);
        return false, head;
      }
      head := head + [r.bytes[0]];
      Snoc(s.data, p, s.pos);
      HeadTest(s.data, p, |head|);
      if |head| >= 4 && head[|head| - 4..] == CRLF + CRLF {
        OneHead(s.data, p, |head|);
        return true, head;
      }
    }
    NoHead(s.data, p, |head|);
    return false, head;
  }

  // ---- taking the head apart ----

  /** The first CRLF at or after `i`; |s| if there is none. */
  function FindCrlf(s: Str, i: nat): (e: nat)
    requires i <= |s|
    ensures i <= e <= |s|
    decreases |s| - i
  {
    if i + 2 > |s| then |s| else if s[i] == CR && s[i + 1] == LF then i else FindCrlf(s, i + 1)
  }

  /** The header lines from `pos` on, up to the first empty one. */
  function Lines(head: Str, pos: nat): seq<Str>
    decreases |head| - pos
  {
    if pos >= |head| then []
    else
      var e := FindCrlf(head, pos);
      if e == |head| || e == pos then [] else [head[pos..e]] + Lines(head, e + 2)
  }

  function Find(s: Str, c: byte, i: nat): (j: nat)
    requires i <= |s|
    ensures i <= j <= |s|
    ensures j < |s| ==> s[j] == c
    decreases |s| - i
  {
    if i == |s| || s[i] == c then i else Find(s, c, i + 1)
  }

  function SkipBlank(s: Str, i: nat): (j: nat)
    requires i <= |s|
    ensures i <= j <= |s|
    decreases |s| - i
  {
    if i < |s| && (s[i] == 32 || s[i] == 9) then SkipBlank(s, i + 1) else i
  }

  function ToLower(c: byte): byte { if 65 <= c <= 90 then c + 32 else c }

  function Lower(s: Str): (r: Str)
    ensures |r| == |s| && forall i :: 0 <= i < |s| ==> r[i] == ToLower(s[i])
  {
    seq(|s|, i requires 0 <= i < |s| => ToLower(s[i]))
  }

  /** A signed decimal number after blanks, saturating at `max` and `-max - 1`; 0 without digits. */
  function Number(s: Str, from: nat, max: nat): int
    requires from <= |s|
  {
    var i := SkipSpace(s, from);
    var neg := i < |s| && s[i] == 45;
    var j := if i < |s| && (s[i] == 45 || s[i] == 43) then i + 1 else i;
    var v: int := DecRun(s, j, 0);
    var top: int := max;
    if neg then (if v > top then -top - 1 else -v) else if v > top then top else v
  }

  /** The end of the word that starts at `i`. */
  function WordEnd(s: Str, i: nat): (j: nat)
    requires i <= |s|
    ensures i <= j <= |s|
    decreases |s| - i
  {
    if i < |s| && !IsSpace(s[i]) then WordEnd(s, i + 1) else i
  }

  /** What the client keeps of a head. `length` is -1 when no Content-Length came. */
  datatype Meta = Meta(http: Str, status: int, chunked: bool, close: bool, keep: bool, length: int,
                       headers: map<Str, Str>)

  const TRANSFER_ENCODING: Str := Ascii("transfer-encoding")
  const CONTENT_LENGTH: Str := Ascii("content-length")
  const CONNECTION: Str := Ascii("connection")
  const CHUNKED: Str := Ascii("chunked")
  const CLOSE: Str := Ascii("close")
  const KEEP_ALIVE: Str := Ascii("keep-alive")
  const HTTP11: Str := Ascii("HTTP/1.1")

  function StartMeta(line: Str): Meta {
    var i := SkipSpace(line, 0);
    var j := WordEnd(line, i);
    Meta(line[i..j], Number(line, j, 0x7fff_ffff), false, false, false, -1, map[])
  }

  predicate HasName(line: Str) { Find(line, COLON, 0) < |line| }

  function Name(line: Str): Str { line[..Find(line, COLON, 0)] }

  function Value(line: Str): Str {
    var c := Find(line, COLON, 0);
    if c == |line| then [] else line[SkipBlank(line, c + 1)..]
  }

  /** The line is a header called `name` (in lower case). */
  predicate Called(line: Str, name: Str) { HasName(line) && Lower(Name(line)) == name }

  function Absorb(m: Meta, line: Str): Meta {
    if !HasName(line) then m
    else
      var k, v, lk := Name(line), Value(line), Lower(Name(line));
      m.(chunked := m.chunked || (lk == TRANSFER_ENCODING && Contains(v, CHUNKED)),
         length := if lk == CONTENT_LENGTH then Number(v, 0, 0x7fff_ffff_ffff_ffff) else m.length,
         close := m.close || (lk == CONNECTION && Contains(v, CLOSE)),
         keep := m.keep || (lk == CONNECTION && Contains(v, KEEP_ALIVE)),
         headers := if lk == CONTENT_LENGTH || lk == CONNECTION || lk == TRANSFER_ENCODING then m.headers
                    else m.headers[k := v])
  }

  function AbsorbAll(m: Meta, lines: seq<Str>): Meta
    decreases |lines|
  {
    if lines == [] then m else AbsorbAll(Absorb(m, lines[0]), lines[1..])
  }

  /** The meaning of a whole head. */
  function ParseMeta(head: Str): Meta {
    var e := FindCrlf(head, 0);
    AbsorbAll(StartMeta(head[..e]), Lines(head, e + 2))
  }

  lemma {:induction false} FewLines(head: Str, pos: nat)
    ensures pos <= |head| ==> |Lines(head, pos)| <= |head| - pos
    ensures pos > |head| ==> Lines(head, pos) == []
    decreases |head| - pos
  {
    hide FindCrlf;
    if pos < |head| {
      var e := FindCrlf(head, pos);
      if e != |head| && e != pos { FewLines(head, e + 2); }
    }
  }

  lemma {:induction false} FewAbsorbed(m: Meta, lines: seq<Str>)
    ensures |AbsorbAll(m, lines).headers| <= |m.headers| + |lines|
    decreases |lines|
  {
    if lines != [] {
      OneMore(m, lines[0]);
      FewAbsorbed(Absorb(m, lines[0]), lines[1..]);
    }
  }

  lemma {:induction false} OneMore(m: Meta, line: Str)
    ensures |Absorb(m, line).headers| <= |m.headers| + 1
  {
    hide Find, Lower, Contains, Number, SkipBlank;
    var k := Name(line);
    assert k in m.headers ==> m.headers[k := Value(line)].Keys == m.headers.Keys;
    assert m.headers[k := Value(line)].Keys == m.headers.Keys + {k};
  }

  /** A head that the client accepts has too few lines for 65536 headers. */
  lemma {:induction false} FewHeaders(head: Str)
    requires |head| <= 65536
    ensures |ParseMeta(head).headers| < 0x1_0000
  {
    hide FindCrlf, AbsorbAll, Lines;
    var e := FindCrlf(head, 0);
    FewLines(head, e + 2);
    FewAbsorbed(StartMeta(head[..e]), Lines(head, e + 2));
    assert StartMeta(head[..e]).headers == map[];
  }

  predicate KeepAlive(m: Meta) {
    !m.close && (m.chunked || m.length >= 0) && (StartsWith(m.http, HTTP11) || m.keep)
  }

  method TrimmedValue(line: Str, colon: nat) returns (v: Str)
    requires colon < |line|
    ensures v == line[SkipBlank(line, colon + 1)..]
  {
    v := line[colon + 1..];
    ghost var i := colon + 1;
    while v != [] && (v[0] == 32 || v[0] == 9)
      invariant colon < i <= |line| && v == line[i..]
      invariant SkipBlank(line, i) == SkipBlank(line, colon + 1)
      decreases |v|
    {
      v := v[1..];
      i := i + 1;
    }
  }

  method AbsorbLine(m: Meta, line: Str) returns (r: Meta)
    ensures r == Absorb(m, line)
  {
    hide Lower, Contains, Find, SkipBlank, Number, Ascii;
    r := m;
    var colon := Find(line, COLON, 0);
    if colon < |line| {
      var k := line[..colon];
      var v := TrimmedValue(line, colon);
      var lk := Lower(k);
      if lk == TRANSFER_ENCODING && Contains(v, CHUNKED) { r := r.(chunked := true); }
      if lk == CONTENT_LENGTH { r := r.(length := Number(v, 0, 0x7fff_ffff_ffff_ffff)); }
      if lk == CONNECTION {
        if Contains(v, CLOSE) { r := r.(close := true); }
        if Contains(v, KEEP_ALIVE) { r := r.(keep := true); }
      }
      if lk != CONTENT_LENGTH && lk != CONNECTION && lk != TRANSFER_ENCODING {
        r := r.(headers := r.headers[k := v]);
      }
    }
  }

  method ParseHead(head: Str) returns (m: Meta)
    ensures m == ParseMeta(head)
  {
    hide Absorb, FindCrlf, StartMeta;
    var lineEnd := FindCrlf(head, 0);
    m := StartMeta(head[..lineEnd]);
    var pos := lineEnd + 2;
    ghost var all := AbsorbAll(m, Lines(head, pos));
    while pos < |head|
      invariant AbsorbAll(m, Lines(head, pos)) == all
      decreases |head| - pos
    {
      var e := FindCrlf(head, pos);
      if e == |head| || e == pos { break; }
      m := AbsorbLine(m, head[pos..e]);
      assert Lines(head, pos)[1..] == Lines(head, e + 2);
      pos := e + 2;
    }
  }

  // ---- what the parsed fields mean ----

  /** Which headers decided: any chunked coding, any close, any keep-alive; hop-by-hop headers are dropped. */
  lemma {:induction false} MetaMeans(m: Meta, lines: seq<Str>)
    ensures var r := AbsorbAll(m, lines);
      && (r.chunked <==> m.chunked || exists i :: 0 <= i < |lines| && Called(lines[i], TRANSFER_ENCODING) && Contains(Value(lines[i]), CHUNKED))
      && (r.close <==> m.close || exists i :: 0 <= i < |lines| && Called(lines[i], CONNECTION) && Contains(Value(lines[i]), CLOSE))
      && r.http == m.http && r.status == m.status
      && forall k :: k in r.headers ==> k in m.headers || (Lower(k) != CONNECTION && Lower(k) != TRANSFER_ENCODING && Lower(k) != CONTENT_LENGTH)
    decreases |lines|
  {
    hide Contains, Lower, Value, Name, HasName;
    if lines != [] {
      var t := lines[1..];
      MetaMeans(Absorb(m, lines[0]), t);
      assert forall i :: 0 < i < |lines| ==> lines[i] == t[i - 1];
    }
  }

  predicate LastLength(lines: seq<Str>, i: nat)
    requires i < |lines|
  {
    Called(lines[i], CONTENT_LENGTH) && forall j :: i < j < |lines| ==> !Called(lines[j], CONTENT_LENGTH)
  }

  /** The last Content-Length line counts; without one the length stays as it was. */
  lemma {:induction false} LengthMeans(m: Meta, lines: seq<Str>)
    ensures var r := AbsorbAll(m, lines);
      || (exists i :: 0 <= i < |lines| && LastLength(lines, i) && r.length == Number(Value(lines[i]), 0, 0x7fff_ffff_ffff_ffff))
      || (r.length == m.length && forall j :: 0 <= j < |lines| ==> !Called(lines[j], CONTENT_LENGTH))
    decreases |lines|
  {
    hide Contains, Lower, Value, Name, HasName, Number;
    if lines != [] {
      var t := lines[1..];
      LengthMeans(Absorb(m, lines[0]), t);
      assert forall i :: 0 < i < |lines| ==> lines[i] == t[i - 1];
    }
  }

  // ---- heads as a sender writes them ----

  predicate HeadOk(start: Str, lines: seq<Str>) {
    start != [] && NoBreak(start) && forall i :: 0 <= i < |lines| ==> lines[i] != [] && NoBreak(lines[i])
  }

  function HeadBytes(start: Str, lines: seq<Str>): (w: Str)
    ensures |w| >= 4
  {
    start + CRLF + TrailerBytes(lines)
  }

  lemma {:induction false} HeadEndsOnce(start: Str, lines: seq<Str>)
    requires HeadOk(start, lines)
    ensures EndsOnce(HeadBytes(start, lines)) && |HeadBytes(start, lines)| > 4
  {
    var all := [start] + lines;
    assert all[1..] == lines;
    TrailersEndOnce(all);
    assert HeadBytes(start, lines) == TrailerBytes(all);
  }

  /** A complete head is found whole; a cut-off head is not found. */
  lemma {:induction false} HeadFound(d: seq<byte>, p: nat, start: Str, lines: seq<Str>)
    requires HeadOk(start, lines) && p <= |d| && Shows(d, p, HeadBytes(start, lines))
    requires |HeadBytes(start, lines)| <= 65536
    ensures HeadLen(d, p) == if p + |HeadBytes(start, lines)| <= |d| then Some(|HeadBytes(start, lines)|) else None
  {
    hide HeadLen, TrailerBytes;
    HeadEndsOnce(start, lines);
    var w := HeadBytes(start, lines);
    forall m | 0 <= m < |w| && p + m <= |d| ensures !EndsHead(d, p, m) { NotYet(d, p, w, m); }
    if p + |w| <= |d| {
      var n := |w|;
      assert d[p + (n - 4)] == w[n - 4] && d[p + (n - 3)] == w[n - 3] && d[p + (n - 2)] == w[n - 2]
          && d[p + (n - 1)] == w[n - 1];
      OneHead(d, p, |w|);
    } else {
      NoHead(d, p, |d| - p);
    }
  }

  lemma {:induction false} NotYet(d: seq<byte>, p: nat, w: Str, m: nat)
    requires EndsOnce(w) && |w| > 4 && Shows(d, p, w) && m < |w| && p + m <= |d|
    ensures !EndsHead(d, p, m)
  {
    if m >= 4 {
      assert d[p + (m - 3)] == w[m - 3] && d[p + (m - 2)] == w[m - 2];
    }
  }

  lemma {:induction false} CrlfFrom(s: Str, pos: nat, line: Str, i: nat)
    requires NoBreak(line) && Shows(s, pos, line + CRLF) && pos + |line| + 2 <= |s| && i <= |line|
    ensures FindCrlf(s, pos + i) == pos + |line|
    decreases |line| - i
  {
    var w := line + CRLF;
    assert s[pos + i] == w[i];
    if i < |line| {
      CrlfFrom(s, pos, line, i + 1);
    } else {
      assert s[pos + (i + 1)] == w[i + 1];
    }
  }

  lemma {:induction false} LinesBack(head: Str, pos: nat, lines: seq<Str>)
    requires forall i :: 0 <= i < |lines| ==> lines[i] != [] && NoBreak(lines[i])
    requires Shows(head, pos, TrailerBytes(lines)) && pos + |TrailerBytes(lines)| == |head|
    ensures Lines(head, pos) == lines
    decreases |lines|
  {
    hide FindCrlf;
    if lines == [] {
      assert CRLF == [] + CRLF;
      CrlfFrom(head, pos, [], 0);
    } else {
      var t := lines[0];
      ShowsParts(head, pos, t + CRLF, TrailerBytes(lines[1..]));
      ShowsParts(head, pos, t, CRLF);
      CrlfFrom(head, pos, t, 0);
      LinesBack(head, pos + |t| + 2, lines[1..]);
      assert head[pos..pos + |t|] == t;
    }
  }

  /** Parsing a head gives back the lines it was written from. */
  lemma {:induction false} HeadParsed(start: Str, lines: seq<Str>)
    requires HeadOk(start, lines)
    ensures ParseMeta(HeadBytes(start, lines)) == AbsorbAll(StartMeta(start), lines)
  {
    hide FindCrlf, AbsorbAll, StartMeta, Lines;
    var head := HeadBytes(start, lines);
    ShowsParts(head, 0, start + CRLF, TrailerBytes(lines));
    CrlfFrom(head, 0, start, 0);
    assert head[..|start|] == start;
    LinesBack(head, |start| + 2, lines);
  }
}
