/** What the client takes from a head, in terms of the version, the status and the headers that the
    sender wrote, not of the bytes it wrote them as. */
module WrittenHead {
  import opened Bytes
  import opened Decimals
  import opened HttpBody
  import opened Chunked
  import opened HttpHead

  type Header = (Str, Str)

  function HeaderLine(h: Header): Str { h.0 + Ascii(": ") + h.1 }

  function HeaderLines(hs: seq<Header>): (lines: seq<Str>)
    ensures |lines| == |hs|
  {
    seq(|hs|, i requires 0 <= i < |hs| => HeaderLine(hs[i]))
  }

  /** A name and a value that cannot be taken for anything else. */
  predicate HeaderOk(h: Header) {
    h.0 != [] && NoBreak(h.0) && NoBreak(h.1) && COLON !in h.0
  }

  predicate HeadersOk(hs: seq<Header>) { forall i :: 0 <= i < |hs| ==> HeaderOk(hs[i]) }

  /** The value without the blanks and tabs in front. */
  function Stripped(v: Str): Str {
    if v != [] && (v[0] == 32 || v[0] == 9) then Stripped(v[1..]) else v
  }

  predicate Named(h: Header, name: string) { Lower(h.0) == Ascii(name) }

  /** The three headers that are about this connection only. */
  predicate Framing(h: Header) {
    Named(h, "content-length") || Named(h, "connection") || Named(h, "transfer-encoding")
  }

  /** One of the first `n` headers has this name and says this. */
  predicate Says(hs: seq<Header>, n: nat, name: string, what: string)
    requires n <= |hs|
  {
    exists i :: 0 <= i < n && Named(hs[i], name) && Contains(Stripped(hs[i].1), Ascii(what))
  }

  /** The last of the first `n` headers of its name, in this spelling. */
  predicate LastOfName(hs: seq<Header>, n: nat, i: nat)
    requires n <= |hs|
  {
    i < n && forall j :: i < j < n ==> hs[j].0 != hs[i].0
  }

  /** The last of the first `n` headers that give a length, however spelt. */
  predicate GivesLength(hs: seq<Header>, n: nat, i: nat)
    requires n <= |hs|
  {
    i < n && Named(hs[i], "content-length") && forall j :: i < j < n ==> !Named(hs[j], "content-length")
  }

  /** `m` holds what the first `n` headers say: every header but the framing ones, under its name
      with the value that came last. */
  ghost predicate HeadersAre(m: map<Str, Str>, hs: seq<Header>, n: nat)
    requires n <= |hs|
  {
    && (forall k :: k in m <==> exists i :: 0 <= i < n && hs[i].0 == k && !Framing(hs[i]))
    && (forall i: nat :: i < n && LastOfName(hs, n, i) && !Framing(hs[i]) ==> hs[i].0 in m && m[hs[i].0] == Stripped(hs[i].1))
  }

  /** The length a response or a request is framed by. */
  ghost predicate LengthIs(length: int, hs: seq<Header>, n: nat)
    requires n <= |hs|
  {
    && ((forall i :: 0 <= i < n ==> !Named(hs[i], "content-length")) ==> length == -1)
    && (forall i: nat, k: nat :: GivesLength(hs, n, i) && Stripped(hs[i].1) == Decimal(k) && k <= 0x7fff_ffff_ffff_ffff ==> length == k)
  }

  /** The map after one more header. */
  function Taken(m: map<Str, Str>, h: Header): map<Str, Str> { if Framing(h) then m else m[h.0 := Stripped(h.1)] }

  // ---- the start line ----

  /** `HTTP/1.1 200 OK` and the like. */
  function StatusLine(version: Str, status: nat, tail: Str): Str { version + [32] + Decimal(status) + tail }

  predicate StatusLineOk(version: Str, status: nat, tail: Str) {
    && version != [] && NoBreak(version) && (forall i :: 0 <= i < |version| ==> !IsSpace(version[i]))
    && status <= 0x7fff_ffff && NoBreak(tail) && (tail != [] ==> !IsDigit(tail[0]))
  }

  lemma {:induction false} WordIs(s: Str, i: nat, k: nat)
    requires i <= k <= |s| && (forall j :: i <= j < k ==> !IsSpace(s[j])) && (k < |s| ==> IsSpace(s[k]))
    ensures WordEnd(s, i) == k
    decreases k - i
  {
    if i < k { WordIs(s, i + 1, k); }
  }

  lemma {:induction false} DecRunBehind(a: Str, s: Str, i: nat, acc: nat)
    requires i <= |s|
    ensures DecRun(a + s, |a| + i, acc) == DecRun(s, i, acc)
    decreases |s| - i
  {
    if i < |s| && IsDigit(s[i]) { DecRunBehind(a, s, i + 1, 10 * acc + (s[i] - 48)); }
  }

  /** Digits with something behind them. */
  lemma {:induction false} DigitsAreRead(a: Str, n: nat, tail: Str)
    requires tail != [] ==> !IsDigit(tail[0])
    ensures DecRun(a + (Decimal(n) + tail), |a|, 0) == n
  {
    hide Decimal;
    var s := Decimal(n);
    DecRunBehind(a, s + tail, 0, 0);
    DecimalDigits(n);
    DecRunSplit(s, tail, 0, 0);
    DecimalIsRead(n);
    assert |s| < |s + tail| ==> (s + tail)[|s|] == tail[0];
  }

  /** The version and the status are those of the status line. */
  lemma {:induction false} StartMeans(version: Str, status: nat, tail: Str)
    requires StatusLineOk(version, status, tail)
    ensures var m := StartMeta(StatusLine(version, status, tail));
      m.http == version && m.status == status && !m.chunked && !m.close && !m.keep && m.length == -1 && m.headers == map[]
  {
    hide Decimal, DecRun;
    var a, w := version + [32], Decimal(status);
    var line := StatusLine(version, status, tail);
    assert line == a + (w + tail);
    assert forall i :: 0 <= i < |version| ==> line[i] == version[i];
    assert line[|version|] == 32 && line[|a|] == w[0];
    DecimalDigits(status);
    WordIs(line, 0, |version|);
    assert SkipSpace(line, 0) == 0 && SkipSpace(line, |version|) == |a|;
    DigitsAreRead(a, status, tail);
    assert line[..|version|] == version;
  }

  // ---- one header ----

  lemma {:induction false} FindFirst(s: Str, c: byte, k: nat, i: nat)
    requires i <= k < |s| && s[k] == c && forall j :: i <= j < k ==> s[j] != c
    ensures Find(s, c, i) == k
    decreases k - i
  {
    if i < k { FindFirst(s, c, k, i + 1); }
  }

  lemma {:induction false} SkipIsStrip(s: Str, i: nat)
    requires i <= |s|
    ensures s[SkipBlank(s, i)..] == Stripped(s[i..])
    decreases |s| - i
  {
    if i < |s| && (s[i] == 32 || s[i] == 9) {
      SkipIsStrip(s, i + 1);
      assert s[i..][1..] == s[i + 1..];
    }
  }

  /** The name and the value of a header line. */
  lemma {:induction false} LineIs(h: Header)
    requires COLON !in h.0
    ensures var line := HeaderLine(h); HasName(line) && Name(line) == h.0 && Value(line) == Stripped(h.1)
  {
    var line, k := HeaderLine(h), |h.0|;
    assert Ascii(": ") == [58, 32];
    FindFirst(line, COLON, k, 0);
    SkipIsStrip(line, k + 1);
    assert line[k + 1..] == [32] + h.1;
    assert Stripped([32] + h.1) == Stripped(h.1) by { assert ([32] + h.1)[1..] == h.1; }
  }

  /** What one header changes. */
  lemma {:induction false} OneHeader(m: Meta, h: Header)
    requires COLON !in h.0
    ensures var r, v := Absorb(m, HeaderLine(h)), Stripped(h.1);
      && r.http == m.http && r.status == m.status
      && (r.chunked <==> m.chunked || (Named(h, "transfer-encoding") && Contains(v, Ascii("chunked"))))
      && (r.close <==> m.close || (Named(h, "connection") && Contains(v, Ascii("close"))))
      && (r.keep <==> m.keep || (Named(h, "connection") && Contains(v, Ascii("keep-alive"))))
      && r.length == (if Named(h, "content-length") then Number(v, 0, 0x7fff_ffff_ffff_ffff) else m.length)
      && r.headers == Taken(m.headers, h)
  {
    hide Contains, Lower, Find, SkipBlank, Number, HeaderLine, Stripped, Ascii;
    LineIs(h);
  }

  // ---- all headers ----

  lemma {:induction false} AbsorbSnoc(m: Meta, lines: seq<Str>, line: Str)
    ensures AbsorbAll(m, lines + [line]) == Absorb(AbsorbAll(m, lines), line)
    decreases |lines|
  {
    hide Absorb;
    if lines == [] {
      assert AbsorbAll(Absorb(m, line), []) == Absorb(m, line);
      assert [line][1..] == [] && [] + [line] == [line];
    } else {
      AbsorbSnoc(Absorb(m, lines[0]), lines[1..], line);
      assert (lines + [line])[1..] == lines[1..] + [line];
    }
  }

  /** What the first `n` headers make of a head that had none before. */
  ghost predicate Means(r: Meta, m: Meta, hs: seq<Header>, n: nat)
    requires n <= |hs|
  {
    && r.http == m.http && r.status == m.status
    && (r.chunked <==> Says(hs, n, "transfer-encoding", "chunked"))
    && (r.close <==> Says(hs, n, "connection", "close"))
    && (r.keep <==> Says(hs, n, "connection", "keep-alive"))
    && LengthIs(r.length, hs, n) && HeadersAre(r.headers, hs, n)
  }

  lemma {:induction false} NamesSnoc(m: map<Str, Str>, hs: seq<Header>, n: nat, k: Str)
    requires n < |hs| && (k in m <==> exists i :: 0 <= i < n && hs[i].0 == k && !Framing(hs[i]))
    ensures k in Taken(m, hs[n]) <==> exists i :: 0 <= i < n + 1 && hs[i].0 == k && !Framing(hs[i])
  {
    hide Stripped, Framing;
  }

  lemma {:induction false} HeadersSnoc(m: map<Str, Str>, hs: seq<Header>, n: nat)
    requires n < |hs| && HeadersAre(m, hs, n)
    ensures HeadersAre(Taken(m, hs[n]), hs, n + 1)
  {
    hide Stripped, Framing, Taken, LastOfName;
    var r := Taken(m, hs[n]);
    forall k ensures k in r <==> exists i :: 0 <= i < n + 1 && hs[i].0 == k && !Framing(hs[i]) {
      NamesSnoc(m, hs, n, k);
    }
    forall i: nat | i < n + 1 && LastOfName(hs, n + 1, i) && !Framing(hs[i])
      ensures hs[i].0 in r && r[hs[i].0] == Stripped(hs[i].1)
    {
      ValueSnoc(m, hs, n, i);
    }
  }

  lemma {:induction false} ValueSnoc(m: map<Str, Str>, hs: seq<Header>, n: nat, i: nat)
    requires n < |hs| && LastOfName(hs, n + 1, i) && !Framing(hs[i])
    requires i < n && LastOfName(hs, n, i) ==> hs[i].0 in m && m[hs[i].0] == Stripped(hs[i].1)
    ensures var r := Taken(m, hs[n]); hs[i].0 in r && r[hs[i].0] == Stripped(hs[i].1)
  {
    hide Stripped, Framing;
    if i < n { assert hs[n].0 != hs[i].0; }
  }

  lemma {:induction false} NumberOfDecimal(n: nat)
    requires n <= 0x7fff_ffff_ffff_ffff
    ensures Number(Decimal(n), 0, 0x7fff_ffff_ffff_ffff) == n
  {
    DecimalDigits(n);
    DecimalIsRead(n);
  }

  lemma {:induction false} LengthSnoc(length: int, hs: seq<Header>, n: nat)
    requires n < |hs| && LengthIs(length, hs, n)
    ensures LengthIs(if Named(hs[n], "content-length") then Number(Stripped(hs[n].1), 0, 0x7fff_ffff_ffff_ffff) else length, hs, n + 1)
  {
    hide Stripped, Number, Decimal, Lower;
    var r := if Named(hs[n], "content-length") then Number(Stripped(hs[n].1), 0, 0x7fff_ffff_ffff_ffff) else length;
    forall i: nat, k: nat | GivesLength(hs, n + 1, i) && Stripped(hs[i].1) == Decimal(k) && k <= 0x7fff_ffff_ffff_ffff
      ensures r == k
    {
      if i == n { NumberOfDecimal(k); } else { assert GivesLength(hs, n, i); }
    }
  }

  lemma {:induction false} SaysSnoc(hs: seq<Header>, n: nat, name: string, what: string)
    requires n < |hs|
    ensures Says(hs, n + 1, name, what) <==>
      Says(hs, n, name, what) || (Named(hs[n], name) && Contains(Stripped(hs[n].1), Ascii(what)))
  {
    hide Named, Contains, Stripped, Ascii;
  }

  lemma {:induction false} HeadersMean(m: Meta, hs: seq<Header>, n: nat)
    requires n <= |hs| && HeadersOk(hs)
    requires !m.chunked && !m.close && !m.keep && m.length == -1 && m.headers == map[]
    ensures Means(AbsorbAll(m, HeaderLines(hs[..n])), m, hs, n)
  {
    hide Absorb, HeadersAre, LengthIs, Says, Named, Framing, Taken, HeaderLine, Stripped, Number;
    if n == 0 {
      NothingSaid(m, hs);
      assert HeaderLines(hs[..0]) == [];
    } else {
      HeadersMean(m, hs, n - 1);
      var r := AbsorbAll(m, HeaderLines(hs[..n - 1]));
      assert HeaderLines(hs[..n]) == HeaderLines(hs[..n - 1]) + [HeaderLine(hs[n - 1])];
      AbsorbSnoc(m, HeaderLines(hs[..n - 1]), HeaderLine(hs[n - 1]));
      OneHeader(r, hs[n - 1]);
      SaysSnoc(hs, n - 1, "transfer-encoding", "chunked");
      SaysSnoc(hs, n - 1, "connection", "close");
      SaysSnoc(hs, n - 1, "connection", "keep-alive");
      HeadersSnoc(r.headers, hs, n - 1);
      LengthSnoc(r.length, hs, n - 1);
    }
  }

  lemma {:induction false} NothingSaid(m: Meta, hs: seq<Header>)
    requires !m.chunked && !m.close && !m.keep && m.length == -1 && m.headers == map[]
    ensures Means(m, m, hs, 0)
  {
  }

  lemma {:induction false} LinesOk(hs: seq<Header>)
    requires HeadersOk(hs)
    ensures forall i :: 0 <= i < |hs| ==> HeaderLines(hs)[i] != [] && NoBreak(HeaderLines(hs)[i])
  {
    forall i | 0 <= i < |hs| ensures HeaderLines(hs)[i] != [] && NoBreak(HeaderLines(hs)[i]) {
      assert HeaderOk(hs[i]);
      assert Ascii(": ") == [58, 32];
    }
  }

  /** A head that was written with this version, status and headers is understood as that. */
  lemma {:induction false} HeadMeans(version: Str, status: nat, tail: Str, hs: seq<Header>)
    requires StatusLineOk(version, status, tail) && HeadersOk(hs)
    ensures var start, lines := StatusLine(version, status, tail), HeaderLines(hs);
      var m := ParseMeta(HeadBytes(start, lines));
      && HeadOk(start, lines) && m == AbsorbAll(StartMeta(start), lines)
      && m.http == version && m.status == status && Means(m, m, hs, |hs|)
  {
    hide ParseMeta, AbsorbAll, StartMeta, HeaderLines, Says, LengthIs, HeadersAre, Decimal;
    var start, lines := StatusLine(version, status, tail), HeaderLines(hs);
    StartMeans(version, status, tail);
    LinesOk(hs);
    StatusLineNoBreak(version, status, tail);
    HeadParsed(start, lines);
    HeadersMean(StartMeta(start), hs, |hs|);
    assert hs[..|hs|] == hs;
  }

  lemma {:induction false} StatusLineNoBreak(version: Str, status: nat, tail: Str)
    requires StatusLineOk(version, status, tail)
    ensures NoBreak(StatusLine(version, status, tail)) && StatusLine(version, status, tail) != []
  {
    hide Decimal;
    DecimalDigits(status);
  }
}
