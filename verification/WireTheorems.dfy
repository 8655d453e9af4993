/** What the two halves of binary v3 guarantee together. */
module WireTheorems {
  import opened Bytes
  import opened Bits
  import opened Varint
  import opened Utf8
  import opened Wire
  import opened WireReader
  import opened WireIO
  import opened Protocol
  import opened Codec

  // ---- what survives a trip ----

  /** Empty strings become absent, a missing or unknown protocol becomes http. */
  function NormDef(t: TunnelDef): TunnelDef {
    TunnelDef(t.tunnelId, Some(if t.proto == Some(TCP) then TCP else HTTP), NonEmpty(OrEmpty(t.subdomain)),
              NonEmpty(OrEmpty(t.pathPrefix)), NonEmpty(OrEmpty(t.localAddr)))
  }

  function NormDefs(ts: seq<TunnelDef>): seq<TunnelDef> {
    seq(|ts|, i requires 0 <= i < |ts| => NormDef(ts[i]))
  }

  function Norm(m: ClientMsg): ClientMsg {
    if m.Register? then Register(NonEmpty(OrEmpty(m.clientId)), NormDefs(m.tunnels)) else m
  }

  /** The record the client should end up with. */
  function SeenByClient(m: ServerMsg): InMsg {
    match m
    case RegisterAck(ok, error, ts) =>
      FRESH.(msgType := MRegisterAck, ackOk := ok, ackError := OrEmpty(error), tunnels := SeenTunnels(ts))
    case Ping => FRESH.(msgType := MPing)
    case OpenStream(id, tid, proto, verb, path, headers, body) =>
      FRESH.(msgType := MOpenStream, streamId := id,
             os := OpenReq(id, tid, if proto == TCP then TCP else HTTP, verb, path, headers, body))
    case CloseStream(id) => FRESH.(msgType := MCloseStream, streamId := id)
    case DataChunk(id, data) => FRESH.(msgType := MChunk, streamId := id, data := data)
    case MgmtResp(id, status, body) => FRESH.(msgType := MMgmtResp, reqId := id, status := status, respBody := body)
  }

  function SeenTunnel(t: EffectiveTunnel): EffectiveT {
    EffectiveT(t.tunnelId, if t.proto == TCP then TCP else HTTP, t.publicUrl, t.publicPort.GetOr(0))
  }

  function SeenTunnels(ts: seq<EffectiveTunnel>): seq<EffectiveT> {
    seq(|ts|, i requires 0 <= i < |ts| => SeenTunnel(ts[i]))
  }

  // ---- the two conditions of a safe trip ----

  /** The row count is not cut by its 16-bit cast. */
  predicate ClientCountOk(m: ClientMsg) {
    (m.Register? ==> |m.tunnels| < 0x1_0000) && (m.ResponseHead? ==> |m.headers| < 0x1_0000)
  }

  predicate ServerCountOk(m: ServerMsg) {
    (m.RegisterAck? ==> |m.tunnels| < 0x1_0000) && (m.OpenStream? ==> |m.headers| < 0x1_0000)
  }

  predicate DefUtf8(t: TunnelDef) {
    && ValidUtf8(t.tunnelId) && ValidUtf8(OrEmpty(t.subdomain))
    && ValidUtf8(OrEmpty(t.pathPrefix)) && ValidUtf8(OrEmpty(t.localAddr))
  }

  /** Every string of the message is UTF-8. Always so for a message that was a Rust value. */
  predicate ClientUtf8(m: ClientMsg) {
    match m
    case Register(id, ts) => ValidUtf8(OrEmpty(id)) && forall i :: 0 <= i < |ts| ==> DefUtf8(ts[i])
    case ResponseHead(_, _, h) => forall k :: k in h ==> ValidUtf8(k) && ValidUtf8(h[k])
    case Abort(_, reason) => ValidUtf8(reason)
    case Mgmt(_, verb, path, _) => ValidUtf8(verb) && ValidUtf8(path)
    case _ => true
  }

  // ---- maps and rows ----

  lemma {:induction false} MapOfOrder(order: seq<(Str, Str)>, k: nat)
    requires k <= |order|
    requires forall i, j :: 0 <= i < j < |order| ==> order[i].0 != order[j].0
    ensures forall i :: 0 <= i < k ==> order[i].0 in MapOf(HeaderRows(order), k)
                                       && MapOf(HeaderRows(order), k)[order[i].0] == order[i].1
    ensures forall x :: x in MapOf(HeaderRows(order), k) ==> exists i :: 0 <= i < k && order[i].0 == x
  {
    if k > 0 { MapOfOrder(order, k - 1); }
  }

  /** Reading back the rows of any traversal of a map gives the map. */
  lemma {:induction false} HeadersReadBack(order: seq<(Str, Str)>, h: map<Str, Str>)
    requires Traverses(order, h)
    ensures MapOf(HeaderRows(order), |order|) == h
  {
    MapOfOrder(order, |order|);
  }

  lemma {:induction false} MapSize(rows: seq<seq<Val>>, k: nat)
    requires RowsSized(HEADER_COLS, rows) && k <= |rows|
    ensures |MapOf(rows, k)| <= k
  {
    if k > 0 { MapSize(rows, k - 1); }
  }

  lemma {:induction false} RowsTextEach(cols: seq<Prim>, rows: seq<seq<Val>>, k: nat)
    requires RowsSized(cols, rows) && k <= |rows|
    ensures RowsTextOk(cols, rows, k) <==> forall j :: 0 <= j < k ==> TextOk(cols, rows[j], |cols|)
  {
    hide TextOk;
    if k > 0 { RowsTextEach(cols, rows, k - 1); }
  }

  lemma {:induction false} HeaderText(order: seq<(Str, Str)>, h: map<Str, Str>)
    requires Traverses(order, h)
    ensures RowsTextOk(HEADER_COLS, HeaderRows(order), |order|) <==> forall k :: k in h ==> ValidUtf8(k) && ValidUtf8(h[k])
  {
    hide ValidUtf8;
    var rows := HeaderRows(order);
    RowsTextEach(HEADER_COLS, rows, |order|);
    forall i | 0 <= i < |order|
      ensures TextOk(HEADER_COLS, rows[i], |HEADER_COLS|) <==> ValidUtf8(order[i].0) && ValidUtf8(order[i].1)
    {
      assert TextOk(HEADER_COLS, rows[i], 2) <==> ValidUtf8(order[i].0) && ValidUtf8(order[i].1);
    }
  }

  lemma {:induction false} DefText(ts: seq<TunnelDef>)
    ensures RowsTextOk(TUNNEL_COLS, DefRows(ts), |ts|) <==> forall i :: 0 <= i < |ts| ==> DefUtf8(ts[i])
  {
    hide ValidUtf8;
    var rows := DefRows(ts);
    RowsTextEach(TUNNEL_COLS, rows, |ts|);
    forall i | 0 <= i < |ts|
      ensures TextOk(TUNNEL_COLS, rows[i], |TUNNEL_COLS|) <==> DefUtf8(ts[i])
    {
      assert TextOk(TUNNEL_COLS, rows[i], 5) <==> DefUtf8(ts[i]);
    }
  }

  lemma {:induction false} NoRowsFit(cols: seq<Prim>)
    ensures RowsFit(cols, [])
  {
  }

  lemma {:induction false} HeaderRowsFit(order: seq<(Str, Str)>)
    requires ShortOrder(order)
    ensures RowsFit(HEADER_COLS, HeaderRows(order))
  {
  }

  lemma {:induction false} DefRowsFit(ts: seq<TunnelDef>)
    requires forall i :: 0 <= i < |ts| ==> DefShort(ts[i])
    ensures RowsFit(TUNNEL_COLS, DefRows(ts))
  {
  }

  lemma {:induction false} AckRowsFit(ts: seq<EffectiveTunnel>)
    requires forall i :: 0 <= i < |ts| ==> Short(ts[i].tunnelId) && Short(ts[i].publicUrl)
    ensures RowsFit(ACK_COLS, AckRows(ts))
  {
  }

  // ---- client to server ----

  lemma {:induction false} ClientFieldsFit(m: ClientMsg, order: seq<(Str, Str)>)
    requires ClientShort(m) && ShortOrder(order) && Traverses(order, ClientHeaders(m))
    ensures var sh, f := ClientShape(ClientTag(m)).value, ClientFields(m, order);
      AllFit(sh.head, f.head) && RowsFit(sh.cols, f.rows) && AllFit(sh.tail, f.tail)
      && (ClientCountOk(m) ==> FieldsFit(sh, f))
  {
    hide RowsFit, AllFit, ShortOrder, ClientShort, ClientFields, ClientShape, ClientTag;
    ClientRowsFit(m, order);
    ClientHeadFits(m, order);
    TraversalLength(order, ClientHeaders(m));
    ClientTailFits(m, order);
  }

  lemma {:induction false} ClientRowsFit(m: ClientMsg, order: seq<(Str, Str)>)
    requires ClientShort(m) && ShortOrder(order)
    ensures var sh, f := ClientShape(ClientTag(m)).value, ClientFields(m, order); RowsFit(sh.cols, f.rows)
  {
    hide RowsFit, ShortOrder;
    HeaderRowsFit(order);
    NoRowsFit([]);
    if m.Register? { DefRowsFit(m.tunnels); }
  }

  lemma {:induction false} ClientTailFits(m: ClientMsg, order: seq<(Str, Str)>)
    requires |order| == |ClientHeaders(m)|
    ensures var sh, f := ClientShape(ClientTag(m)).value, ClientFields(m, order);
      AllFit(sh.tail, f.tail) && (ClientCountOk(m) ==> Count(sh, f.head) == |f.rows|)
  {
  }

  lemma {:induction false} TraversalLength(order: seq<(Str, Str)>, h: map<Str, Str>)
    requires Traverses(order, h)
    ensures |order| == |h|
  {
  }

  lemma {:induction false} ClientHeadFits(m: ClientMsg, order: seq<(Str, Str)>)
    requires ClientShort(m)
    ensures AllFit(ClientShape(ClientTag(m)).value.head, ClientFields(m, order).head)
    ensures AllFit([], [])
  {
  }

  lemma {:induction false} ServerHeadFits(m: ServerMsg, order: seq<(Str, Str)>)
    requires ServerShort(m)
    ensures AllFit(ServerShape(ServerTag(m)).value.head, ServerFields(m, order).head)
    ensures AllFit(ServerShape(ServerTag(m)).value.tail, ServerFields(m, order).tail)
  {
  }

  /** The strings of a message outside its rows. */
  predicate HeadUtf8(m: ClientMsg) {
    match m
    case Register(id, _) => ValidUtf8(OrEmpty(id))
    case Abort(_, reason) => ValidUtf8(reason)
    case Mgmt(_, verb, path, _) => ValidUtf8(verb) && ValidUtf8(path)
    case _ => true
  }

  lemma {:induction false} HeadText(m: ClientMsg, order: seq<(Str, Str)>)
    ensures var sh, f := ClientShape(ClientTag(m)).value, ClientFields(m, order);
      TextOk(sh.head, f.head, |sh.head|) <==> HeadUtf8(m)
  {
    hide ValidUtf8, RowsTextOk;
    var sh, f := ClientShape(ClientTag(m)).value, ClientFields(m, order);
    match m
    case Register(id, _) => assert TextOk(sh.head, f.head, 3) <==> ValidUtf8(OrEmpty(id));
    case ResponseHead(_, _, _) => assert TextOk(sh.head, f.head, 4);
    case Pong => assert TextOk(sh.head, f.head, 1);
    case Chunk(_, _) => assert TextOk(sh.head, f.head, 3);
    case End(_) => assert TextOk(sh.head, f.head, 2);
    case Abort(_, reason) => assert TextOk(sh.head, f.head, 3) <==> ValidUtf8(reason);
    case Mgmt(_, verb, path, _) => assert TextOk(sh.head, f.head, 5) <==> ValidUtf8(verb) && ValidUtf8(path);
  }

  lemma {:induction false} NoFieldsText()
    ensures TextOk([], [], 0)
  {
  }

  lemma {:induction false} ClientText(m: ClientMsg, order: seq<(Str, Str)>)
    requires Traverses(order, ClientHeaders(m))
    ensures FieldsTextOk(ClientShape(ClientTag(m)).value, ClientFields(m, order)) <==> ClientUtf8(m)
  {
    hide ValidUtf8, RowsTextOk, TextOk, DefUtf8, Traverses;
    var sh, f := ClientShape(ClientTag(m)).value, ClientFields(m, order);
    NoRowsText(sh.cols);
    NoFieldsText();
    HeadText(m, order);
    if m.Register? { DefText(m.tunnels); }
    if m.ResponseHead? { HeaderText(order, m.headers); }
  }

  lemma {:induction false} NoRowsText(cols: seq<Prim>)
    ensures RowsTextOk(cols, [], 0)
  {
  }

  lemma {:induction false} DefsReadBack(ts: seq<TunnelDef>)
    ensures RowDefs(DefRows(ts)) == NormDefs(ts)
  {
    forall i | 0 <= i < |ts| ensures RowDef(DefRow(ts[i])) == NormDef(ts[i]) {}
  }

  lemma {:induction false} AcksReadBack(ts: seq<EffectiveTunnel>)
    ensures RowTunnels(AckRows(ts)) == SeenTunnels(ts)
  {
    forall i | 0 <= i < |ts| ensures RowTunnel(AckRow(ts[i])) == SeenTunnel(ts[i]) {}
  }

  lemma {:induction false} ClientReadsBack(m: ClientMsg, order: seq<(Str, Str)>)
    requires Traverses(order, ClientHeaders(m))
    ensures ClientMsgOf(ClientTag(m), ClientFields(m, order)) == Norm(m)
  {
    hide MapOf, RowDefs, NormDefs;
    match m
    case Register(_, ts) => DefsReadBack(ts);
    case ResponseHead(_, _, h) => HeadersReadBack(order, h);
    case _ =>
  }

  /** Whatever follows it, a client frame is read back, up to normalisation, exactly when its
      count fits in 16 bits and its strings are UTF-8. */
  lemma {:induction false} ClientRoundTrip(m: ClientMsg, order: seq<(Str, Str)>, x: seq<byte>)
    requires ClientShort(m) && ShortOrder(order) && Traverses(order, ClientHeaders(m))
        && |ClientFrame(m, order) + x| <= MAX_LEN
    ensures ReadClientFrame(ClientFrame(m, order) + x) == Ok(Norm(m)) <==> ClientCountOk(m) && ClientUtf8(m)
    ensures ClientCountOk(m) && !ClientUtf8(m) ==> ReadClientFrame(ClientFrame(m, order) + x) == Err(BadUtf8)
  {
    hide EncFrame, ReadFrame, ClientMsgOf, ClientFields, FieldsTextOk, ClientUtf8, ClientShape, RowsFit;
    ClientFieldsFit(m, order);
    ClientFirstByte(m, order, x);
    if ClientCountOk(m) {
      FrameReadBack(ClientShape(ClientTag(m)).value, ClientFields(m, order), x, true);
      ClientText(m, order);
      ClientReadsBack(m, order);
    } else {
      ClientOverflow(m, order, x);
    }
  }

  lemma {:induction false} ClientFirstByte(m: ClientMsg, order: seq<(Str, Str)>, x: seq<byte>)
    ensures ClientShape(ClientTag(m)).Some?
    ensures ClientFrame(m, order) + x != [] && (ClientFrame(m, order) + x)[0] == ClientTag(m)
  {
    hide EncTo, EncRows;
    var sh, f := ClientShape(ClientTag(m)).value, ClientFields(m, order);
    FirstByte(sh.head, f.head, |sh.head|);
  }

  lemma {:induction false} FirstByte(ps: seq<Prim>, vs: seq<Val>, k: nat)
    requires |ps| == |vs| && 0 < k <= |ps| && ps[0] == Prim.U8
    ensures EncTo(ps, vs, k) != [] && EncTo(ps, vs, k)[0] == N(vs[0]) % 256
  {
    hide EncPrim;
    if k > 1 {
      FirstByte(ps, vs, k - 1);
    } else {
      assert EncTo(ps, vs, 1) == EncTo(ps, vs, 0) + EncPrim(ps[0], vs[0]);
      ByteEnc(vs[0]);
    }
  }

  lemma {:induction false} ByteEnc(v: Val)
    ensures EncPrim(Prim.U8, v) == [N(v) % 256]
  {
  }

  /** A frame that can be read at all has as many rows as its head says. */
  lemma {:induction false} ReadsHead(sh: Shape, f: Fields, x: seq<byte>, checked: bool)
    requires Sized(sh, f) && AllFit(sh.head, f.head) && |EncFrame(sh, f) + x| <= MAX_LEN
    requires ReadFrame(sh, EncFrame(sh, f) + x, checked).Parsed?
    ensures ReadFrame(sh, EncFrame(sh, f) + x, checked).value.head == f.head
  {
    hide EncTo, DecTo, EncRows, TextOk, Fits, FieldsAt, RowsAt, FieldsSafe;
    var a, b := EncTo(sh.head, f.head, |sh.head|), EncRows(sh.cols, f.rows, |f.rows|);
    var c := EncTo(sh.tail, f.tail, |sh.tail|);
    var s := EncFrame(sh, f) + x;
    FieldsAgree(sh.head, s, 0, checked, |sh.head|);
    assert s[0..] == s;
    FieldsRoundTrip(sh.head, f.head, b + (c + x), checked, |sh.head|);
    Regroup(a + b, c, x);
    Regroup(a, b, c + x);
    assert f.head[..|sh.head|] == f.head;
  }

  lemma {:induction false} ClientOverflow(m: ClientMsg, order: seq<(Str, Str)>, x: seq<byte>)
    requires ClientShort(m) && ShortOrder(order) && Traverses(order, ClientHeaders(m)) && !ClientCountOk(m)
        && |ClientFrame(m, order) + x| <= MAX_LEN
    ensures ReadClientFrame(ClientFrame(m, order) + x) != Ok(Norm(m))
  {
    hide EncFrame, ReadFrame, ClientShort, ShortOrder, MapOf;
    ClientFieldsFit(m, order);
    ClientFirstByte(m, order, x);
    var sh, f := ClientShape(ClientTag(m)).value, ClientFields(m, order);
    var p := ReadFrame(sh, ClientFrame(m, order) + x, true);
    if p.Parsed? {
      ReadsHead(sh, f, x, true);
      var rows := p.value.rows;
      if m.ResponseHead? {
        MapSize(rows, |rows|);
        assert |rows| == |order| % 0x1_0000 < |m.headers|;
      } else {
        assert |rows| == |m.tunnels| % 0x1_0000 < |m.tunnels|;
        assert |RowDefs(rows)| != |NormDefs(m.tunnels)|;
      }
    }
  }

  lemma {:induction false} SafeNeverPanics(sh: Shape, d: seq<byte>, checked: bool)
    requires |d| <= MAX_LEN && FrameSafe(sh, d, checked)
    ensures ReadFrame(sh, d, checked) != Failed(Panicked)
  {
    hide ReadFrame, DecFrame, FrameSafe;
    FrameAgrees(sh, d, checked);
    LayoutNeverPanics(sh, d, checked);
  }

  lemma {:induction false} LayoutNeverPanics(sh: Shape, d: seq<byte>, checked: bool)
    ensures DecFrame(sh, d, checked) != Failed(Panicked)
  {
    hide DecTo, DecRows;
    FieldsNeverPanic(sh.head, d, checked, |sh.head|);
    var h := DecTo(sh.head, d, checked, |sh.head|);
    if h.Parsed? {
      RowsNeverPanic(sh.cols, d[h.used..], checked, Count(sh, h.value));
      var r := DecRows(sh.cols, d[h.used..], checked, Count(sh, h.value));
      if r.Parsed? { FieldsNeverPanic(sh.tail, d[h.used + r.used..], checked, |sh.tail|); }
    }
  }

  lemma {:induction false} FieldsNeverPanic(ps: seq<Prim>, s: seq<byte>, checked: bool, k: nat)
    requires k <= |ps|
    ensures DecTo(ps, s, checked, k) != Failed(Panicked)
    decreases k
  {
    hide DecodeVarint, ValidUtf8;
    if k > 0 {
      FieldsNeverPanic(ps, s, checked, k - 1);
      var r := DecTo(ps, s, checked, k - 1);
      if r.Parsed? { PrimNeverPanics(ps[k - 1], s[r.used..], checked); }
    }
  }

  lemma {:induction false} PrimNeverPanics(p: Prim, s: seq<byte>, checked: bool)
    ensures DecPrim(p, s, checked) != Failed(Panicked)
  {
  }

  lemma {:induction false} RowsNeverPanic(cols: seq<Prim>, s: seq<byte>, checked: bool, k: nat)
    ensures DecRows(cols, s, checked, k) != Failed(Panicked)
    decreases k
  {
    hide DecTo;
    if k > 0 {
      RowsNeverPanic(cols, s, checked, k - 1);
      var r := DecRows(cols, s, checked, k - 1);
      if r.Parsed? { FieldsNeverPanic(cols, s[r.used..], checked, |cols|); }
    }
  }

  /** What the layout of the type byte says a byte string stands for on the server. */
  function LayoutClient(d: seq<byte>): Result<ClientMsg>
    requires d != [] && ClientShape(d[0]).Some?
  {
    match DecFrame(ClientShape(d[0]).value, d, true)
    case Failed(e) => Err(e)
    case Parsed(f, _) => Ok(ClientMsgOf(d[0], f))
  }

  /** The server decodes what the layout says iff no length prefix wraps around when it is added to
      the index; otherwise it panics. */
  lemma {:induction false} ClientDecodesIff(d: seq<byte>)
    requires d != [] && ClientShape(d[0]).Some? && |d| <= MAX_LEN
    ensures ReadClientFrame(d) == LayoutClient(d) <==> FrameSafe(ClientShape(d[0]).value, d, true)
    ensures ReadClientFrame(d) == Err(Panicked) <==> !FrameSafe(ClientShape(d[0]).value, d, true)
  {
    hide ReadFrame, DecFrame, FrameSafe, ClientMsgOf, ClientShape;
    FrameAgrees(ClientShape(d[0]).value, d, true);
    LayoutNeverPanics(ClientShape(d[0]).value, d, true);
  }

  lemma {:induction false} TwoFields(tag: byte, id: u64, p: Prim, n: nat, x: seq<byte>, checked: bool)
    requires IsRaw(p) && n < U64 && |Leb(id)| + |Leb(n)| + 1 + n >= U64
    ensures var d := [tag] + (Leb(id) + (Leb(n) + x));
      FieldsAt([Prim.U8, Leb64, p], d, 0, checked, 3) ==
        if checked then Failed(Panicked) else Parsed([Num(tag), Num(id), Raw(x)], |Leb(id)| + |Leb(n)| + 1 + n - U64)
  {
    hide PrimAt, Leb;
    var ps := [Prim.U8, Leb64, p];
    var d := [tag] + (Leb(id) + (Leb(n) + x));
    TwoPrims(tag, id, p, n, x, checked);
    OneField(ps, d, checked, 1);
    OneField(ps, d, checked, 2);
    OneField(ps, d, checked, 3);
    assert FieldsAt(ps, d, 0, checked, 0) == Parsed([], 0);
    assert [] + [Num(tag)] + [Num(id)] == [Num(tag), Num(id)];
    assert [Num(tag), Num(id)] + [Raw(x)] == [Num(tag), Num(id), Raw(x)];
  }

  lemma {:induction false} OneField(ps: seq<Prim>, d: seq<byte>, checked: bool, k: nat)
    requires 0 < k <= |ps|
    ensures FieldsAt(ps, d, 0, checked, k) == match FieldsAt(ps, d, 0, checked, k - 1)
      case Failed(e) => Failed(e)
      case Parsed(vs, n) =>
        match PrimAt(ps[k - 1], d, n, checked)
        case Failed(e) => Failed(e)
        case Parsed(v, m) => Parsed(vs + [v], m)
  {
    hide PrimAt;
  }

  lemma {:induction false} TwoPrims(tag: byte, id: u64, p: Prim, n: nat, x: seq<byte>, checked: bool)
    requires IsRaw(p) && n < U64 && |Leb(id)| + |Leb(n)| + 1 + n >= U64
    ensures var d, j := [tag] + (Leb(id) + (Leb(n) + x)), 1 + |Leb(id)|;
      && PrimAt(Prim.U8, d, 0, checked) == Parsed(Num(tag), 1) && PrimAt(Leb64, d, 1, checked) == Parsed(Num(id), j)
      && PrimAt(p, d, j, checked) == if checked then Failed(Panicked) else Parsed(Raw(x), |Leb(id)| + |Leb(n)| + 1 + n - U64)
  {
    hide DecodeVarint, Leb;
    var rest := Leb(n) + x;
    var d, j := [tag] + (Leb(id) + rest), 1 + |Leb(id)|;
    VarintRoundTrip(id, rest);
    VarintRoundTrip(n, x);
    assert d[0..] == d && d[1..] == Leb(id) + rest && d[j..] == rest && d[j + |Leb(n)|..] == x;
  }

  /** A length prefix that wraps: in an abort it makes the server panic. */
  lemma {:induction false} LongAbortPanics(id: u64, n: nat, x: seq<byte>)
    requires n < U64 && |Leb(id)| + |Leb(n)| + 1 + n >= U64
    ensures ReadClientFrame([T_ABORT] + (Leb(id) + (Leb(n) + x))) == Err(Panicked)
  {
    hide FieldsAt, Leb;
    TwoFields(T_ABORT, id, Text, n, x, true);
    HeadOnly(ABORT_SHAPE, [T_ABORT] + (Leb(id) + (Leb(n) + x)), true);
  }

  /** In a chunk to the client it stands for all the bytes that are left, so more bytes change what
      the client reads. */
  lemma {:induction false} LongChunkIsRead(id: u64, n: nat, x: seq<byte>)
    requires n < U64 && |Leb(id)| + |Leb(n)| + 1 + n >= U64
    ensures ReadServerFrame([T_CHUNK] + (Leb(id) + (Leb(n) + x))) == Ok(FRESH.(msgType := MChunk, streamId := id, data := x))
  {
    hide FieldsAt, Leb;
    TwoFields(T_CHUNK, id, Blob, n, x, false);
    HeadOnly(CHUNK_SHAPE, [T_CHUNK] + (Leb(id) + (Leb(n) + x)), false);
  }

  /** What the layout of the type byte says a byte string stands for on the client. */
  function LayoutServer(d: seq<byte>): Result<InMsg>
    requires d != [] && ServerShape(d[0]).Some?
  {
    match DecFrame(ServerShape(d[0]).value, d, false)
    case Failed(e) => Err(e)
    case Parsed(f, _) => Ok(InMsgOf(d[0], f))
  }

  /** The client decodes what the layout says if no length prefix wraps. Otherwise the layout calls
      the frame truncated, and the client does so only if what it reads from the earlier index is. */
  lemma {:induction false} ServerDecodes(d: seq<byte>)
    requires d != [] && ServerShape(d[0]).Some? && |d| <= MAX_LEN
    ensures !FrameSafe(ServerShape(d[0]).value, d, false) ==> LayoutServer(d) == Err(Truncated)
    ensures ReadServerFrame(d) == LayoutServer(d) <==>
      FrameSafe(ServerShape(d[0]).value, d, false) || ReadServerFrame(d) == Err(Truncated)
  {
    hide ReadFrame, DecFrame, FrameSafe, InMsgOf, ServerShape;
    FrameAgrees(ServerShape(d[0]).value, d, false);
  }

  /** No strict prefix of a readable client frame is readable. */
  lemma {:induction false} ClientPrefixFree(m: ClientMsg, order: seq<(Str, Str)>, k: nat)
    requires ClientShort(m) && ShortOrder(order) && Traverses(order, ClientHeaders(m))
    requires ClientCountOk(m) && ClientUtf8(m) && k < |ClientFrame(m, order)| <= MAX_LEN
    ensures var r := ReadClientFrame(ClientFrame(m, order)[..k]); r.Err? && r.error != Panicked
  {
    hide EncFrame, ReadFrame, FrameSafe, ClientMsgOf, ClientFields, FieldsTextOk, ClientUtf8, ClientShape, RowsFit;
    var s := ClientFrame(m, order);
    assert s + [] == s;
    ClientFieldsFit(m, order);
    ClientFirstByte(m, order, []);
    ClientText(m, order);
    FrameReadBack(ClientShape(ClientTag(m)).value, ClientFields(m, order), [], true);
    ReadPrefixFree(ClientShape(ClientTag(m)).value, s, k, true);
    SafeNeverPanics(ClientShape(ClientTag(m)).value, s[..k], true);
  }

  /** Normalising twice is normalising once, and the frame only depends on the normal form. */
  lemma {:induction false} NormIdempotent(m: ClientMsg, order: seq<(Str, Str)>)
    ensures Norm(Norm(m)) == Norm(m)
    ensures ClientFrame(Norm(m), order) == ClientFrame(m, order)
  {
    hide EncFrame;
    if m.Register? {
      assert NormDefs(NormDefs(m.tunnels)) == NormDefs(m.tunnels);
      forall i | 0 <= i < |m.tunnels| ensures DefRow(NormDef(m.tunnels[i])) == DefRow(m.tunnels[i]) {}
      assert DefRows(NormDefs(m.tunnels)) == DefRows(m.tunnels);
    }
  }

  /** The client casts its `int` status; the server sees it unchanged iff it was a 16-bit one. */
  lemma {:induction false} StatusArrives(sid: u64, status: int, h: map<Str, Str>, order: seq<(Str, Str)>)
    requires ShortOrder(order) && Traverses(order, h) && |h| < 0x1_0000
    requires |ClientFrame(ResponseHead(sid, status % 0x1_0000, h), order)| <= MAX_LEN
    requires forall k :: k in h ==> ValidUtf8(k) && ValidUtf8(h[k])
    ensures var m := ReadClientFrame(ClientFrame(ResponseHead(sid, status % 0x1_0000, h), order));
      m.Ok? && m.value.ResponseHead? && (m.value.status == status <==> 0 <= status < 0x1_0000)
  {
    hide EncFrame, ReadFrame, ValidUtf8;
    var m := ResponseHead(sid, status % 0x1_0000, h);
    ClientRoundTrip(m, order, []);
    assert ClientFrame(m, order) + [] == ClientFrame(m, order);
  }

  // ---- server to client ----

  lemma {:induction false} ServerFieldsFit(m: ServerMsg, order: seq<(Str, Str)>)
    requires ServerShort(m) && ShortOrder(order) && Traverses(order, ServerHeaders(m))
    ensures var sh, f := ServerShape(ServerTag(m)).value, ServerFields(m, order);
      AllFit(sh.head, f.head) && RowsFit(sh.cols, f.rows) && AllFit(sh.tail, f.tail)
      && (ServerCountOk(m) ==> FieldsFit(sh, f))
  {
    hide RowsFit, AllFit, ShortOrder;
    HeaderRowsFit(order);
    ServerHeadFits(m, order);
    NoRowsFit([]);
    TraversalLength(order, ServerHeaders(m));
    if m.RegisterAck? { AckRowsFit(m.tunnels); }
  }

  lemma {:induction false} ServerReadsBack(m: ServerMsg, order: seq<(Str, Str)>)
    requires Traverses(order, ServerHeaders(m))
    ensures InMsgOf(ServerTag(m), ServerFields(m, order)) == SeenByClient(m)
  {
    hide MapOf, RowTunnels, SeenTunnels;
    match m
    case RegisterAck(_, _, ts) => AcksReadBack(ts);
    case OpenStream(_, _, _, _, _, h, _) => HeadersReadBack(order, h);
    case _ =>
  }

  lemma {:induction false} ServerFirstByte(m: ServerMsg, order: seq<(Str, Str)>, x: seq<byte>)
    ensures ServerShape(ServerTag(m)).Some?
    ensures ServerFrame(m, order) + x != [] && (ServerFrame(m, order) + x)[0] == ServerTag(m)
  {
    hide EncTo, EncRows;
    var sh, f := ServerShape(ServerTag(m)).value, ServerFields(m, order);
    FirstByte(sh.head, f.head, |sh.head|);
  }

  /** Whatever follows it, a server frame is read as the intended record exactly when its count
      fits in 16 bits. */
  lemma {:induction false} ServerRoundTrip(m: ServerMsg, order: seq<(Str, Str)>, x: seq<byte>)
    requires ServerShort(m) && ShortOrder(order) && Traverses(order, ServerHeaders(m))
        && |ServerFrame(m, order) + x| <= MAX_LEN
    ensures ReadServerFrame(ServerFrame(m, order) + x) == Ok(SeenByClient(m)) <==> ServerCountOk(m)
  {
    hide EncFrame, ReadFrame, InMsgOf, ServerFields, FieldsTextOk, ServerShape, SeenByClient, RowsFit;
    ServerFieldsFit(m, order);
    ServerFirstByte(m, order, x);
    if ServerCountOk(m) {
      FrameReadBack(ServerShape(ServerTag(m)).value, ServerFields(m, order), x, false);
      ServerReadsBack(m, order);
    } else {
      ServerOverflow(m, order, x);
    }
  }

  lemma {:induction false} ServerOverflow(m: ServerMsg, order: seq<(Str, Str)>, x: seq<byte>)
    requires ServerShort(m) && ShortOrder(order) && Traverses(order, ServerHeaders(m)) && !ServerCountOk(m)
        && |ServerFrame(m, order) + x| <= MAX_LEN
    ensures ReadServerFrame(ServerFrame(m, order) + x) != Ok(SeenByClient(m))
  {
    hide EncFrame, ReadFrame, ServerShort, ShortOrder, MapOf;
    ServerFieldsFit(m, order);
    ServerFirstByte(m, order, x);
    var sh, f := ServerShape(ServerTag(m)).value, ServerFields(m, order);
    var p := ReadFrame(sh, ServerFrame(m, order) + x, false);
    if p.Parsed? {
      ReadsHead(sh, f, x, false);
      var rows := p.value.rows;
      if m.OpenStream? {
        MapSize(rows, |rows|);
        assert |rows| == |order| % 0x1_0000 < |m.headers|;
      } else {
        assert |rows| == |m.tunnels| % 0x1_0000 < |m.tunnels|;
        assert |RowTunnels(rows)| != |SeenTunnels(m.tunnels)|;
      }
    }
  }

  lemma {:induction false} ServerPrefixFree(m: ServerMsg, order: seq<(Str, Str)>, k: nat)
    requires ServerShort(m) && ShortOrder(order) && Traverses(order, ServerHeaders(m))
    requires ServerCountOk(m) && k < |ServerFrame(m, order)| <= MAX_LEN
    ensures ReadServerFrame(ServerFrame(m, order)[..k]).Err?
  {
    hide EncFrame, ReadFrame, FrameSafe, InMsgOf, ServerFields, FieldsTextOk, ServerShape, RowsFit;
    var s := ServerFrame(m, order);
    assert s + [] == s;
    ServerFieldsFit(m, order);
    ServerFirstByte(m, order, []);
    FrameReadBack(ServerShape(ServerTag(m)).value, ServerFields(m, order), [], false);
    ReadPrefixFree(ServerShape(ServerTag(m)).value, s, k, false);
  }
}
