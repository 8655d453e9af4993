/** The C++ half of binary v3: the client's `enc*` functions and `decServer`. */
module Codec {
  import opened Bytes
  import opened Bits
  import opened Varint
  import opened Wire
  import opened WireReader
  import opened WireIO
  import opened Protocol
  import BinProto

  datatype TunnelCfg = TunnelCfg(id: Str, proto: Str, sub: Str, path: Str, local: Str, conn: Str)

  datatype EffectiveT = EffectiveT(id: Str, proto: Str, url: Str, port: int)

  datatype OpenReq = OpenReq(streamId: u64, tunnelId: Str, proto: Str, method_: Str, path: Str,
                             headers: map<Str, Str>, body: Str)

  datatype MsgType = MRegisterAck | MPing | MOpenStream | MCloseStream | MChunk | MMgmtResp | MUnknown

  /** The client's parsed message: a record whose unused fields keep their defaults. */
  datatype InMsg = InMsg(msgType: MsgType, ackOk: bool, ackError: Str, tunnels: seq<EffectiveT>, os: OpenReq,
                         streamId: u64, data: Str, reqId: u64, status: int, respBody: Str)

  const FRESH := InMsg(MUnknown, false, [], [], OpenReq(0, [], [], [], [], map[], []), 0, [], 0, 0, [])

  // ---- what the client's calls mean as messages ----

  function DefOf(t: TunnelCfg): TunnelDef {
    TunnelDef(t.id, Some(if t.proto == [] then HTTP else t.proto), Some(t.sub), Some(t.path), Some(t.local))
  }

  function DefsOf(ts: seq<TunnelCfg>): seq<TunnelDef> {
    seq(|ts|, i requires 0 <= i < |ts| => DefOf(ts[i]))
  }

  predicate CfgShort(t: TunnelCfg) {
    Short(t.id) && Short(t.sub) && Short(t.path) && Short(t.local)
  }

  method EncRegister(clientId: Str, ts: seq<TunnelCfg>) returns (out: Str)
    requires Short(clientId) && forall i :: 0 <= i < |ts| ==> CfgShort(ts[i])
    ensures out == ClientFrame(Register(Some(clientId), DefsOf(ts)), [])
  {
    hide EncPrim;
    ghost var f := ClientFields(Register(Some(clientId), DefsOf(ts)), []);
    var w := new W();
    w.U8(T_REGISTER);
    w.Str(clientId);
    w.U16(|ts| % 0x1_0000);
    assert w.buf == EncTo(REGISTER_SHAPE.head, f.head, 3);
    EncTunnels(w, ts);
    return w.buf;
  }

  method EncTunnels(w: W, ts: seq<TunnelCfg>)
    requires forall i :: 0 <= i < |ts| ==> CfgShort(ts[i])
    modifies w
    ensures w.buf == old(w.buf) + EncRows(TUNNEL_COLS, DefRows(DefsOf(ts)), |ts|)
  {
    hide EncTo, DefRow, CfgShort, DefOf;
    for i := 0 to |ts|
      invariant w.buf == old(w.buf) + EncRows(TUNNEL_COLS, DefRows(DefsOf(ts)), i)
    {
      EncTunnel(w, ts[i]);
    }
  }

  method EncTunnel(w: W, t: TunnelCfg)
    requires CfgShort(t)
    modifies w
    ensures w.buf == old(w.buf) + EncTo(TUNNEL_COLS, DefRow(DefOf(t)), 5)
  {
    hide EncPrim;
    w.Str(t.id);
    w.U8(ProtoToU8(if t.proto == [] then HTTP else t.proto));
    w.Str(t.sub);
    w.Str(t.path);
    w.Str(t.local);
  }

  method EncPong() returns (out: Str)
    ensures out == ClientFrame(Pong, [])
  {
    hide EncFrame;
    out := BinProto.WriteBare(T_PONG);
  }

  /** The C++ `int` status is cast to 16 bits. */
  method EncHead(sid: u64, status: int, headers: map<Str, Str>, order: seq<(Str, Str)>) returns (out: Str)
    requires ShortOrder(order) && Traverses(order, headers)
    ensures out == ClientFrame(ResponseHead(sid, status % 0x1_0000, headers), order)
  {
    hide EncPrim;
    ghost var f := ClientFields(ResponseHead(sid, status % 0x1_0000, headers), order);
    var w := new W();
    w.U8(T_RESPONSE_HEAD);
    w.Varint(sid);
    w.U16(status % 0x1_0000);
    w.Headers(order);
    assert w.buf == EncTo(HEAD_SHAPE.head, f.head, 4) + EncRows(HEADER_COLS, f.rows, |order|);
    return w.buf;
  }

  method EncChunk(sid: u64, data: Str) returns (out: Str)
    requires Short(data)
    ensures out == ClientFrame(Chunk(sid, data), [])
  {
    hide EncFrame;
    out := BinProto.WriteChunk(sid, data);
  }

  method EncEnd(sid: u64) returns (out: Str)
    ensures out == ClientFrame(End(sid), [])
  {
    hide EncFrame;
    out := BinProto.WriteId(T_END, sid);
  }

  method EncAbort(sid: u64, reason: Str) returns (out: Str)
    requires Short(reason)
    ensures out == ClientFrame(Abort(sid, reason), [])
  {
    out := BinProto.WriteAbort(Abort(sid, reason));
  }

  method EncMgmt(reqId: u64, verb: Str, path: Str, body: Str) returns (out: Str)
    requires Short(verb) && Short(path) && Short(body)
    ensures out == ClientFrame(Mgmt(reqId, verb, path, body), [])
  {
    out := BinProto.WriteMgmt(Mgmt(reqId, verb, path, body));
  }

  // ---- decServer ----

  function RowTunnel(r: seq<Val>): EffectiveT
    requires |r| == 4
  {
    EffectiveT(B(r[0]), U8ToProto(N(r[1])), B(r[2]), N(r[3]))
  }

  function RowTunnels(rows: seq<seq<Val>>): seq<EffectiveT>
    requires RowsSized(ACK_COLS, rows)
  {
    seq(|rows|, i requires 0 <= i < |rows| => RowTunnel(rows[i]))
  }

  function InMsgOf(tag: byte, f: Fields): InMsg
    requires ServerShape(tag).Some? && Sized(ServerShape(tag).value, f)
  {
    if tag == T_REGISTER_ACK then
      FRESH.(msgType := MRegisterAck, ackOk := N(f.head[1]) != 0, ackError := B(f.head[2]), tunnels := RowTunnels(f.rows))
    else if tag == T_PING then FRESH.(msgType := MPing)
    else if tag == T_OPEN_STREAM then OpenMsg(f)
    else if tag == T_CLOSE_STREAM then FRESH.(msgType := MCloseStream, streamId := Word(N(f.head[1])))
    else if tag == T_CHUNK then FRESH.(msgType := MChunk, streamId := Word(N(f.head[1])), data := B(f.head[2]))
    else FRESH.(msgType := MMgmtResp, reqId := Word(N(f.head[1])), status := N(f.head[2]), respBody := B(f.head[3]))
  }

  /** The message a byte string stands for on the client. An unknown type byte is not an error. */
  function ReadServerFrame(d: seq<byte>): Result<InMsg> {
    if d == [] then Err(Truncated)
    else if ServerShape(d[0]).None? then Ok(FRESH)
    else AnswerAs(d[0], d)
  }

  function AnswerAs(tag: byte, d: seq<byte>): Result<InMsg>
    requires ServerShape(tag).Some?
  {
    match ReadFrame(ServerShape(tag).value, d, false)
    case Failed(e) => Err(e)
    case Parsed(f, _) => Ok(InMsgOf(tag, f))
  }

  ghost predicate AfterTag(r: R, tag: byte)
    reads r
  {
    !r.checked && r.i == 1 && r.Valid() && PrimAt(Prim.U8, r.d, 0, false) == Parsed(Num(tag), 1)
  }

  lemma {:induction false} PingAnswer(d: seq<byte>)
    requires d != [] && d[0] == T_PING
    ensures AnswerAs(T_PING, d) == Ok(FRESH.(msgType := MPing))
  {
    HeadOnly(BARE_SHAPE, d, false);
    assert FieldsAt(BARE_SHAPE.head, d, 0, false, 1) == FieldsAt(BARE_SHAPE.head, d, 0, false, |BARE_SHAPE.head|);
    assert d[0..] == d;
  }

  method ReadRegisterAck(r: R) returns (m: Result<InMsg>)
    requires AfterTag(r, T_REGISTER_ACK)
    modifies r
    ensures m == AnswerAs(T_REGISTER_ACK, r.d)
  {
    hide PrimAt, FieldsAt, RowsAt, ToSeq, ReadFrame, RowTunnels;
    FieldByField(ACK_SHAPE.head, r.d, 0, false, 4);
    NoTail(ACK_SHAPE, r.d, false);
    var ok :- r.U8();
    var error :- r.Str();
    var n :- r.U16();
    AllOf(ReadTo(ACK_SHAPE.head, r.d, 0, false, 4).value, [Num(T_REGISTER_ACK), Num(ok), Raw(error), Num(n)], 4);
    var tunnels :- ReadTunnels(r, n);
    return Ok(FRESH.(msgType := MRegisterAck, ackOk := ok != 0, ackError := error, tunnels := tunnels));
  }

  method ReadTunnels(r: R, n: nat) returns (ts: Result<seq<EffectiveT>>)
    requires r.Valid()
    modifies r
    ensures r.Valid() && match RowsAt(ACK_COLS, r.d, old(r.i), r.checked, n)
      case Failed(e) => ts == Err(e)
      case Parsed(rows, k) => ts == Ok(RowTunnels(rows)) && r.i == k
  {
    hide RowsAt, FieldsAt, RowTunnel;
    ghost var i0 := r.i;
    var res: seq<EffectiveT> := [];
    ghost var rows: seq<seq<Val>> := [];
    NoRows(ACK_COLS, r.d, i0, r.checked);
    for j := 0 to n
      invariant r.Valid() && i0 <= |r.d|
      invariant RowsAt(ACK_COLS, r.d, i0, r.checked, j) == Parsed(rows, r.i)
      invariant RowsSized(ACK_COLS, rows) && |rows| == j && res == RowTunnels(rows)
    {
      NextRow(ACK_COLS, r.d, i0, r.i, r.checked, rows, n);
      ghost var row := FieldsAt(ACK_COLS, r.d, r.i, r.checked, |ACK_COLS|);
      var t :- ReadTunnel(r);
      rows := rows + [row.value];
      res := res + [t];
    }
    return Ok(res);
  }

  lemma {:induction false} TunnelOfRow(id: Str, n: nat, url: Str, port: nat)
    ensures RowTunnel([Raw(id), Num(n), Raw(url), Num(port)]) == EffectiveT(id, U8ToProto(n), url, port)
  {
    hide U8ToProto;
  }

  method ReadTunnel(r: R) returns (t: Result<EffectiveT>)
    requires r.Valid()
    modifies r
    ensures r.Valid() && match FieldsAt(ACK_COLS, r.d, old(r.i), r.checked, |ACK_COLS|)
      case Failed(e) => t == Err(e)
      case Parsed(row, n) => t == Ok(RowTunnel(row)) && r.i == n
  {
    hide PrimAt, FieldsAt, RowsAt, ToSeq, U8ToProto, RowTunnel;
    ghost var i0 := r.i;
    FieldByField(ACK_COLS, r.d, i0, r.checked, 4);
    var id :- r.Str();
    var proto :- r.U8();
    var url :- r.Str();
    var port :- r.U16();
    AllOf(ReadTo(ACK_COLS, r.d, i0, r.checked, 4).value, [Raw(id), Num(proto), Raw(url), Num(port)], 4);
    TunnelOfRow(id, proto, url, port);
    return Ok(EffectiveT(id, U8ToProto(proto), url, port));
  }

  function OpenMsg(f: Fields): InMsg
    requires Sized(OPEN_SHAPE, f)
  {
    var id := Word(N(f.head[1]));
    FRESH.(msgType := MOpenStream, streamId := id,
           os := OpenReq(id, B(f.head[2]), U8ToProto(N(f.head[3])), B(f.head[4]), B(f.head[5]),
                         MapOf(f.rows, |f.rows|), B(f.tail[0])))
  }

  /** The fields of OpenStream before its header count. */
  method ReadOpenHead(r: R) returns (h: Result<(nat, Str, nat, Str, Str)>)
    requires AfterTag(r, T_OPEN_STREAM)
    modifies r
    ensures r.Valid() && match ReadTo(OPEN_SHAPE.head, r.d, 0, false, 6)
      case Failed(e) => h == Err(e)
      case Parsed(l, i) => h.Ok? && r.i == i && ToSeq(l) == OpenHead(h.value)
  {
    hide PrimAt, FieldsAt, RowsAt, ToSeq, DecodeVarint;
    var id :- r.Varint();
    var tunnelId :- r.Str();
    var proto :- r.U8();
    var verb :- r.Str();
    var path :- r.Str();
    h := Ok((id, tunnelId, proto, verb, path));
    AllOf(ReadTo(OPEN_SHAPE.head, r.d, 0, false, 6).value, OpenHead(h.value), 6);
  }

  function OpenHead(h: (nat, Str, nat, Str, Str)): seq<Val> {
    [Num(T_OPEN_STREAM), Num(h.0), Raw(h.1), Num(h.2), Raw(h.3), Raw(h.4)]
  }

  method ReadOpenStream(r: R) returns (m: Result<InMsg>)
    requires AfterTag(r, T_OPEN_STREAM)
    modifies r
    ensures m == AnswerAs(T_OPEN_STREAM, r.d)
  {
    hide PrimAt, FieldsAt, RowsAt, MapOf, U8ToProto;
    FieldByField(OPEN_SHAPE.head, r.d, 0, false, 7);
    var h :- ReadOpenHead(r);
    var headers :- BinProto.ReadHeaders(r);
    ghost var at := r.i;
    FieldByField(OPEN_SHAPE.tail, r.d, at, false, 1);
    var body :- r.Bytes();
    AllOf(ReadTo(OPEN_SHAPE.tail, r.d, at, false, 1).value, [Raw(body)], 1);
    var os := OpenReq(Word(h.0), h.1, U8ToProto(h.2), h.3, h.4, headers, body);
    return Ok(FRESH.(msgType := MOpenStream, streamId := Word(h.0), os := os));
  }

  method ReadCloseStream(r: R) returns (m: Result<InMsg>)
    requires AfterTag(r, T_CLOSE_STREAM)
    modifies r
    ensures m == AnswerAs(T_CLOSE_STREAM, r.d)
  {
    hide PrimAt, FieldsAt, RowsAt, ToSeq, ReadFrame;
    FieldByField(ID_SHAPE.head, r.d, 0, false, 2);
    HeadOnly(ID_SHAPE, r.d, false);
    var id :- r.Varint();
    AllOf(ReadTo(ID_SHAPE.head, r.d, 0, false, 2).value, [Num(T_CLOSE_STREAM), Num(id)], 2);
    return Ok(FRESH.(msgType := MCloseStream, streamId := Word(id)));
  }

  method ReadChunk(r: R) returns (m: Result<InMsg>)
    requires AfterTag(r, T_CHUNK)
    modifies r
    ensures m == AnswerAs(T_CHUNK, r.d)
  {
    hide PrimAt, FieldsAt, RowsAt, ToSeq, ReadFrame;
    FieldByField(CHUNK_SHAPE.head, r.d, 0, false, 3);
    HeadOnly(CHUNK_SHAPE, r.d, false);
    var id :- r.Varint();
    var data :- r.Bytes();
    AllOf(ReadTo(CHUNK_SHAPE.head, r.d, 0, false, 3).value, [Num(T_CHUNK), Num(id), Raw(data)], 3);
    return Ok(FRESH.(msgType := MChunk, streamId := Word(id), data := data));
  }

  method ReadMgmtResp(r: R) returns (m: Result<InMsg>)
    requires AfterTag(r, T_MGMT_RESP)
    modifies r
    ensures m == AnswerAs(T_MGMT_RESP, r.d)
  {
    hide PrimAt, FieldsAt, RowsAt, ToSeq, ReadFrame;
    FieldByField(MGMT_RESP_SHAPE.head, r.d, 0, false, 4);
    HeadOnly(MGMT_RESP_SHAPE, r.d, false);
    var id :- r.Varint();
    var status :- r.U16();
    var body :- r.Bytes();
    AllOf(ReadTo(MGMT_RESP_SHAPE.head, r.d, 0, false, 4).value, [Num(T_MGMT_RESP), Num(id), Num(status), Raw(body)], 4);
    return Ok(FRESH.(msgType := MMgmtResp, reqId := Word(id), status := status, respBody := body));
  }

  method DecServer(raw: Str) returns (m: Result<InMsg>)
    requires |raw| <= MAX_LEN
    ensures m == ReadServerFrame(raw)
  {
    hide ReadFrame, InMsgOf;
    var r := new R(raw, false);
    assert raw[0..] == raw;
    var t :- r.U8();
    if t == T_REGISTER_ACK { m := ReadRegisterAck(r); }
    else if t == T_PING {
      PingAnswer(raw);
      m := Ok(FRESH.(msgType := MPing));
    }
    else if t == T_OPEN_STREAM { m := ReadOpenStream(r); }
    else if t == T_CLOSE_STREAM { m := ReadCloseStream(r); }
    else if t == T_CHUNK { m := ReadChunk(r); }
    else if t == T_MGMT_RESP { m := ReadMgmtResp(r); }
    else { m := Ok(FRESH); }
  }
}
