/** The Rust half of binary v3: `encode_server`, `encode_client` and `decode_client`. */
module BinProto {
  import opened Bytes
  import opened Bits
  import opened Varint
  import opened Wire
  import opened WireReader
  import opened WireIO
  import opened Protocol

  // ---- one writer per frame layout ----

  method WriteBare(tag: byte) returns (out: seq<byte>)
    ensures out == EncFrame(BARE_SHAPE, Fields([Num(tag)], [], []))
  {
    hide EncPrim;
    var w := new W();
    w.U8(tag);
    assert w.buf == EncTo(BARE_SHAPE.head, [Num(tag)], 1);
    return w.buf;
  }

  method WriteId(tag: byte, id: u64) returns (out: seq<byte>)
    ensures out == EncFrame(ID_SHAPE, Fields([Num(tag), Num(id)], [], []))
  {
    hide EncPrim;
    var w := new W();
    w.U8(tag);
    w.Varint(id);
    assert w.buf == EncTo(ID_SHAPE.head, [Num(tag), Num(id)], 2);
    return w.buf;
  }

  method WriteChunk(id: u64, data: Str) returns (out: seq<byte>)
    requires Short(data)
    ensures out == EncFrame(CHUNK_SHAPE, Fields([Num(T_CHUNK), Num(id), Raw(data)], [], []))
  {
    hide EncPrim;
    var w := new W();
    w.U8(T_CHUNK);
    w.Varint(id);
    w.Bytes(data);
    assert w.buf == EncTo(CHUNK_SHAPE.head, [Num(T_CHUNK), Num(id), Raw(data)], 3);
    return w.buf;
  }

  method WriteRegisterAck(m: ServerMsg) returns (out: seq<byte>)
    requires m.RegisterAck? && ServerShort(m)
    ensures out == ServerFrame(m, [])
  {
    hide EncPrim;
    ghost var f := ServerFields(m, []);
    var w := new W();
    w.U8(T_REGISTER_ACK);
    w.U8(if m.ok then 1 else 0);
    w.Str(OrEmpty(m.error));
    w.U16(|m.tunnels| % 0x1_0000);
    assert w.buf == EncTo(ACK_SHAPE.head, f.head, 4);
    WriteAckRows(w, m.tunnels);
    return w.buf;
  }

  method WriteAckRows(w: W, ts: seq<EffectiveTunnel>)
    requires forall i :: 0 <= i < |ts| ==> Short(ts[i].tunnelId) && Short(ts[i].publicUrl)
    modifies w
    ensures w.buf == old(w.buf) + EncRows(ACK_COLS, AckRows(ts), |ts|)
  {
    hide EncTo, AckRow;
    for i := 0 to |ts|
      invariant w.buf == old(w.buf) + EncRows(ACK_COLS, AckRows(ts), i)
    {
      WriteAckRow(w, ts[i]);
    }
  }

  method WriteAckRow(w: W, t: EffectiveTunnel)
    requires Short(t.tunnelId) && Short(t.publicUrl)
    modifies w
    ensures w.buf == old(w.buf) + EncTo(ACK_COLS, AckRow(t), 4)
  {
    hide EncPrim;
    w.Str(t.tunnelId);
    w.U8(ProtoToU8(t.proto));
    w.Str(t.publicUrl);
    w.U16(t.publicPort.GetOr(0));
  }

  method WriteOpenStream(m: ServerMsg, order: seq<(Str, Str)>) returns (out: seq<byte>)
    requires m.OpenStream? && ServerShort(m) && ShortOrder(order)
    ensures out == ServerFrame(m, order)
  {
    hide EncPrim;
    ghost var f := ServerFields(m, order);
    var w := new W();
    w.U8(T_OPEN_STREAM);
    w.Varint(m.streamId);
    w.Str(m.tunnelId);
    w.U8(ProtoToU8(m.proto));
    w.Str(m.method_);
    w.Str(m.path);
    w.Headers(order);
    assert w.buf == EncTo(OPEN_SHAPE.head, f.head, 7) + EncRows(HEADER_COLS, f.rows, |order|);
    w.Bytes(m.body);
    assert EncTo(OPEN_SHAPE.tail, f.tail, 1) == EncPrim(Blob, Raw(m.body));
    return w.buf;
  }

  method WriteMgmtResp(m: ServerMsg) returns (out: seq<byte>)
    requires m.MgmtResp? && ServerShort(m)
    ensures out == ServerFrame(m, [])
  {
    hide EncPrim;
    var w := new W();
    w.U8(T_MGMT_RESP);
    w.Varint(m.reqId);
    w.U16(m.status);
    w.Bytes(m.body);
    assert w.buf == EncTo(MGMT_RESP_SHAPE.head, ServerFields(m, []).head, 4);
    return w.buf;
  }

  method WriteRegister(m: ClientMsg) returns (out: seq<byte>)
    requires m.Register? && ClientShort(m)
    ensures out == ClientFrame(m, [])
  {
    hide EncPrim;
    ghost var f := ClientFields(m, []);
    var w := new W();
    w.U8(T_REGISTER);
    w.Str(OrEmpty(m.clientId));
    w.U16(|m.tunnels| % 0x1_0000);
    assert w.buf == EncTo(REGISTER_SHAPE.head, f.head, 3);
    WriteDefRows(w, m.tunnels);
    return w.buf;
  }

  method WriteDefRows(w: W, ts: seq<TunnelDef>)
    requires forall i :: 0 <= i < |ts| ==> DefShort(ts[i])
    modifies w
    ensures w.buf == old(w.buf) + EncRows(TUNNEL_COLS, DefRows(ts), |ts|)
  {
    hide EncTo, DefRow, DefShort;
    for i := 0 to |ts|
      invariant w.buf == old(w.buf) + EncRows(TUNNEL_COLS, DefRows(ts), i)
    {
      WriteDefRow(w, ts[i]);
    }
  }

  method WriteDefRow(w: W, t: TunnelDef)
    requires DefShort(t)
    modifies w
    ensures w.buf == old(w.buf) + EncTo(TUNNEL_COLS, DefRow(t), 5)
  {
    hide EncPrim;
    w.Str(t.tunnelId);
    w.U8(ProtoToU8(t.proto.GetOr(HTTP)));
    w.Str(OrEmpty(t.subdomain));
    w.Str(OrEmpty(t.pathPrefix));
    w.Str(OrEmpty(t.localAddr));
  }

  method WriteResponseHead(m: ClientMsg, order: seq<(Str, Str)>) returns (out: seq<byte>)
    requires m.ResponseHead? && ShortOrder(order)
    ensures out == ClientFrame(m, order)
  {
    hide EncPrim;
    ghost var f := ClientFields(m, order);
    var w := new W();
    w.U8(T_RESPONSE_HEAD);
    w.Varint(m.streamId);
    w.U16(m.status);
    w.Headers(order);
    assert w.buf == EncTo(HEAD_SHAPE.head, f.head, 4) + EncRows(HEADER_COLS, f.rows, |order|);
    return w.buf;
  }

  method WriteAbort(m: ClientMsg) returns (out: seq<byte>)
    requires m.Abort? && ClientShort(m)
    ensures out == ClientFrame(m, [])
  {
    hide EncPrim;
    var w := new W();
    w.U8(T_ABORT);
    w.Varint(m.streamId);
    w.Str(m.reason);
    assert w.buf == EncTo(ABORT_SHAPE.head, ClientFields(m, []).head, 3);
    return w.buf;
  }

  method WriteMgmt(m: ClientMsg) returns (out: seq<byte>)
    requires m.Mgmt? && ClientShort(m)
    ensures out == ClientFrame(m, [])
  {
    hide EncPrim;
    var w := new W();
    w.U8(T_MGMT);
    w.Varint(m.reqId);
    w.Str(m.method_);
    w.Str(m.path);
    w.Bytes(m.body);
    assert w.buf == EncTo(MGMT_SHAPE.head, ClientFields(m, []).head, 5);
    return w.buf;
  }

  // ---- whole messages ----

  /** `order` is the order in which the hash map happens to be traversed. */
  method EncodeServer(m: ServerMsg, order: seq<(Str, Str)>) returns (out: seq<byte>)
    requires ServerShort(m) && ShortOrder(order) && Traverses(order, ServerHeaders(m))
    ensures out == ServerFrame(m, order)
  {
    hide EncFrame;
    match m {
      case RegisterAck(_, _, _) => out := WriteRegisterAck(m);
      case Ping => out := WriteBare(T_PING);
      case OpenStream(_, _, _, _, _, _, _) => out := WriteOpenStream(m, order);
      case CloseStream(id) => out := WriteId(T_CLOSE_STREAM, id);
      case DataChunk(id, data) => out := WriteChunk(id, data);
      case MgmtResp(_, _, _) => out := WriteMgmtResp(m);
    }
  }

  method EncodeClient(m: ClientMsg, order: seq<(Str, Str)>) returns (out: seq<byte>)
    requires ClientShort(m) && ShortOrder(order) && Traverses(order, ClientHeaders(m))
    ensures out == ClientFrame(m, order)
  {
    hide EncFrame;
    match m {
      case Register(_, _) => out := WriteRegister(m);
      case Pong => out := WriteBare(T_PONG);
      case ResponseHead(_, _, _) => out := WriteResponseHead(m, order);
      case Chunk(id, data) => out := WriteChunk(id, data);
      case End(id) => out := WriteId(T_END, id);
      case Abort(_, _) => out := WriteAbort(m);
      case Mgmt(_, _, _, _) => out := WriteMgmt(m);
    }
  }

  // ---- reading ----

  method ReadHeaders(r: R) returns (h: Result<map<Str, Str>>)
    requires r.Valid()
    modifies r
    ensures r.Valid() && match PrimAt(Prim.U16, r.d, old(r.i), r.checked)
      case Failed(e) => h == Err(e)
      case Parsed(n, m) =>
        match RowsAt(HEADER_COLS, r.d, m, r.checked, N(n))
        case Failed(e) => h == Err(e)
        case Parsed(rows, k) => h == Ok(MapOf(rows, |rows|)) && r.i == k
  {
    hide PrimAt, RowsAt, MapOf;
    var n :- r.U16();
    h := ReadHeaderRows(r, n);
  }

  method ReadHeaderRows(r: R, n: nat) returns (h: Result<map<Str, Str>>)
    requires r.Valid()
    modifies r
    ensures r.Valid() && match RowsAt(HEADER_COLS, r.d, old(r.i), r.checked, n)
      case Failed(e) => h == Err(e)
      case Parsed(rows, k) => h == Ok(MapOf(rows, |rows|)) && r.i == k
  {
    hide RowsAt, FieldsAt, MapOf;
    ghost var i0 := r.i;
    var res: map<Str, Str> := map[];
    ghost var rows: seq<seq<Val>> := [];
    NoRows(HEADER_COLS, r.d, i0, r.checked);
    NoHeaders();
    for j := 0 to n
      invariant r.Valid() && i0 <= |r.d|
      invariant RowsAt(HEADER_COLS, r.d, i0, r.checked, j) == Parsed(rows, r.i)
      invariant RowsSized(HEADER_COLS, rows) && |rows| == j && res == MapOf(rows, j)
    {
      NextRow(HEADER_COLS, r.d, i0, r.i, r.checked, rows, n);
      var kv :- ReadHeader(r);
      MapSnoc(rows, [Raw(kv.0), Raw(kv.1)]);
      rows := rows + [[Raw(kv.0), Raw(kv.1)]];
      res := res[kv.0 := kv.1];
    }
    return Ok(res);
  }

  lemma {:induction false} NoHeaders()
    ensures MapOf([], 0) == map[]
  {
  }

  lemma {:induction false} MapPrefix(rows: seq<seq<Val>>, row: seq<Val>, k: nat)
    requires RowsSized(HEADER_COLS, rows) && |row| == 2 && k <= |rows|
    ensures MapOf(rows + [row], k) == MapOf(rows, k)
  {
    if k > 0 { MapPrefix(rows, row, k - 1); }
  }

  lemma {:induction false} MapSnoc(rows: seq<seq<Val>>, row: seq<Val>)
    requires RowsSized(HEADER_COLS, rows) && |row| == 2
    ensures MapOf(rows + [row], |rows| + 1) == MapOf(rows, |rows|)[B(row[0]) := B(row[1])]
  {
    MapPrefix(rows, row, |rows|);
  }

  method ReadHeader(r: R) returns (kv: Result<(Str, Str)>)
    requires r.Valid()
    modifies r
    ensures r.Valid() && match FieldsAt(HEADER_COLS, r.d, old(r.i), r.checked, |HEADER_COLS|)
      case Failed(e) => kv == Err(e)
      case Parsed(row, n) => kv.Ok? && row == [Raw(kv.value.0), Raw(kv.value.1)] && r.i == n
  {
    hide PrimAt, FieldsAt, RowsAt, ToSeq;
    ghost var i0 := r.i;
    FieldByField(HEADER_COLS, r.d, i0, r.checked, 2);
    var k :- r.Str();
    var v :- r.Str();
    AllOf(ReadTo(HEADER_COLS, r.d, i0, r.checked, 2).value, [Raw(k), Raw(v)], 2);
    return Ok((k, v));
  }

  /** What the frame layout of `tag` makes of `d`. */
  function AnswerAs(tag: byte, d: seq<byte>): Result<ClientMsg>
    requires ClientShape(tag).Some?
  {
    match ReadFrame(ClientShape(tag).value, d, true)
    case Failed(e) => Err(e)
    case Parsed(f, _) => Ok(ClientMsgOf(tag, f))
  }

  /** `r` has just read the type byte. */
  ghost predicate AfterTag(r: R, tag: byte)
    reads r
  {
    r.checked && r.i == 1 && r.Valid() && PrimAt(Prim.U8, r.d, 0, true) == Parsed(Num(tag), 1)
  }

  lemma {:induction false} PongAnswer(d: seq<byte>)
    requires d != [] && d[0] == T_PONG
    ensures AnswerAs(T_PONG, d) == Ok(Pong)
  {
    HeadOnly(BARE_SHAPE, d, true);
    assert FieldsAt(BARE_SHAPE.head, d, 0, true, 1) == FieldsAt(BARE_SHAPE.head, d, 0, true, |BARE_SHAPE.head|);
    assert d[0..] == d;
  }

  method ReadEnd(r: R) returns (m: Result<ClientMsg>)
    requires AfterTag(r, T_END)
    modifies r
    ensures m == AnswerAs(T_END, r.d)
  {
    hide PrimAt, FieldsAt, RowsAt, ToSeq, ReadFrame;
    FieldByField(ID_SHAPE.head, r.d, 0, true, 2);
    HeadOnly(ID_SHAPE, r.d, true);
    var id :- r.Varint();
    AllOf(ReadTo(ID_SHAPE.head, r.d, 0, true, 2).value, [Num(T_END), Num(id)], 2);
    return Ok(End(Word(id)));
  }

  method ReadChunk(r: R) returns (m: Result<ClientMsg>)
    requires AfterTag(r, T_CHUNK)
    modifies r
    ensures m == AnswerAs(T_CHUNK, r.d)
  {
    hide PrimAt, FieldsAt, RowsAt, ToSeq, ReadFrame;
    FieldByField(CHUNK_SHAPE.head, r.d, 0, true, 3);
    HeadOnly(CHUNK_SHAPE, r.d, true);
    var id :- r.Varint();
    var data :- r.Bytes();
    AllOf(ReadTo(CHUNK_SHAPE.head, r.d, 0, true, 3).value, [Num(T_CHUNK), Num(id), Raw(data)], 3);
    return Ok(Chunk(Word(id), data));
  }

  method ReadAbort(r: R) returns (m: Result<ClientMsg>)
    requires AfterTag(r, T_ABORT)
    modifies r
    ensures m == AnswerAs(T_ABORT, r.d)
  {
    hide PrimAt, FieldsAt, RowsAt, ToSeq, ReadFrame;
    FieldByField(ABORT_SHAPE.head, r.d, 0, true, 3);
    HeadOnly(ABORT_SHAPE, r.d, true);
    var id :- r.Varint();
    var reason :- r.Str();
    AllOf(ReadTo(ABORT_SHAPE.head, r.d, 0, true, 3).value, [Num(T_ABORT), Num(id), Raw(reason)], 3);
    return Ok(Abort(Word(id), reason));
  }

  method ReadMgmt(r: R) returns (m: Result<ClientMsg>)
    requires AfterTag(r, T_MGMT)
    modifies r
    ensures m == AnswerAs(T_MGMT, r.d)
  {
    hide PrimAt, FieldsAt, RowsAt, ToSeq, ReadFrame;
    FieldByField(MGMT_SHAPE.head, r.d, 0, true, 5);
    HeadOnly(MGMT_SHAPE, r.d, true);
    var id :- r.Varint();
    var verb :- r.Str();
    var path :- r.Str();
    var body :- r.Bytes();
    AllOf(ReadTo(MGMT_SHAPE.head, r.d, 0, true, 5).value, [Num(T_MGMT), Num(id), Raw(verb), Raw(path), Raw(body)], 5);
    return Ok(Mgmt(Word(id), verb, path, body));
  }

  method ReadResponseHead(r: R) returns (m: Result<ClientMsg>)
    requires AfterTag(r, T_RESPONSE_HEAD)
    modifies r
    ensures m == AnswerAs(T_RESPONSE_HEAD, r.d)
  {
    hide PrimAt, FieldsAt, RowsAt, ToSeq, ReadFrame, MapOf;
    FieldByField(HEAD_SHAPE.head, r.d, 0, true, 4);
    NoTail(HEAD_SHAPE, r.d, true);
    var id :- r.Varint();
    var status :- r.U16();
    ghost var c := PrimAt(Prim.U16, r.d, r.i, true);
    if c.Parsed? {
      AllOf(ReadTo(HEAD_SHAPE.head, r.d, 0, true, 4).value, [Num(T_RESPONSE_HEAD), Num(id), Num(status), c.value], 4);
    }
    var headers :- ReadHeaders(r);
    return Ok(ResponseHead(Word(id), Half(status), headers));
  }

  method ReadRegister(r: R) returns (m: Result<ClientMsg>)
    requires AfterTag(r, T_REGISTER)
    modifies r
    ensures m == AnswerAs(T_REGISTER, r.d)
  {
    hide PrimAt, FieldsAt, RowsAt, ToSeq, ReadFrame, RowDefs;
    FieldByField(REGISTER_SHAPE.head, r.d, 0, true, 3);
    NoTail(REGISTER_SHAPE, r.d, true);
    var id :- r.Str();
    var n :- r.U16();
    AllOf(ReadTo(REGISTER_SHAPE.head, r.d, 0, true, 3).value, [Num(T_REGISTER), Raw(id), Num(n)], 3);
    var tunnels :- ReadDefs(r, n);
    return Ok(Register(NonEmpty(id), tunnels));
  }

  method ReadDefs(r: R, n: nat) returns (ts: Result<seq<TunnelDef>>)
    requires r.Valid()
    modifies r
    ensures r.Valid() && match RowsAt(TUNNEL_COLS, r.d, old(r.i), r.checked, n)
      case Failed(e) => ts == Err(e)
      case Parsed(rows, k) => ts == Ok(RowDefs(rows)) && r.i == k
  {
    hide RowsAt, FieldsAt, RowDef;
    ghost var i0 := r.i;
    var res: seq<TunnelDef> := [];
    ghost var rows: seq<seq<Val>> := [];
    NoRows(TUNNEL_COLS, r.d, i0, r.checked);
    for j := 0 to n
      invariant r.Valid() && i0 <= |r.d|
      invariant RowsAt(TUNNEL_COLS, r.d, i0, r.checked, j) == Parsed(rows, r.i)
      invariant RowsSized(TUNNEL_COLS, rows) && |rows| == j && res == RowDefs(rows)
    {
      NextRow(TUNNEL_COLS, r.d, i0, r.i, r.checked, rows, n);
      ghost var row := FieldsAt(TUNNEL_COLS, r.d, r.i, r.checked, |TUNNEL_COLS|);
      var t :- ReadDef(r);
      rows := rows + [row.value];
      res := res + [t];
    }
    return Ok(res);
  }

  /** The first three fields of a row, collected. */
  method ReadDefStart(r: R) returns (h: Result<(Str, nat, Str)>)
    requires r.Valid()
    modifies r
    ensures r.Valid() && match ReadTo(TUNNEL_COLS, r.d, old(r.i), r.checked, 3)
      case Failed(e) => h == Err(e)
      case Parsed(l, i) => h.Ok? && r.i == i && l == Snoc(Snoc(Snoc(Nil, Raw(h.value.0)), Num(h.value.1)), Raw(h.value.2))
  {
    hide PrimAt, FieldsAt, RowsAt, ToSeq, DecodeVarint;
    var tunnelId :- r.Str();
    var proto :- r.U8();
    var sub :- r.Str();
    return Ok((tunnelId, proto, sub));
  }

  method ReadDefFields(r: R) returns (h: Result<(Str, nat, Str, Str, Str)>)
    requires r.Valid()
    modifies r
    ensures r.Valid() && match ReadTo(TUNNEL_COLS, r.d, old(r.i), r.checked, 5)
      case Failed(e) => h == Err(e)
      case Parsed(l, i) => h.Ok? && r.i == i && ToSeq(l) == DefFields(h.value)
  {
    hide PrimAt, FieldsAt, RowsAt, ToSeq, DecodeVarint;
    ghost var i0 := r.i;
    var start :- ReadDefStart(r);
    var path :- r.Str();
    var local :- r.Str();
    h := Ok((start.0, start.1, start.2, path, local));
    AllOf(ReadTo(TUNNEL_COLS, r.d, i0, r.checked, 5).value, DefFields(h.value), 5);
  }

  function DefFields(h: (Str, nat, Str, Str, Str)): seq<Val> {
    [Raw(h.0), Num(h.1), Raw(h.2), Raw(h.3), Raw(h.4)]
  }

  method ReadDef(r: R) returns (t: Result<TunnelDef>)
    requires r.Valid()
    modifies r
    ensures r.Valid() && match FieldsAt(TUNNEL_COLS, r.d, old(r.i), r.checked, |TUNNEL_COLS|)
      case Failed(e) => t == Err(e)
      case Parsed(row, n) => t == Ok(RowDef(row)) && r.i == n
  {
    hide PrimAt, FieldsAt, RowsAt, ToSeq, ReadTo, U8ToProto, NonEmpty;
    FieldByField(TUNNEL_COLS, r.d, r.i, r.checked, 5);
    var h :- ReadDefFields(r);
    return Ok(TunnelDef(h.0, Some(U8ToProto(h.1)), NonEmpty(h.2), NonEmpty(h.3), NonEmpty(h.4)));
  }

  method DecodeClient(d: seq<byte>) returns (m: Result<ClientMsg>)
    requires |d| <= MAX_LEN
    ensures m == ReadClientFrame(d)
  {
    hide ReadFrame, ClientMsgOf;
    var r := new R(d, true);
    assert d[0..] == d;
    var t :- r.U8();
    if t == T_REGISTER { m := ReadRegister(r); }
    else if t == T_PONG {
      PongAnswer(d);
      m := Ok(Pong);
    }
    else if t == T_RESPONSE_HEAD { m := ReadResponseHead(r); }
    else if t == T_CHUNK { m := ReadChunk(r); }
    else if t == T_END { m := ReadEnd(r); }
    else if t == T_ABORT { m := ReadAbort(r); }
    else if t == T_MGMT { m := ReadMgmt(r); }
    else { m := Err(UnknownFrame); }
  }
}
