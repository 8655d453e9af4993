/** The bytes of every binary v3 frame, written out. */
module FrameBytes {
  import opened Bytes
  import opened Bits
  import opened Varint
  import opened Wire
  import opened WireIO
  import opened Protocol

  /** A string or a run of bytes behind its length. */
  function Counted(s: Str): seq<byte> { Leb(|s|) + s }

  /** The low 16 bits, the low byte first. */
  function Two(n: nat): seq<byte> { [n % 256, n / 256 % 256] }

  function HeaderBytes(order: seq<(Str, Str)>): seq<byte> {
    if order == [] then []
    else
      var (k, v) := order[|order| - 1];
      HeaderBytes(order[..|order| - 1]) + (Counted(k) + Counted(v))
  }

  function ProtoByte(proto: Str): byte { if proto == Ascii("tcp") then 1 else 0 }

  function DefBytes(t: TunnelDef): seq<byte> {
    Counted(t.tunnelId) + [ProtoByte(t.proto.GetOr([]))] + Counted(t.subdomain.GetOr([])) + Counted(t.pathPrefix.GetOr([]))
      + Counted(t.localAddr.GetOr([]))
  }

  function DefsBytes(ts: seq<TunnelDef>): seq<byte> {
    if ts == [] then [] else DefsBytes(ts[..|ts| - 1]) + DefBytes(ts[|ts| - 1])
  }

  function AckBytes(t: EffectiveTunnel): seq<byte> {
    Counted(t.tunnelId) + [ProtoByte(t.proto)] + Counted(t.publicUrl) + Two(t.publicPort.GetOr(0))
  }

  function AcksBytes(ts: seq<EffectiveTunnel>): seq<byte> {
    if ts == [] then [] else AcksBytes(ts[..|ts| - 1]) + AckBytes(ts[|ts| - 1])
  }

  // ---- fields and rows ----

  lemma {:induction false} NumBytes(n: nat)
    ensures EncPrim(Prim.U8, Num(n)) == [n % 256] && EncPrim(Prim.U16, Num(n)) == Two(n) && EncPrim(Leb64, Num(n)) == Leb(n)
  {
  }

  lemma {:induction false} RawBytes(s: Str)
    ensures EncPrim(Text, Raw(s)) == Counted(s) && EncPrim(Blob, Raw(s)) == Counted(s)
  {
  }

  lemma {:induction false} TcpIs()
    ensures TCP == Ascii("tcp") != HTTP == Ascii("http")
  {
    assert |TCP| == 3 && |HTTP| == 4;
  }

  lemma {:induction false} HeaderBytesAre(order: seq<(Str, Str)>)
    ensures EncRows(HEADER_COLS, HeaderRows(order), |order|) == HeaderBytes(order)
  {
    hide EncPrim, Counted;
    if order != [] {
      var k := |order| - 1;
      HeaderBytesAre(order[..k]);
      RowsUpTo(HEADER_COLS, HeaderRows(order), HeaderRows(order[..k]), k);
      RawBytes(order[k].0);
      RawBytes(order[k].1);
      assert EncTo(HEADER_COLS, [Raw(order[k].0), Raw(order[k].1)], 2) == [] + Counted(order[k].0) + Counted(order[k].1);
    }
  }

  /** Encoded rows do not depend on the rows behind them. */
  lemma {:induction false} RowsUpTo(cols: seq<Prim>, rows: seq<seq<Val>>, front: seq<seq<Val>>, k: nat)
    requires k <= |front| <= |rows| && RowsSized(cols, rows) && RowsSized(cols, front)
    requires forall j :: 0 <= j < k ==> rows[j] == front[j]
    ensures EncRows(cols, rows, k) == EncRows(cols, front, k)
  {
    hide EncTo;
    if k > 0 { RowsUpTo(cols, rows, front, k - 1); }
  }

  lemma {:induction false} DefRowBytes(t: TunnelDef)
    ensures EncTo(TUNNEL_COLS, DefRow(t), 5) == DefBytes(t)
  {
    hide EncPrim, Counted;
    var v := DefRow(t);
    TcpIs();
    RawBytes(t.tunnelId);
    RawBytes(OrEmpty(t.subdomain));
    RawBytes(OrEmpty(t.pathPrefix));
    RawBytes(OrEmpty(t.localAddr));
    NumBytes(ProtoToU8(t.proto.GetOr(HTTP)));
    assert EncTo(TUNNEL_COLS, v, 1) == [] + Counted(t.tunnelId);
    assert EncTo(TUNNEL_COLS, v, 2) == Counted(t.tunnelId) + [ProtoByte(t.proto.GetOr([]))];
  }

  lemma {:induction false} DefsBytesAre(ts: seq<TunnelDef>)
    ensures EncRows(TUNNEL_COLS, DefRows(ts), |ts|) == DefsBytes(ts)
  {
    hide EncTo, DefRow, DefBytes;
    if ts != [] {
      var k := |ts| - 1;
      DefsBytesAre(ts[..k]);
      RowsUpTo(TUNNEL_COLS, DefRows(ts), DefRows(ts[..k]), k);
      DefRowBytes(ts[k]);
    }
  }

  lemma {:induction false} AckRowBytes(t: EffectiveTunnel)
    ensures EncTo(ACK_COLS, AckRow(t), 4) == AckBytes(t)
  {
    hide EncPrim, Counted, Two;
    var v := AckRow(t);
    TcpIs();
    RawBytes(t.tunnelId);
    RawBytes(t.publicUrl);
    NumBytes(ProtoToU8(t.proto));
    NumBytes(t.publicPort.GetOr(0));
    assert EncTo(ACK_COLS, v, 1) == [] + Counted(t.tunnelId);
    assert EncTo(ACK_COLS, v, 2) == Counted(t.tunnelId) + [ProtoByte(t.proto)];
  }

  lemma {:induction false} AcksBytesAre(ts: seq<EffectiveTunnel>)
    ensures EncRows(ACK_COLS, AckRows(ts), |ts|) == AcksBytes(ts)
  {
    hide EncTo, AckRow, AckBytes;
    if ts != [] {
      var k := |ts| - 1;
      AcksBytesAre(ts[..k]);
      RowsUpTo(ACK_COLS, AckRows(ts), AckRows(ts[..k]), k);
      AckRowBytes(ts[k]);
    }
  }

  // ---- frames ----

  /** The type byte and the id after it. */
  lemma {:induction false} TagAndId(ps: seq<Prim>, vs: seq<Val>, tag: byte, id: nat)
    requires |ps| == |vs| >= 2 && ps[0] == Prim.U8 && ps[1] == Leb64 && vs[0] == Num(tag) && vs[1] == Num(id)
    ensures EncTo(ps, vs, 2) == [tag] + Leb(id)
  {
    assert EncTo(ps, vs, 1) == [] + [tag];
  }

  lemma {:induction false} NoRowBytes(cols: seq<Prim>)
    ensures EncRows(cols, [], 0) == []
  {
  }

  // The frames with more than three fields.

  lemma {:induction false} RegisterBytes(id: Option<Str>, ts: seq<TunnelDef>)
    ensures ClientFrame(Register(id, ts), []) == [0x01] + Counted(id.GetOr([])) + Two(|ts| % 0x1_0000) + DefsBytes(ts)
  {
    hide EncPrim, Counted, Two, EncRows, DefsBytes;
    var f := ClientFields(Register(id, ts), []);
    NumBytes(1);
    RawBytes(OrEmpty(id));
    NumBytes(|ts| % 0x1_0000);
    DefsBytesAre(ts);
    NoFieldBytes();
    assert EncTo(REGISTER_SHAPE.head, f.head, 1) == [] + [0x01];
    assert EncTo(REGISTER_SHAPE.head, f.head, 2) == [0x01] + Counted(id.GetOr([]));
  }

  lemma {:induction false} HeadBytes(id: u64, status: u16, headers: map<Str, Str>, order: seq<(Str, Str)>)
    ensures ClientFrame(ResponseHead(id, status, headers), order)
         == [0x06] + Leb(id) + Two(status) + Two(|order| % 0x1_0000) + HeaderBytes(order)
  {
    hide EncPrim, Two, EncRows, HeaderBytes, Leb;
    var f := ClientFields(ResponseHead(id, status, headers), order);
    TagAndId(HEAD_SHAPE.head, f.head, 0x06, id);
    NumBytes(status);
    NumBytes(|order| % 0x1_0000);
    HeaderBytesAre(order);
    NoFieldBytes();
    assert EncTo(HEAD_SHAPE.head, f.head, 3) == [0x06] + Leb(id) + Two(status);
  }

  lemma {:induction false} MgmtBytes(id: u64, verb: Str, path: Str, body: Str)
    ensures ClientFrame(Mgmt(id, verb, path, body), []) == [0x0B] + Leb(id) + Counted(verb) + Counted(path) + Counted(body)
  {
    hide EncPrim, Counted, EncRows, Leb;
    var f := ClientFields(Mgmt(id, verb, path, body), []);
    TagAndId(MGMT_SHAPE.head, f.head, 0x0B, id);
    RawBytes(verb);
    RawBytes(path);
    RawBytes(body);
    NoRowBytes([]);
    NoFieldBytes();
    assert EncTo(MGMT_SHAPE.head, f.head, 3) == [0x0B] + Leb(id) + Counted(verb);
    assert EncTo(MGMT_SHAPE.head, f.head, 4) == [0x0B] + Leb(id) + Counted(verb) + Counted(path);
  }

  lemma {:induction false} AckFrameBytes(ok: bool, error: Option<Str>, ts: seq<EffectiveTunnel>)
    ensures ServerFrame(RegisterAck(ok, error, ts), [])
         == [0x02, if ok then 1 else 0] + Counted(error.GetOr([])) + Two(|ts| % 0x1_0000) + AcksBytes(ts)
  {
    hide EncPrim, Counted, Two, EncRows, AcksBytes;
    var f := ServerFields(RegisterAck(ok, error, ts), []);
    NumBytes(2);
    NumBytes(if ok then 1 else 0);
    RawBytes(OrEmpty(error));
    NumBytes(|ts| % 0x1_0000);
    AcksBytesAre(ts);
    NoFieldBytes();
    assert EncTo(ACK_SHAPE.head, f.head, 1) == [] + [0x02];
    assert EncTo(ACK_SHAPE.head, f.head, 2) == [0x02, if ok then 1 else 0];
    assert EncTo(ACK_SHAPE.head, f.head, 3) == [0x02, if ok then 1 else 0] + Counted(error.GetOr([]));
  }

  lemma {:induction false} OpenBytes(m: ServerMsg, order: seq<(Str, Str)>)
    requires m.OpenStream?
    ensures ServerFrame(m, order)
         == [0x05] + Leb(m.streamId) + Counted(m.tunnelId) + [ProtoByte(m.proto)] + Counted(m.method_) + Counted(m.path)
            + Two(|order| % 0x1_0000) + HeaderBytes(order) + Counted(m.body)
  {
    hide EncPrim, Counted, Two, EncRows, HeaderBytes, Leb;
    var f := ServerFields(m, order);
    TagAndId(OPEN_SHAPE.head, f.head, 0x05, m.streamId);
    TcpIs();
    RawBytes(m.tunnelId);
    NumBytes(ProtoToU8(m.proto));
    RawBytes(m.method_);
    RawBytes(m.path);
    NumBytes(|order| % 0x1_0000);
    HeaderBytesAre(order);
    RawBytes(m.body);
    var start := [0x05] + Leb(m.streamId) + Counted(m.tunnelId) + [ProtoByte(m.proto)];
    assert EncTo(OPEN_SHAPE.head, f.head, 3) == [0x05] + Leb(m.streamId) + Counted(m.tunnelId);
    assert EncTo(OPEN_SHAPE.head, f.head, 4) == start;
    assert EncTo(OPEN_SHAPE.head, f.head, 5) == start + Counted(m.method_);
    assert EncTo(OPEN_SHAPE.head, f.head, 6) == start + Counted(m.method_) + Counted(m.path);
    assert EncTo(OPEN_SHAPE.tail, f.tail, 1) == [] + Counted(m.body);
  }

  lemma {:induction false} MgmtRespBytes(id: u64, status: u16, body: Str)
    ensures ServerFrame(MgmtResp(id, status, body), []) == [0x0C] + Leb(id) + Two(status) + Counted(body)
  {
    hide EncPrim, Counted, Two, EncRows, Leb;
    var f := ServerFields(MgmtResp(id, status, body), []);
    TagAndId(MGMT_RESP_SHAPE.head, f.head, 0x0C, id);
    NumBytes(status);
    RawBytes(body);
    NoRowBytes([]);
    NoFieldBytes();
    assert EncTo(MGMT_RESP_SHAPE.head, f.head, 3) == [0x0C] + Leb(id) + Two(status);
  }

  // The short ones.

  lemma {:induction false} BareBytes(tag: byte)
    ensures EncFrame(BARE_SHAPE, Fields([Num(tag)], [], [])) == [tag]
  {
    NoRowBytes([]);
    NoFieldBytes();
    assert EncTo(BARE_SHAPE.head, [Num(tag)], 1) == [] + [tag];
  }

  lemma {:induction false} IdBytes(tag: byte, id: u64)
    ensures EncFrame(ID_SHAPE, Fields([Num(tag), Num(id)], [], [])) == [tag] + Leb(id)
  {
    hide EncPrim, Leb;
    TagAndId(ID_SHAPE.head, [Num(tag), Num(id)], tag, id);
    NoRowBytes([]);
    NoFieldBytes();
  }

  lemma {:induction false} DataBytes(p: Prim, tag: byte, id: u64, data: Str)
    requires p == Blob || p == Text
    ensures EncFrame(Shape([Prim.U8, Leb64, p], [], []), Fields([Num(tag), Num(id), Raw(data)], [], []))
         == [tag] + Leb(id) + Counted(data)
  {
    hide EncPrim, Leb, Counted;
    TagAndId([Prim.U8, Leb64, p], [Num(tag), Num(id), Raw(data)], tag, id);
    RawBytes(data);
    NoRowBytes([]);
    NoFieldBytes();
  }

  lemma {:induction false} NoFieldBytes()
    ensures EncTo([], [], 0) == []
  {
  }

  /** What the client sends. */
  lemma {:induction false} ClientBytes(m: ClientMsg, order: seq<(Str, Str)>)
    ensures ClientFrame(m, if m.ResponseHead? then order else []) ==
      match m
      case Register(id, ts) => [0x01] + Counted(id.GetOr([])) + Two(|ts| % 0x1_0000) + DefsBytes(ts)
      case Pong => [0x04]
      case ResponseHead(id, status, _) => [0x06] + Leb(id) + Two(status) + Two(|order| % 0x1_0000) + HeaderBytes(order)
      case Chunk(id, data) => [0x07] + Leb(id) + Counted(data)
      case End(id) => [0x08] + Leb(id)
      case Abort(id, reason) => [0x09] + Leb(id) + Counted(reason)
      case Mgmt(id, verb, path, body) => [0x0B] + Leb(id) + Counted(verb) + Counted(path) + Counted(body)
  {
    hide EncFrame, Leb, Counted, Two, DefsBytes, HeaderBytes;
    match m
    case Register(id, ts) => RegisterBytes(id, ts);
    case Pong => BareBytes(0x04);
    case ResponseHead(id, status, headers) => HeadBytes(id, status, headers, order);
    case Chunk(id, data) => DataBytes(Blob, 0x07, id, data);
    case End(id) => IdBytes(0x08, id);
    case Abort(id, reason) => DataBytes(Text, 0x09, id, reason);
    case Mgmt(id, verb, path, body) => MgmtBytes(id, verb, path, body);
  }

  /** What the server sends. */
  lemma {:induction false} ServerBytes(m: ServerMsg, order: seq<(Str, Str)>)
    ensures ServerFrame(m, if m.OpenStream? then order else []) ==
      match m
      case RegisterAck(ok, error, ts) =>
        [0x02, if ok then 1 else 0] + Counted(error.GetOr([])) + Two(|ts| % 0x1_0000) + AcksBytes(ts)
      case Ping => [0x03]
      case OpenStream(id, tunnelId, proto, verb, path, _, body) =>
        [0x05] + Leb(id) + Counted(tunnelId) + [ProtoByte(proto)] + Counted(verb) + Counted(path)
          + Two(|order| % 0x1_0000) + HeaderBytes(order) + Counted(body)
      case CloseStream(id) => [0x0A] + Leb(id)
      case DataChunk(id, data) => [0x07] + Leb(id) + Counted(data)
      case MgmtResp(id, status, body) => [0x0C] + Leb(id) + Two(status) + Counted(body)
  {
    hide EncFrame, Leb, Counted, Two, AcksBytes, HeaderBytes;
    match m
    case RegisterAck(ok, error, ts) => AckFrameBytes(ok, error, ts);
    case Ping => BareBytes(0x03);
    case OpenStream(_, _, _, _, _, _, _) => OpenBytes(m, order);
    case CloseStream(id) => IdBytes(0x0A, id);
    case DataChunk(id, data) => DataBytes(Blob, 0x07, id, data);
    case MgmtResp(id, status, body) => MgmtRespBytes(id, status, body);
  }
}
