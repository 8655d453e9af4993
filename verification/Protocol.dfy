/** The messages of the control channel, and the frame each of them stands for. */
module Protocol {
  import opened Bytes
  import opened Bits
  import opened Varint
  import opened Utf8
  import opened Wire
  import opened WireReader
  import opened WireIO

  datatype TunnelDef = TunnelDef(tunnelId: Str, proto: Option<Str>, subdomain: Option<Str>,
                                 pathPrefix: Option<Str>, localAddr: Option<Str>)

  datatype ClientMsg =
    | Register(clientId: Option<Str>, tunnels: seq<TunnelDef>)
    | Pong
    | ResponseHead(streamId: u64, status: u16, headers: map<Str, Str>)
    | Chunk(streamId: u64, data: Str)
    | End(streamId: u64)
    | Abort(streamId: u64, reason: Str)
    | Mgmt(reqId: u64, method_: Str, path: Str, body: Str)

  datatype EffectiveTunnel = EffectiveTunnel(tunnelId: Str, proto: Str, publicUrl: Str, publicPort: Option<u16>)

  datatype ServerMsg =
    | RegisterAck(ok: bool, error: Option<Str>, tunnels: seq<EffectiveTunnel>)
    | Ping
    | OpenStream(streamId: u64, tunnelId: Str, proto: Str, method_: Str, path: Str, headers: map<Str, Str>, body: Str)
    | CloseStream(streamId: u64)
    | DataChunk(streamId: u64, data: Str)
    | MgmtResp(reqId: u64, status: u16, body: Str)

  const T_REGISTER: byte := 0x01
  const T_REGISTER_ACK: byte := 0x02
  const T_PING: byte := 0x03
  const T_PONG: byte := 0x04
  const T_OPEN_STREAM: byte := 0x05
  const T_RESPONSE_HEAD: byte := 0x06
  const T_CHUNK: byte := 0x07
  const T_END: byte := 0x08
  const T_ABORT: byte := 0x09
  const T_CLOSE_STREAM: byte := 0x0A
  const T_MGMT: byte := 0x0B
  const T_MGMT_RESP: byte := 0x0C

  const TCP: Str := Ascii("tcp")
  const HTTP: Str := Ascii("http")

  function ProtoToU8(p: Str): byte { if p == TCP then 1 else 0 }
  function U8ToProto(b: nat): Str { if b == 1 then TCP else HTTP }

  const TUNNEL_COLS: seq<Prim> := [Text, Prim.U8, Text, Text, Text]
  const ACK_COLS: seq<Prim> := [Text, Prim.U8, Text, Prim.U16]

  const REGISTER_SHAPE := Shape([Prim.U8, Text, Prim.U16], TUNNEL_COLS, [])
  const BARE_SHAPE := Shape([Prim.U8], [], [])
  const HEAD_SHAPE := Shape([Prim.U8, Leb64, Prim.U16, Prim.U16], HEADER_COLS, [])
  const CHUNK_SHAPE := Shape([Prim.U8, Leb64, Blob], [], [])
  const ID_SHAPE := Shape([Prim.U8, Leb64], [], [])
  const ABORT_SHAPE := Shape([Prim.U8, Leb64, Text], [], [])
  const MGMT_SHAPE := Shape([Prim.U8, Leb64, Text, Text, Blob], [], [])
  const ACK_SHAPE := Shape([Prim.U8, Prim.U8, Text, Prim.U16], ACK_COLS, [])
  const OPEN_SHAPE := Shape([Prim.U8, Leb64, Text, Prim.U8, Text, Text, Prim.U16], HEADER_COLS, [Blob])
  const MGMT_RESP_SHAPE := Shape([Prim.U8, Leb64, Prim.U16, Blob], [], [])

  /** An absent string travels as the empty one. */
  function OrEmpty(o: Option<Str>): Str { o.GetOr([]) }
  function NonEmpty(s: Str): Option<Str> { if s == [] then None else Some(s) }

  // ---- C -> S ----

  function ClientTag(m: ClientMsg): byte {
    match m
    case Register(_, _) => T_REGISTER
    case Pong => T_PONG
    case ResponseHead(_, _, _) => T_RESPONSE_HEAD
    case Chunk(_, _) => T_CHUNK
    case End(_) => T_END
    case Abort(_, _) => T_ABORT
    case Mgmt(_, _, _, _) => T_MGMT
  }

  function ClientShape(tag: byte): Option<Shape> {
    if tag == T_REGISTER then Some(REGISTER_SHAPE)
    else if tag == T_PONG then Some(BARE_SHAPE)
    else if tag == T_RESPONSE_HEAD then Some(HEAD_SHAPE)
    else if tag == T_CHUNK then Some(CHUNK_SHAPE)
    else if tag == T_END then Some(ID_SHAPE)
    else if tag == T_ABORT then Some(ABORT_SHAPE)
    else if tag == T_MGMT then Some(MGMT_SHAPE)
    else None
  }

  function DefRow(t: TunnelDef): seq<Val> {
    [Raw(t.tunnelId), Num(ProtoToU8(t.proto.GetOr(HTTP))), Raw(OrEmpty(t.subdomain)), Raw(OrEmpty(t.pathPrefix)),
     Raw(OrEmpty(t.localAddr))]
  }

  function DefRows(ts: seq<TunnelDef>): (rows: seq<seq<Val>>)
    ensures |rows| == |ts| && RowsSized(TUNNEL_COLS, rows)
    ensures forall i :: 0 <= i < |ts| ==> rows[i] == DefRow(ts[i])
  {
    if ts == [] then [] else DefRows(ts[..|ts| - 1]) + [DefRow(ts[|ts| - 1])]
  }

  /** The fields of a message; `order` is a traversal of its header map, if it has one. */
  function ClientFields(m: ClientMsg, order: seq<(Str, Str)>): (f: Fields)
    ensures Sized(ClientShape(ClientTag(m)).value, f)
  {
    var t := Num(ClientTag(m));
    match m
    case Register(id, ts) => Fields([t, Raw(OrEmpty(id)), Num(|ts| % 0x1_0000)], DefRows(ts), [])
    case Pong => Fields([t], [], [])
    case ResponseHead(id, status, _) =>
      Fields([t, Num(id), Num(status), Num(|order| % 0x1_0000)], HeaderRows(order), [])
    case Chunk(id, data) => Fields([t, Num(id), Raw(data)], [], [])
    case End(id) => Fields([t, Num(id)], [], [])
    case Abort(id, reason) => Fields([t, Num(id), Raw(reason)], [], [])
    case Mgmt(id, verb, path, body) => Fields([t, Num(id), Raw(verb), Raw(path), Raw(body)], [], [])
  }

  function RowDef(r: seq<Val>): TunnelDef
    requires |r| == 5
  {
    TunnelDef(B(r[0]), Some(U8ToProto(N(r[1]))), NonEmpty(B(r[2])), NonEmpty(B(r[3])), NonEmpty(B(r[4])))
  }

  function RowDefs(rows: seq<seq<Val>>): seq<TunnelDef>
    requires RowsSized(TUNNEL_COLS, rows)
  {
    seq(|rows|, i requires 0 <= i < |rows| => RowDef(rows[i]))
  }

  function Word(n: nat): u64 { n % U64 }
  function Half(n: nat): u16 { n % 0x1_0000 }

  function ClientMsgOf(tag: byte, f: Fields): ClientMsg
    requires ClientShape(tag).Some? && Sized(ClientShape(tag).value, f)
  {
    if tag == T_REGISTER then Register(NonEmpty(B(f.head[1])), RowDefs(f.rows))
    else if tag == T_PONG then Pong
    else if tag == T_RESPONSE_HEAD then
      ResponseHead(Word(N(f.head[1])), Half(N(f.head[2])), MapOf(f.rows, |f.rows|))
    else if tag == T_CHUNK then Chunk(Word(N(f.head[1])), B(f.head[2]))
    else if tag == T_END then End(Word(N(f.head[1])))
    else if tag == T_ABORT then Abort(Word(N(f.head[1])), B(f.head[2]))
    else Mgmt(Word(N(f.head[1])), B(f.head[2]), B(f.head[3]), B(f.head[4]))
  }

  function ClientFrame(m: ClientMsg, order: seq<(Str, Str)>): seq<byte> {
    EncFrame(ClientShape(ClientTag(m)).value, ClientFields(m, order))
  }

  /** The message a byte string stands for on the server. */
  function ReadClientFrame(d: seq<byte>): Result<ClientMsg> {
    if d == [] then Err(Truncated)
    else if ClientShape(d[0]).None? then Err(UnknownFrame)
    else match ReadFrame(ClientShape(d[0]).value, d, true)
      case Failed(e) => Err(e)
      case Parsed(f, _) => Ok(ClientMsgOf(d[0], f))
  }

  // ---- S -> C ----

  function ServerTag(m: ServerMsg): byte {
    match m
    case RegisterAck(_, _, _) => T_REGISTER_ACK
    case Ping => T_PING
    case OpenStream(_, _, _, _, _, _, _) => T_OPEN_STREAM
    case CloseStream(_) => T_CLOSE_STREAM
    case DataChunk(_, _) => T_CHUNK
    case MgmtResp(_, _, _) => T_MGMT_RESP
  }

  function ServerShape(tag: byte): Option<Shape> {
    if tag == T_REGISTER_ACK then Some(ACK_SHAPE)
    else if tag == T_PING then Some(BARE_SHAPE)
    else if tag == T_OPEN_STREAM then Some(OPEN_SHAPE)
    else if tag == T_CLOSE_STREAM then Some(ID_SHAPE)
    else if tag == T_CHUNK then Some(CHUNK_SHAPE)
    else if tag == T_MGMT_RESP then Some(MGMT_RESP_SHAPE)
    else None
  }

  function AckRow(t: EffectiveTunnel): seq<Val> {
    [Raw(t.tunnelId), Num(ProtoToU8(t.proto)), Raw(t.publicUrl), Num(t.publicPort.GetOr(0))]
  }

  function AckRows(ts: seq<EffectiveTunnel>): (rows: seq<seq<Val>>)
    ensures |rows| == |ts| && RowsSized(ACK_COLS, rows)
    ensures forall i :: 0 <= i < |ts| ==> rows[i] == AckRow(ts[i])
  {
    if ts == [] then [] else AckRows(ts[..|ts| - 1]) + [AckRow(ts[|ts| - 1])]
  }

  function ServerFields(m: ServerMsg, order: seq<(Str, Str)>): (f: Fields)
    ensures Sized(ServerShape(ServerTag(m)).value, f)
  {
    var t := Num(ServerTag(m));
    match m
    case RegisterAck(ok, error, ts) =>
      Fields([t, Num(if ok then 1 else 0), Raw(OrEmpty(error)), Num(|ts| % 0x1_0000)], AckRows(ts), [])
    case Ping => Fields([t], [], [])
    case OpenStream(id, tid, proto, verb, path, _, body) =>
      Fields([t, Num(id), Raw(tid), Num(ProtoToU8(proto)), Raw(verb), Raw(path), Num(|order| % 0x1_0000)],
             HeaderRows(order), [Raw(body)])
    case CloseStream(id) => Fields([t, Num(id)], [], [])
    case DataChunk(id, data) => Fields([t, Num(id), Raw(data)], [], [])
    case MgmtResp(id, status, body) => Fields([t, Num(id), Num(status), Raw(body)], [], [])
  }

  function ServerFrame(m: ServerMsg, order: seq<(Str, Str)>): seq<byte> {
    EncFrame(ServerShape(ServerTag(m)).value, ServerFields(m, order))
  }

  // ---- sizes that fit in memory ----

  predicate Short(s: Str) { |s| < U64 }

  predicate ShortOrder(order: seq<(Str, Str)>) {
    forall i :: 0 <= i < |order| ==> Short(order[i].0) && Short(order[i].1)
  }

  predicate ClientShort(m: ClientMsg) {
    match m
    case Register(id, ts) => Short(OrEmpty(id)) && forall i :: 0 <= i < |ts| ==> DefShort(ts[i])
    case Abort(_, reason) => Short(reason)
    case Chunk(_, data) => Short(data)
    case Mgmt(_, verb, path, body) => Short(verb) && Short(path) && Short(body)
    case _ => true
  }

  predicate DefShort(t: TunnelDef) {
    Short(t.tunnelId) && Short(OrEmpty(t.subdomain)) && Short(OrEmpty(t.pathPrefix)) && Short(OrEmpty(t.localAddr))
  }

  predicate ServerShort(m: ServerMsg) {
    match m
    case RegisterAck(_, error, ts) =>
      Short(OrEmpty(error)) && forall i :: 0 <= i < |ts| ==> Short(ts[i].tunnelId) && Short(ts[i].publicUrl)
    case OpenStream(_, tid, _, verb, path, _, body) => Short(tid) && Short(verb) && Short(path) && Short(body)
    case DataChunk(_, data) => Short(data)
    case MgmtResp(_, _, body) => Short(body)
    case _ => true
  }

  /** The header map a message carries. */
  function ClientHeaders(m: ClientMsg): map<Str, Str> { if m.ResponseHead? then m.headers else map[] }
  function ServerHeaders(m: ServerMsg): map<Str, Str> { if m.OpenStream? then m.headers else map[] }
}
