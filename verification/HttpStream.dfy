/** The job of a worker thread: forward one HTTP stream, on a pooled or a new connection. */
module HttpStream {
  import opened Bytes
  import opened Net
  import opened HttpBody
  import opened HttpHead
  import opened HttpRequest
  import opened HttpExchange
  import W = Wire
  import opened P = Protocol
  import L = LocalPool

  type Frame = ClientMsg

  const NO_ANSWER: Str := [0xE6, 0x9C, 0xAC, 0xE5, 0x9C, 0xB0, 0xE6, 0x97, 0xA0, 0xE5, 0x93, 0x8D, 0xE5, 0xBA, 0x94]

  /** The control connection, as a log of the frames handed to it. */
  class Session {
    var sent: seq<Frame>

    constructor ()
      ensures sent == []
    {
      sent := [];
    }

    method Send(f: Frame)
      modifies this
      ensures sent == old(sent) + [f]
    {
      sent := sent + [f];
    }
  }

  function ChunkFrames(id: W.u64, chunks: seq<Str>): (fs: seq<Frame>)
    ensures |fs| == |chunks| && forall i :: 0 <= i < |chunks| ==> fs[i] == P.Chunk(id, chunks[i])
  {
    seq(|chunks|, i requires 0 <= i < |chunks| => P.Chunk(id, chunks[i]))
  }

  function HeadFrame(id: W.u64, m: Meta): Frame { ResponseHead(id, m.status % 0x1_0000, m.headers) }

  function Frames(id: W.u64, m: Meta, chunks: seq<Str>): seq<Frame> {
    [HeadFrame(id, m)] + ChunkFrames(id, chunks) + [P.End(id)]
  }

  /** `fs` forwards the body `body` after the head `m`. */
  ghost predicate Forwards(fs: seq<Frame>, id: W.u64, m: Meta, body: Str) {
    exists chunks :: NoneEmpty(chunks) && Concat(chunks) == body && fs == Frames(id, m, chunks)
  }

  /** The head frame can say how many headers it has. */
  predicate Counts(m: Meta) { |m.headers| < 0x1_0000 }

  /** The connection has not been told anything since `fs` began: one Abort, or Head Chunk* End. */
  ghost predicate IsScript(fs: seq<Frame>, id: W.u64) {
    (exists reason :: fs == [P.Abort(id, reason)]) || exists m, body :: Counts(m) && Forwards(fs, id, m, body)
  }

  type Conns = L.LocalPool<Socket>

  method RunHttpOnce(sess: Session, id: W.u64, addr: Str, req: Request, conn: Socket, pool: Conns, now: int)
    returns (done: bool)
    requires conn.Valid() && conn.Patient()
    modifies sess, conn, pool
    ensures conn.Valid()
    ensures conn.written == if conn.writable then old(conn.written) + RequestBytes(addr, req) else old(conn.written)
    ensures match Exchange(conn.data, conn.cuts, old(conn.pos), conn.writable)
      case Retry => !done && sess.sent == old(sess.sent) && pool.idle == old(pool.idle)
      case Done(m, body, stop, keep) =>
        && done && conn.pos == stop
        && old(sess.sent) <= sess.sent && Forwards(sess.sent[|old(sess.sent)|..], id, m, body)
        && pool.idle == if keep then L.AfterRelease(old(pool.idle), addr, conn, now) else old(pool.idle)
  {
    hide HeadLen, ParseMeta, BodyExchange, Concat, RequestBytes, NoneEmpty, KeepAlive;
    var r := BuildRequest(addr, req);
    var ok := conn.WriteAll(r);
    if !ok { return false; }
    var found, head := ReadHttpHead(conn);
    if !found { return false; }
    var m := ParseHead(head);
    sess.Send(HeadFrame(id, m));
    var chunks, keepAlive := ReadBody(conn, m);
    SendAll(sess, id, chunks);
    sess.Send(P.End(id));
    assert sess.sent[|old(sess.sent)|..] == Frames(id, m, chunks);
    if keepAlive { pool.Release(addr, conn, now); }
    return true;
  }

  /** The body after the head `m`, in the pieces in which it is forwarded. */
  method ReadBody(conn: Socket, m: Meta) returns (chunks: seq<Str>, keepAlive: bool)
    requires conn.Valid() && conn.Patient()
    modifies conn
    ensures conn.Valid() && conn.written == old(conn.written)
    ensures var x := BodyExchange(conn.data, conn.cuts, old(conn.pos), m);
      NoneEmpty(chunks) && Concat(chunks) == x.body && conn.pos == x.stop && keepAlive == x.keep
  {
    hide ChunkedStop, ChunkedData, Concat;
    keepAlive := KeepAlive(m);
    if m.chunked {
      chunks := ReadChunked(conn);
    } else if m.length >= 0 {
      var total: nat;
      chunks, total := ReadData(conn, m.length, 16384);
      if total < m.length { keepAlive := false; }
    } else {
      chunks := ReadUntilClose(conn);
      keepAlive := false;
    }
  }

  method SendAll(sess: Session, id: W.u64, chunks: seq<Str>)
    modifies sess
    ensures sess.sent == old(sess.sent) + ChunkFrames(id, chunks)
  {
    for i := 0 to |chunks|
      invariant sess.sent == old(sess.sent) + ChunkFrames(id, chunks[..i])
    {
      sess.Send(P.Chunk(id, chunks[i]));
    }
    assert chunks[..|chunks|] == chunks;
  }

  // ---- the whole job ----

  predicate Holds(idle: L.Pools<Socket>, s: Socket) {
    exists a :: a in idle && InEntry(idle[a], s)
  }

  predicate InEntry(v: seq<L.Idle<Socket>>, s: Socket) {
    exists i :: 0 <= i < |v| && v[i].sock == s
  }

  /** No connection is in the pool twice. */
  ghost predicate Distinct(idle: L.Pools<Socket>) {
    forall a, i, b, j :: a in idle && b in idle && 0 <= i < |idle[a]| && 0 <= j < |idle[b]| && (a != b || i != j) ==>
      idle[a][i].sock != idle[b][j].sock
  }

  ghost function Pooled(idle: L.Pools<Socket>): set<Socket> {
    set a, i | a in idle && 0 <= i < |idle[a]| :: idle[a][i].sock
  }

  ghost function Dialled(dial: seq<Option<Socket>>): set<Socket> {
    set i | 0 <= i < |dial| && dial[i].Some? :: dial[i].value
  }

  ghost predicate Ready(ss: set<Socket>)
    reads ss
  {
    forall s :: s in ss ==> s.Valid() && s.Patient()
  }

  lemma {:induction false} AcquireSplits(idle: L.Pools<Socket>, addr: Str, now: int)
    requires Distinct(idle)
    ensures var rest, s := L.AfterAcquire(idle, addr, now), L.Acquired(idle, addr, now);
      && Distinct(rest) && Pooled(rest) <= Pooled(idle)
      && (s.Some? ==> s.value in Pooled(idle) && s.value !in Pooled(rest))
  {
    var rest := L.AfterAcquire(idle, addr, now);
    forall a, i | a in rest && 0 <= i < |rest[a]| ensures a in idle && i < |idle[a]| && rest[a][i] == idle[a][i] {}
  }

  /** The connection an attempt works on: a pooled one, or else what dialling gives. */
  function Picked(idle: L.Pools<Socket>, addr: Str, dialled: Option<Socket>, now: int): Option<Socket> {
    var got := L.Acquired(idle, addr, now);
    if got.Some? then got else dialled
  }

  /** What an attempt on `s`, standing at `p`, comes to. */
  ghost function Try(s: Socket, p: nat): Outcome {
    if p <= |s.data| then Exchange(s.data, s.cuts, p, s.writable) else Retry
  }

  /** How the job ended: its last attempt worked on `last`, taken off the pool when that left `rest`. */
  ghost predicate JobEnded(script: seq<Frame>, id: W.u64, idle: L.Pools<Socket>, used: Option<Socket>, addr: Str,
          err: Str,
                        last: Option<Socket>, rest: L.Pools<Socket>, x: Outcome, now: int) {
    match last
    case None => used == None && script == [P.Abort(id, err)] && idle == rest
    case Some(s) =>
      match x
      case Retry => used == None && script == [P.Abort(id, NO_ANSWER)] && idle == rest
      case Done(m, body, _, keep) =>
        && used == last && Forwards(script, id, m, body)
        && idle == if keep then L.AfterRelease(rest, addr, s, now) else rest
  }

  /** `dial` is what connecting anew would give at either attempt, `clock` what the clock reads at
      its four looks. There is a second attempt iff the first one failed on a pooled connection.
      The stream gets exactly one Abort, or one head, chunks and end that are what the answering
      connection delivered from where it stood before the call; that connection got the
      request, and is back in the pool iff it may be reused. */
  method HandleHttpStream(sess: Session, id: W.u64, addr: Str, req: Request, pool: Conns,
                          dial: seq<Option<Socket>>, err: Str, clock: seq<int>) returns (ghost used: Option<Socket>)
    requires |dial| == 2 && |clock| == 4
    requires Distinct(pool.idle) && Pooled(pool.idle) !! Dialled(dial)
    requires dial[0].Some? && dial[1].Some? ==> dial[0].value != dial[1].value
    requires Ready(Pooled(pool.idle) + Dialled(dial))
    modifies sess, pool, Pooled(pool.idle), Dialled(dial)
    ensures old(sess.sent) <= sess.sent
    ensures var idle := old(pool.idle);
      var first := Picked(idle, addr, dial[0], clock[0]);
      var rest := L.AfterAcquire(idle, addr, clock[0]);
      var again := L.Acquired(idle, addr, clock[0]).Some? && Try(first.value, old(first.value.pos)).Retry?;
      var last := if again then Picked(rest, addr, dial[1], clock[2]) else first;
      JobEnded(sess.sent[|old(sess.sent)|..], id, pool.idle, used, addr, err, last,
            if again then L.AfterAcquire(rest, addr, clock[2]) else rest,
            if last.Some? then Try(last.value, old(last.value.pos)) else Retry,
            if again then clock[3] else clock[1])
    ensures used.Some? ==>
      && used.value in old(Pooled(pool.idle)) + Dialled(dial)
      && used.value.written == old(used.value.written) + RequestBytes(addr, req)
      && Try(used.value, old(used.value.pos)).Done? && used.value.pos == Try(used.value, old(used.value.pos)).stop
  {
    hide Exchange, Forwards, L.AfterAcquire, L.Acquired, L.AfterRelease, RequestBytes, Distinct, NO_ANSWER;
    ghost var pooled := Pooled(pool.idle);
    ghost var idle0 := pool.idle;
    ghost var rest0 := L.AfterAcquire(idle0, addr, clock[0]);
    ghost var got0 := L.Acquired(idle0, addr, clock[0]);
    var attempt := 0;
    while attempt < 2
      invariant 0 <= attempt <= 1 && sess.sent == old(sess.sent)
      invariant pool.idle == if attempt == 0 then idle0 else rest0
      invariant attempt == 1 ==> got0.Some? && Try(got0.value, old(got0.value.pos)).Retry?
      invariant Distinct(pool.idle) && Pooled(pool.idle) <= pooled
      invariant Ready(Pooled(pool.idle))
      invariant forall s :: s in Pooled(pool.idle) ==> s.pos == old(s.pos) && s.written == old(s.written)
      invariant forall i :: attempt <= i < 2 && dial[i].Some? ==>
        dial[i].value.Valid() && dial[i].value.pos == old(dial[i].value.pos)
            && dial[i].value.written == old(dial[i].value.written)
    {
      AcquireSplits(pool.idle, addr, clock[2 * attempt]);
      var got := pool.Acquire(addr, clock[2 * attempt]);
      var reused := got.Some?;
      if got.None? {
        if dial[attempt].None? {
          sess.Send(P.Abort(id, err));
          return None;
        }
        got := dial[attempt];
        assert got.value in Dialled(dial);
      }
      var conn := got.value;
      assert conn.Valid() && conn.pos == old(conn.pos);
      var done := RunHttpOnce(sess, id, addr, req, conn, pool, clock[2 * attempt + 1]);
      if done {
        WrittenIfDone(conn, old(conn.pos));
        return Some(conn);
      }
      if reused && attempt == 0 {
        attempt := 1;
        continue;
      }
      sess.Send(P.Abort(id, NO_ANSWER));
      return None;
    }
    assert false;
  }

  lemma {:induction false} WrittenIfDone(s: Socket, p: nat)
    ensures Try(s, p).Done? ==> s.writable
  {
  }

  /** What a job sends is a script, with a head that the server can count. */
  lemma {:induction false} JobIsScript(script: seq<Frame>, id: W.u64, idle: L.Pools<Socket>, used: Option<Socket>,
          addr: Str, err: Str,
                                      last: Option<Socket>, rest: L.Pools<Socket>, p: nat, now: int)
    requires JobEnded(script, id, idle, used, addr, err, last, rest, if last.Some? then Try(last.value, p) else Retry, now)
    ensures IsScript(script, id)
  {
    hide Forwards, L.AfterRelease, ParseMeta, BodyExchange;
    if last.Some? && Try(last.value, p).Done? {
      var d, x := last.value.data, Try(last.value, p);
      FewHeaders(d[p..p + HeadLen(d, p).value]);
      assert Counts(x.meta) && Forwards(script, id, x.meta, x.body);
    }
  }
}
