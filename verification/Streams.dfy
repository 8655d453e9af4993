/** Multiplexed HTTP streams: visitors, control connections and worker jobs, interleaved in any way.

    Each direction of a control connection is a FIFO queue, and so is the channel that the
    server parks in `pending` for a visitor. Clients send frames only for streams that were
    opened on them; a frame the server cannot decode is skipped, and so is an open_stream that
    the client cannot decode. */
module Streams {
  import opened Bytes
  import opened Wire
  import opened Protocol
  import opened HttpStream
  import WireTheorems

  type Conn = nat

  // ---- frames ----

  function Sid(f: Frame): u64 {
    match f
    case ResponseHead(id, _, _) => id
    case Chunk(id, _) => id
    case End(id) => id
    case Abort(id, _) => id
    case _ => 0
  }

  predicate Terminal(f: Frame) { f.End? || f.Abort? }

  /** The server can decode the frame. */
  predicate Readable(f: Frame) { WireTheorems.ClientCountOk(f) && WireTheorems.ClientUtf8(f) }

  /** One Abort, or a head whose headers can be counted, chunks and an end, all of one stream. */
  predicate Shaped(fs: seq<Frame>, id: u64) {
    && fs != [] && (forall i :: 0 <= i < |fs| ==> Sid(fs[i]) == id)
    && (if |fs| == 1 then fs[0].Abort?
        else fs[0].ResponseHead? && |fs[0].headers| < 0x1_0000 && fs[|fs| - 1].End? && forall i :: 0 < i < |fs| - 1 ==> fs[i].Chunk?)
  }

  /** What a worker job sends has this shape. */
  lemma {:induction false} ScriptIsShaped(fs: seq<Frame>, id: u64)
    requires IsScript(fs, id)
    ensures Shaped(fs, id)
  {
    if reason :| fs == [Abort(id, reason)] {
    } else {
      var m, body :| Counts(m) && Forwards(fs, id, m, body);
      var chunks :| fs == Frames(id, m, chunks);
    }
  }

  /** The frames the server can decode, in order. */
  function Sift(fs: seq<Frame>): (r: seq<Frame>)
    ensures |r| <= |fs|
  {
    if fs == [] then []
    else Sift(fs[..|fs| - 1]) + if Readable(fs[|fs| - 1]) then [fs[|fs| - 1]] else []
  }

  /** The frames of one stream in a queue. */
  function Only(q: seq<Frame>, id: u64): seq<Frame> {
    if q == [] then [] else (if Sid(q[0]) == id then [q[0]] else []) + Only(q[1..], id)
  }

  /** The body bytes of frames. */
  function DataOf(fs: seq<Frame>): seq<byte> {
    if fs == [] then [] else DataOf(fs[..|fs| - 1]) + if fs[|fs| - 1].Chunk? then fs[|fs| - 1].data else []
  }

  // ---- the state ----

  datatype Result =
    | Offline
    | TimedOut
    | ClosedEarly
    | Failed(reason: seq<byte>)
    | NoHead
    | Ok(head: Frame, body: seq<byte>)
    | CutOff(head: Frame, body: seq<byte>)

  datatype Stage =
    | Allocated
    | Inserted
    | Waiting
    | Streaming(head: Frame, body: seq<byte>)
    | Giving(result: Result)
    | Finished(result: Result)
    | Gone

  /** A stream: its connection, its visitor's progress, whether its channel is in `pending`, the
      frames its job sends (`script`), has yet to send (`rest`) and got onto the wire (`sent`), the
      frames the server took off the wire (`handled`), the visitor's channel and what it read. */
  datatype Stream = Stream(conn: Conn, stage: Stage, pending: bool, known: bool, script: seq<Frame>, rest: seq<Frame>,
                           sent: seq<Frame>, handled: seq<Frame>, chan: seq<Frame>, received: seq<Frame>)

  type StreamMap = map<u64, Stream>

  /** `down` and `up` exist for the connections the client and the server still read; `writing` are
      the connections whose writer task still runs; `taking` is the stream that a connection's
      handler will remove from `pending` next. */
  datatype State = State(next: nat, conns: nat, clients: set<Conn>, writing: set<Conn>, down: map<Conn, seq<u64>>,
          up: map<Conn, seq<Frame>>,
                         taking: map<Conn, u64>, streams: StreamMap)

  datatype Event =
    | Open
    | Register(conn: Conn)
    | ClientLost(conn: Conn)
    | WriterEnds(conn: Conn, written: nat)
    | ServerClose(conn: Conn)
    | Arrive(conn: Conn)
    | Insert(id: u64)
    | SendOpen(id: u64)
    | Recv(id: u64)
    | RecvNone(id: u64)
    | Timeout(id: u64)
    | GiveUp(id: u64)
    | VisitorGone(id: u64)
    | Skip(conn: Conn)
    | Dispatch(conn: Conn, script: seq<Frame>)
    | Emit(id: u64)
    | Handle(conn: Conn)
    | Take(conn: Conn)

  const INIT := State(0, 0, {}, {}, map[], map[], map[], map[])

  function Put(s: State, id: u64, st: Stream): State { s.(streams := s.streams[id := st]) }

  predicate Reading(st: Stream) { st.stage.Waiting? || st.stage.Streaming? }

  predicate Enabled(s: State, e: Event) {
    match e
    case Open => true
    case Register(c) => c in s.up
    case ClientLost(c) => c in s.down
    case WriterEnds(c, n) => c in s.writing && (c in s.down ==> n <= |s.down[c]|)
    case ServerClose(c) => c in s.up && c !in s.taking
    case Arrive(c) => c < s.conns && s.next + 1 < 0x1_0000_0000_0000_0000
    case Insert(id) => id in s.streams && s.streams[id].stage.Allocated?
    case SendOpen(id) => id in s.streams && s.streams[id].stage.Inserted?
    case Recv(id) => id in s.streams && Reading(s.streams[id]) && s.streams[id].chan != []
    case RecvNone(id) => id in s.streams && Reading(s.streams[id]) && s.streams[id].chan == [] && !s.streams[id].pending
    case Timeout(id) => id in s.streams && s.streams[id].stage.Waiting?
    case GiveUp(id) => id in s.streams && s.streams[id].stage.Giving?
    case VisitorGone(id) => id in s.streams
    case Skip(c) => c in s.down && s.down[c] != []
    case Dispatch(c, script) => c in s.down && s.down[c] != [] && IsJob(script, s.down[c][0])
    case Emit(id) => id in s.streams && s.streams[id].rest != []
    case Handle(c) => c in s.up && s.up[c] != [] && c !in s.taking
    case Take(c) => c in s.taking
  }

  /** What dispatching an open_stream leads to: a worker job's frames, or the one Abort for an unknown tunnel. */
  predicate IsJob(script: seq<Frame>, id: u64) { Shaped(script, id) }

  /** A visitor takes the next event off its channel. */
  function Read(st: Stream): Stream
    requires Reading(st) && st.chan != []
  {
    var ev := st.chan[0];
    var st' := st.(chan := st.chan[1..], received := st.received + [ev]);
    match st.stage
    case Waiting =>
      st'.(stage := match ev
                    case ResponseHead(_, _, _) => Streaming(ev, [])
                    case Abort(_, reason) => Giving(Failed(reason))
                    case _ => Giving(NoHead))
    case Streaming(head, body) =>
      st'.(stage := match ev
                    case Chunk(_, data) => Streaming(head, body + data)
                    case End(_) => Finished(Ok(head, body))
                    case Abort(_, _) => Finished(CutOff(head, body))
                    case _ => st.stage)
    case _ => st
  }

  /** The handler of a connection routes one frame. */
  function Route(s: State, c: Conn): State
    requires c in s.up && s.up[c] != []
  {
    var f := s.up[c][0];
    var id := Sid(f);
    var s' := s.(up := s.up[c := s.up[c][1..]]);
    if id !in s.streams then s'
    else
      var st := s.streams[id];
      var st' := st.(handled := st.handled + [f]);
      if !Readable(f) then Put(s', id, st')
      else
        var routed := if st.pending then st'.(chan := st.chan + [f]) else st';
        Put(if Terminal(f) then s'.(taking := s'.taking[c := id]) else s', id, routed)
  }

  /** The client takes an open_stream off the connection. */
  function Start(s: State, c: Conn, script: seq<Frame>): State
    requires c in s.down && s.down[c] != []
  {
    var id := s.down[c][0];
    var s' := s.(down := s.down[c := s.down[c][1..]]);
    if id in s.streams then Put(s', id, s.streams[id].(known := true, script := script, rest := script)) else s'
  }

  /** A job sends its next frame. */
  function Push(s: State, id: u64): State
    requires id in s.streams && s.streams[id].rest != [] && s.streams[id].conn in s.up
  {
    var st := s.streams[id];
    var f := st.rest[0];
    Put(s.(up := s.up[st.conn := s.up[st.conn] + [f]]), id, st.(rest := st.rest[1..], sent := st.sent + [f]))
  }

  /** A job's next frame finds the connection gone. */
  function Lose(s: State, id: u64): State
    requires id in s.streams && s.streams[id].rest != []
  {
    Put(s, id, s.streams[id].(rest := s.streams[id].rest[1..]))
  }

  function Apply(s: State, e: Event): State
    requires Enabled(s, e)
  {
    match e
    case Open => s.(conns := s.conns + 1, writing := s.writing + {s.conns}, down := s.down[s.conns := []], up := s.up[s.conns := []])
    case Register(c) => s.(clients := s.clients + {c})
    case ClientLost(c) => s.(down := s.down - {c})
    case WriterEnds(c, n) => s.(writing := s.writing - {c}, down := if c in s.down then s.down[c := s.down[c][..n]] else s.down)
    case ServerClose(c) => s.(clients := s.clients - {c}, writing := s.writing - {c}, up := s.up - {c})
    case Arrive(c) =>
      s.(next := s.next + 1,
         streams := s.streams[s.next + 1 := Stream(c, Allocated, false, false, [], [], [], [], [], [])])
    case Insert(id) => Put(s, id, s.streams[id].(stage := Inserted, pending := true))
    case SendOpen(id) =>
      var st := s.streams[id];
      if st.conn !in s.clients || st.conn !in s.writing then Put(s, id, st.(stage := Giving(Offline)))
      else Put(if st.conn in s.down then s.(down := s.down[st.conn := s.down[st.conn] + [id]]) else s, id, st.(stage := Waiting))
    case Recv(id) => Put(s, id, Read(s.streams[id]))
    case RecvNone(id) =>
      var st := s.streams[id];
      Put(s, id, st.(stage := if st.stage.Waiting? then Giving(ClosedEarly) else Finished(Ok(st.stage.head, st.stage.body))))
    case Timeout(id) => Put(s, id, s.streams[id].(stage := Giving(TimedOut)))
    case GiveUp(id) => Put(s, id, s.streams[id].(stage := Finished(s.streams[id].stage.result), pending := false))
    case VisitorGone(id) => Put(s, id, s.streams[id].(stage := Gone))
    case Skip(c) => s.(down := s.down[c := s.down[c][1..]])
    case Dispatch(c, script) => Start(s, c, script)
    case Emit(id) => if s.streams[id].conn in s.down && s.streams[id].conn in s.up then Push(s, id) else Lose(s, id)
    case Handle(c) => Route(s, c)
    case Take(c) =>
      var id := s.taking[c];
      var s' := s.(taking := s.taking - {c});
      if id in s.streams then Put(s', id, s.streams[id].(pending := false)) else s'
  }

  /** One step; an event that cannot happen changes nothing. */
  function Step(s: State, e: Event): State { if Enabled(s, e) then Apply(s, e) else s }

  function Exec(es: seq<Event>): State {
    if es == [] then INIT else Step(Exec(es[..|es| - 1]), es[|es| - 1])
  }
}
