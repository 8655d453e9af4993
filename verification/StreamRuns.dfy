/** What holds in every state that visitors, connections and worker jobs can reach. */
module StreamRuns {
  import opened Bytes
  import opened Wire
  import opened Protocol
  import opened HttpStream
  import opened Streams
  import WireTheorems

  // ---- sequences of frames ----

  lemma {:induction false} SiftAppend(a: seq<Frame>, b: seq<Frame>)
    ensures Sift(a + b) == Sift(a) + Sift(b)
    decreases |b|
  {
    hide Readable;
    if b == [] {
      assert a + b == a;
    } else {
      var k := |b| - 1;
      SiftAppend(a, b[..k]);
      assert (a + b)[..|a| + k] == a + b[..k];
    }
  }

  lemma {:induction false} SiftPrefix(a: seq<Frame>, b: seq<Frame>)
    requires a <= b
    ensures Sift(a) <= Sift(b)
  {
    hide Sift;
    SiftAppend(a, b[|a|..]);
    assert a + b[|a|..] == b;
  }

  lemma {:induction false} SiftIn(fs: seq<Frame>, i: nat)
    requires i < |Sift(fs)|
    ensures exists k :: 0 <= k < |fs| && fs[k] == Sift(fs)[i] && Readable(fs[k])
    decreases |fs|
  {
    hide Readable;
    var n := |fs| - 1;
    if i < |Sift(fs[..n])| {
      SiftIn(fs[..n], i);
      var k :| 0 <= k < n && fs[..n][k] == Sift(fs[..n])[i] && Readable(fs[..n][k]);
      assert fs[k] == Sift(fs)[i];
    } else {
      assert fs[n] == Sift(fs)[i];
    }
  }

  lemma {:induction false} SiftFirst(fs: seq<Frame>)
    requires fs != [] && Readable(fs[0])
    ensures Sift(fs) != [] && Sift(fs)[0] == fs[0]
    decreases |fs|
  {
    hide Readable;
    if |fs| > 1 {
      SiftFirst(fs[..|fs| - 1]);
    } else {
      assert fs[..0] == [];
    }
  }

  lemma {:induction false} SiftSnoc(fs: seq<Frame>, f: Frame)
    ensures Sift(fs + [f]) == if Readable(f) then Sift(fs) + [f] else Sift(fs)
  {
    hide Readable;
    assert (fs + [f])[..|fs|] == fs && Sift(fs) + [] == Sift(fs);
  }

  lemma {:induction false} SiftLast(fs: seq<Frame>)
    requires fs != [] && Readable(fs[|fs| - 1])
    ensures Sift(fs) != [] && Sift(fs)[|Sift(fs)| - 1] == fs[|fs| - 1]
  {
    hide Readable;
  }

  /** Chunks can always be decoded, so no body byte is lost. */
  lemma {:induction false} SiftData(fs: seq<Frame>)
    ensures DataOf(Sift(fs)) == DataOf(fs)
    decreases |fs|
  {
    hide Readable;
    if fs != [] {
      var n := |fs| - 1;
      SiftData(fs[..n]);
      ChunkReadable(fs[n]);
      DataSnoc(Sift(fs[..n]), fs[n]);
      assert Sift(fs[..n]) + [] == Sift(fs[..n]);
    }
  }

  lemma {:induction false} ChunkReadable(f: Frame)
    ensures f.Chunk? || f.End? ==> Readable(f)
  {
  }

  lemma {:induction false} OnlyAppend(q: seq<Frame>, f: Frame, id: u64)
    ensures Only(q + [f], id) == Only(q, id) + if Sid(f) == id then [f] else []
    decreases |q|
  {
    hide Sid;
    if q == [] {
      assert [f][1..] == [];
    } else {
      OnlyAppend(q[1..], f, id);
      var first, last := if Sid(q[0]) == id then [q[0]] else [], if Sid(f) == id then [f] else [];
      assert (q + [f])[1..] == q[1..] + [f] && (q + [f])[0] == q[0];
      assert first + (Only(q[1..], id) + last) == first + Only(q[1..], id) + last;
    }
  }

  // ---- shaped scripts ----

  /** A head and an abort never stand in the same script, and an end only at its end. */
  lemma {:induction false} ShapeFacts(fs: seq<Frame>, id: u64, r: seq<Frame>)
    requires Shaped(fs, id) && r <= Sift(fs) && r != []
    ensures forall i :: 0 <= i < |r| ==> r[i] in fs && Sid(r[i]) == id
    ensures forall i :: 0 <= i < |r| ==> r[i].ResponseHead? || r[i].Chunk? || r[i].End? || r[i].Abort?
    ensures r[|r| - 1].End? ==> r == Sift(fs)
    ensures r[0].ResponseHead? ==> r[0] == fs[0] && forall i :: 0 <= i < |r| ==> !r[i].Abort?
    ensures r[0].Abort? ==> fs == [r[0]] && r == fs
  {
    hide Readable;
    forall i | 0 <= i < |r| ensures r[i] in fs { SiftIn(fs, i); }
    var n := |fs| - 1;
    var front := Sift(fs[..n]);
    if r[|r| - 1].End? && |r| <= |front| {
      SiftIn(fs[..n], |r| - 1);
    }
    if r[0].Abort? {
      assert |fs| == 1;
      assert fs[..0] == [];
    }
  }

  // ---- the invariant ----

  function Q(s: State, c: Conn, id: u64): seq<Frame> { if c in s.up then Only(s.up[c], id) else [] }

  /** The server has handled the whole script, its last frame included. */
  predicate Ended(st: Stream) {
    st.known && st.script != [] && st.handled == st.script && Readable(st.script[|st.script| - 1])
  }

  /** What the visitor has read agrees with how far it is. */
  predicate StageOk(id: u64, st: Stream) {
    match st.stage
    case Allocated => !st.known && !st.pending && st.received == []
    case Inserted => !st.known && st.pending && st.received == []
    case Waiting => st.received == []
    case Streaming(h, b) =>
      st.received != [] && st.received[0] == h && h.ResponseHead? && b == DataOf(st.received)
      && forall i :: 0 <= i < |st.received| ==> !Terminal(st.received[i])
    case Giving(r) => ResultOk(id, r, st.received)
    case Finished(r) => ResultOk(id, r, st.received)
    case Gone => true
  }

  predicate ResultOk(id: u64, r: Result, got: seq<Frame>) {
    match r
    case Offline => got == []
    case TimedOut => got == []
    case ClosedEarly => false
    case Failed(reason) => got == [Abort(id, reason)]
    case NoHead => |got| == 1 && (got[0].End? || got[0].Chunk?)
    case Ok(h, b) => |got| > 1 && got[0] == h && h.ResponseHead? && got[|got| - 1].End? && b == DataOf(got)
    case CutOff(_, _) => false
  }

  /** `q` are the frames of the stream on the wire; the server (`srv`) and the client (`cli`)
      still read the connection. */
  predicate FlowOk(id: u64, st: Stream, q: seq<Frame>, srv: bool, cli: bool) {
    && (if st.known then Shaped(st.script, id) else st.script == [] && st.rest == [])
    && st.sent <= st.script && (srv && cli ==> st.sent + st.rest == st.script)
    && (if srv then st.handled + q == st.sent else st.handled <= st.sent)
  }

  predicate ChannelOk(st: Stream) {
    && st.received + st.chan <= Sift(st.handled)
    && (st.pending || Reading(st) ==> st.received + st.chan == Sift(st.handled))
    && (Reading(st) && !st.pending ==> Ended(st))
  }

  predicate StreamOk(s: State, id: u64)
    requires id in s.streams
  {
    var st := s.streams[id];
    FlowOk(id, st, Q(s, st.conn, id), st.conn in s.up, st.conn in s.down) && ChannelOk(st) && StageOk(id, st)
  }

  predicate OpenedOn(s: State, id: u64, c: Conn) { id in s.streams && s.streams[id].conn == c }

  ghost predicate UpOk(s: State) {
    forall c, i :: c in s.up && 0 <= i < |s.up[c]| ==> OpenedOn(s, Sid(s.up[c][i]), c)
  }

  predicate Fresh(s: State, id: u64, c: Conn) {
    OpenedOn(s, id, c) && !s.streams[id].known && !s.streams[id].stage.Allocated? && !s.streams[id].stage.Inserted?
  }

  ghost predicate DownOk(s: State) {
    && (forall c, i :: c in s.down && 0 <= i < |s.down[c]| ==> Fresh(s, s.down[c][i], c))
    && (forall c, i, j :: c in s.down && 0 <= i < j < |s.down[c]| ==> s.down[c][i] != s.down[c][j])
  }

  ghost predicate TakingOk(s: State) {
    forall c :: c in s.taking ==> OpenedOn(s, s.taking[c], c) && Ended(s.streams[s.taking[c]])
  }

  ghost predicate NumbersOk(s: State) {
    && (forall id :: id in s.streams ==> 0 < id <= s.next && s.streams[id].conn < s.conns)
    && (forall c :: c in s.up || c in s.down || c in s.taking ==> c < s.conns)
    && s.next < 0x1_0000_0000_0000_0000
  }

  ghost predicate Inv(s: State) {
    NumbersOk(s) && UpOk(s) && DownOk(s) && TakingOk(s) && forall id :: id in s.streams ==> StreamOk(s, id)
  }

  // ---- steps that touch one stream and no queue ----

  /** The stream's flow is untouched; what was due to happen to it stays due. */
  predicate SameFlow(st: Stream, st': Stream) {
    && st'.conn == st.conn && st'.known == st.known && st'.script == st.script && st'.rest == st.rest
    && st'.sent == st.sent && st'.handled == st.handled
    && (!st.stage.Allocated? && !st.stage.Inserted? ==> !st'.stage.Allocated? && !st'.stage.Inserted?)
  }

  lemma {:induction false} FlowSame(id: u64, st: Stream, st': Stream, q: seq<Frame>, srv: bool, cli: bool)
    requires SameFlow(st, st')
    ensures FlowOk(id, st, q, srv, cli) ==> FlowOk(id, st', q, srv, cli)
    ensures Ended(st) ==> Ended(st')
    ensures st'.conn == st.conn && st'.known == st.known
    ensures !st.stage.Allocated? && !st.stage.Inserted? ==> !st'.stage.Allocated? && !st'.stage.Inserted?
  {
    hide Shaped, Readable;
  }

  lemma {:induction false} PutOne(s: State, id: u64, st': Stream)
    requires Inv(s) && id in s.streams
    requires st'.conn == s.streams[id].conn && st'.known == s.streams[id].known && (Ended(s.streams[id]) ==> Ended(st'))
    requires !s.streams[id].stage.Allocated? && !s.streams[id].stage.Inserted? ==> !st'.stage.Allocated? && !st'.stage.Inserted?
    requires FlowOk(id, st', Q(s, st'.conn, id), st'.conn in s.up, st'.conn in s.down) && ChannelOk(st')
        && StageOk(id, st')
    ensures Inv(Put(s, id, st'))
  {
    hide ChannelOk, StageOk, Only, FlowOk, Ended;
    var t := Put(s, id, st');
    forall k | k in t.streams ensures StreamOk(t, k) {
      assert StreamOk(s, k);
    }
  }

  lemma {:induction false} PutKeeps(s: State, id: u64, st': Stream)
    requires Inv(s) && id in s.streams && SameFlow(s.streams[id], st') && ChannelOk(st') && StageOk(id, st')
    ensures Inv(Put(s, id, st'))
  {
    hide ChannelOk, StageOk, Only, FlowOk, Ended, SameFlow, UpOk, DownOk, TakingOk;
    assert StreamOk(s, id);
    FlowSame(id, s.streams[id], st', Q(s, st'.conn, id), st'.conn in s.up, st'.conn in s.down);
    PutOne(s, id, st');
  }

  lemma {:induction false} InsertKeeps(s: State, id: u64)
    requires Inv(s) && Enabled(s, Insert(id))
    ensures Inv(Step(s, Insert(id)))
  {
    hide Inv;
    var st := s.streams[id];
    StreamAt(s, id);
    assert st.received + st.chan == Sift(st.handled);
    PutKeeps(s, id, st.(stage := Inserted, pending := true));
  }

  lemma {:induction false} StreamAt(s: State, id: u64)
    requires Inv(s) && id in s.streams
    ensures StreamOk(s, id) && 0 < id <= s.next
    ensures !s.streams[id].known ==> s.streams[id].sent == [] && s.streams[id].handled == []
    ensures Sift([]) == []
    ensures s.streams[id].handled <= s.streams[id].script
    ensures Sift(s.streams[id].handled) <= Sift(s.streams[id].script)
  {
    hide ChannelOk, StageOk, Shaped, Only, Sift;
    var st := s.streams[id];
    SiftPrefix(st.handled, st.script);
    NoSift();
  }

  lemma {:induction false} NoSift()
    ensures Sift([]) == []
  {
  }

  lemma {:induction false} RecvKeeps(s: State, id: u64)
    requires Inv(s) && Enabled(s, Recv(id))
    ensures Inv(Step(s, Recv(id)))
  {
    hide Inv, StageOk, ChannelOk, SameFlow, FlowOk, Read;
    StreamAt(s, id);
    KnownIfRead(s, id);
    var st := s.streams[id];
    ReadKeepsFlow(st);
    ReadKeepsStage(id, st);
    PutKeeps(s, id, Read(st));
  }

  lemma {:induction false} ReadKeepsFlow(st: Stream)
    requires Reading(st) && st.chan != [] && ChannelOk(st)
    ensures SameFlow(st, Read(st)) && ChannelOk(Read(st))
  {
    hide Sift, Readable, Terminal;
    assert st.received + [st.chan[0]] + st.chan[1..] == st.received + st.chan;
  }

  lemma {:induction false} ReadKeepsStage(id: u64, st: Stream)
    requires Reading(st) && st.chan != [] && StageOk(id, st)
    requires Shaped(st.script, id) && st.received + st.chan <= Sift(st.script)
    ensures StageOk(id, Read(st))
  {
    hide DataOf, Shaped, Sift, StageOk, Read;
    var r := st.received + [st.chan[0]];
    assert r + st.chan[1..] == st.received + st.chan;
    ShapeFacts(st.script, id, r);
    DataSnoc(st.received, st.chan[0]);
    assert (st.received != [] ==> r[0] == st.received[0]) && r[|st.received|] == st.chan[0];
    if st.stage.Waiting? { FirstRead(id, st, Read(st)); } else { LaterRead(id, st); }
  }

  lemma {:induction false} FirstRead(id: u64, st: Stream, st': Stream)
    requires st.stage.Waiting? && st.chan != [] && StageOk(id, st) && st' == Read(st)
    requires var f := st.chan[0]; Sid(f) == id && (f.ResponseHead? || f.Chunk? || f.End? || f.Abort?)
    ensures StageOk(id, st')
  {
    hide DataOf;
    DataSnoc([], st.chan[0]);
    assert [] + [st.chan[0]] == [st.chan[0]] == st'.received;
    NoData();
  }

  lemma {:induction false} NoData()
    ensures DataOf([]) == []
  {
  }

  lemma {:induction false} LaterRead(id: u64, st: Stream)
    requires st.stage.Streaming? && st.chan != [] && StageOk(id, st)
    requires var f := st.chan[0]; f.ResponseHead? || f.Chunk? || f.End? || f.Abort?
    requires st.received != [] && st.received[0].ResponseHead? ==> !st.chan[0].Abort?
    ensures StageOk(id, Read(st))
  {
    hide DataOf;
    DataSnoc(st.received, st.chan[0]);
  }

  lemma {:induction false} DataSnoc(fs: seq<Frame>, f: Frame)
    ensures DataOf(fs + [f]) == DataOf(fs) + (if f.Chunk? then f.data else [])
    ensures DataOf([]) == []
  {
    assert (fs + [f])[..|fs|] == fs;
  }

  /** Nothing can be in a channel before the stream was opened. */
  lemma {:induction false} KnownIfRead(s: State, id: u64)
    requires Inv(s) && id in s.streams && s.streams[id].received + s.streams[id].chan != []
    ensures s.streams[id].known && Shaped(s.streams[id].script, id)
    ensures s.streams[id].received + s.streams[id].chan <= Sift(s.streams[id].script)
  {
    hide Inv, Shaped, Sift, StageOk;
    StreamAt(s, id);
  }

  /** A visitor that still reads never finds its channel closed: the server gives a channel up
      only after an end or an abort went into it, and that is the last thing the visitor reads. */
  lemma {:induction false} NeverClosedEarly(s: State, id: u64)
    requires Inv(s)
    ensures !Enabled(s, RecvNone(id))
  {
    hide Inv, DataOf, Readable;
    if Enabled(s, RecvNone(id)) {
      StreamAt(s, id);
      var st := s.streams[id];
      assert st.received == Sift(st.script) by { assert st.received + [] == st.received; }
      SiftLast(st.script);
    }
  }

  lemma {:induction false} StopKeeps(s: State, e: Event)
    requires Inv(s) && Enabled(s, e) && (e.Timeout? || e.GiveUp? || e.VisitorGone?)
    ensures Inv(Step(s, e))
  {
    hide Inv, DataOf, Readable, FlowOk, Sift;
    var st := s.streams[e.id];
    StreamAt(s, e.id);
    match e
    case Timeout(id) => PutKeeps(s, id, st.(stage := Giving(TimedOut)));
    case GiveUp(id) => PutKeeps(s, id, st.(stage := Finished(st.stage.result), pending := false));
    case VisitorGone(id) => PutKeeps(s, id, st.(stage := Gone));
  }

  // ---- connections come and go ----

  lemma {:induction false} OpenKeeps(s: State)
    requires Inv(s)
    ensures Inv(Step(s, Open))
  {
    hide ChannelOk, StageOk, FlowOk, Only, Ended;
    var t := Step(s, Open);
    forall k | k in t.streams ensures StreamOk(t, k) { assert StreamOk(s, k); }
  }

  lemma {:induction false} LostKeeps(s: State, c: Conn)
    requires Inv(s) && c in s.down
    ensures Inv(Step(s, ClientLost(c)))
  {
    hide ChannelOk, StageOk, Only, Ended, Shaped;
    var t := Step(s, ClientLost(c));
    forall k | k in t.streams ensures StreamOk(t, k) { assert StreamOk(s, k); }
  }

  lemma {:induction false} CloseKeeps(s: State, c: Conn)
    requires Inv(s) && c in s.up && c !in s.taking
    ensures Inv(Step(s, ServerClose(c)))
  {
    hide ChannelOk, StageOk, Only, Ended, Shaped;
    var t := Step(s, ServerClose(c));
    forall k | k in t.streams ensures StreamOk(t, k) { assert StreamOk(s, k); }
  }

  /** Open_streams vanish from a connection: its writer task ends, or the client cannot decode one. */
  lemma {:induction false} FewerOpens(s: State, c: Conn, i: nat, n: nat, writing: set<Conn>)
    requires Inv(s) && c in s.down && i <= n <= |s.down[c]|
    ensures Inv(s.(writing := writing, down := s.down[c := s.down[c][i..n]]))
  {
    hide ChannelOk, StageOk, FlowOk, Only, Ended;
    var t := s.(writing := writing, down := s.down[c := s.down[c][i..n]]);
    forall k | k in t.streams ensures StreamOk(t, k) { assert StreamOk(s, k); }
  }

  lemma {:induction false} FewerWriters(s: State, writing: set<Conn>)
    requires Inv(s)
    ensures Inv(s.(writing := writing))
  {
    hide ChannelOk, StageOk, FlowOk, Only, Ended;
    var t := s.(writing := writing);
    forall k | k in t.streams ensures StreamOk(t, k) { assert StreamOk(s, k); }
  }

  lemma {:induction false} OpensKeep(s: State, e: Event)
    requires Inv(s) && Enabled(s, e) && (e.WriterEnds? || e.Skip?)
    ensures Inv(Step(s, e))
  {
    hide Inv;
    match e
    case WriterEnds(c, n) =>
      if c in s.down {
        FewerOpens(s, c, 0, n, s.writing - {c});
        assert s.down[c][0..n] == s.down[c][..n];
      } else {
        FewerWriters(s, s.writing - {c});
      }
    case Skip(c) =>
      FewerOpens(s, c, 1, |s.down[c]|, s.writing);
      assert s.down[c][1..|s.down[c]|] == s.down[c][1..];
  }

  lemma {:induction false} OnlyNone(q: seq<Frame>, id: u64)
    requires forall i :: 0 <= i < |q| ==> Sid(q[i]) != id
    ensures Only(q, id) == []
    decreases |q|
  {
    hide Sid;
    if q != [] { OnlyNone(q[1..], id); }
  }

  lemma {:induction false} ArriveKeeps(s: State, c: Conn)
    requires Inv(s) && Enabled(s, Arrive(c))
    ensures Inv(Step(s, Arrive(c)))
  {
    hide ChannelOk, StageOk, FlowOk, Only, Ended, Sid;
    var t := Step(s, Arrive(c));
    var id := s.next + 1;
    NewStream(id, c, c in s.up, c in s.down);
    if c in s.up { OnlyNone(s.up[c], id); }
    forall k | k in t.streams ensures StreamOk(t, k) { assert k != id ==> StreamOk(s, k); }
  }

  lemma {:induction false} NewStream(id: u64, c: Conn, srv: bool, cli: bool)
    ensures var st := Stream(c, Allocated, false, false, [], [], [], [], [], []);
      FlowOk(id, st, [], srv, cli) && ChannelOk(st) && StageOk(id, st)
  {
  }

  // ---- steps that move something through a queue ----

  /** One stream changes; for the others the wire looks as before. */
  ghost predicate Beside(s: State, t: State, id: u64) {
    && id in s.streams && t.streams.Keys == s.streams.Keys && t.next == s.next && t.conns == s.conns
    && t.up.Keys == s.up.Keys && t.down.Keys == s.down.Keys
    && t.streams[id].conn == s.streams[id].conn
    && forall k :: k in s.streams && k != id ==> t.streams[k] == s.streams[k] && Q(t, s.streams[k].conn, k) == Q(s, s.streams[k].conn, k)
  }

  lemma {:induction false} BesideKeeps(s: State, t: State, id: u64)
    requires Inv(s) && Beside(s, t, id) && StreamOk(t, id) && UpOk(t) && DownOk(t) && TakingOk(t)
    requires t.taking.Keys <= s.up.Keys + s.taking.Keys
    ensures Inv(t)
  {
    hide ChannelOk, StageOk, FlowOk, Q, UpOk, DownOk, TakingOk;
    forall k | k in t.streams && k != id ensures StreamOk(t, k) { assert StreamOk(s, k); }
  }

  lemma {:induction false} SendOpenKeeps(s: State, id: u64)
    requires Inv(s) && Enabled(s, SendOpen(id))
    ensures Inv(Step(s, SendOpen(id)))
  {
    hide Inv, Only, Sift, Readable, Shaped;
    StreamAt(s, id);
    var st := s.streams[id];
    if st.conn !in s.clients || st.conn !in s.writing {
      PutKeeps(s, id, st.(stage := Giving(Offline)));
    } else {
      var u := st.(stage := Waiting);
      PutKeeps(s, id, u);
      if st.conn in s.down { OpenGoes(Put(s, id, u), id, s); }
    }
  }

  lemma {:induction false} OpenGoes(p: State, id: u64, s: State)
    requires Inv(p) && Inv(s) && id in p.streams && id in s.streams && s.down == p.down && s.streams[id].stage.Inserted?
    requires Fresh(p, id, p.streams[id].conn) && p.streams[id].conn in p.down
        && p.streams[id].conn == s.streams[id].conn
    ensures Inv(p.(down := p.down[p.streams[id].conn := p.down[p.streams[id].conn] + [id]]))
  {
    hide ChannelOk, StageOk, FlowOk, Only, Ended;
    var c := p.streams[id].conn;
    var t := p.(down := p.down[c := p.down[c] + [id]]);
    forall i | 0 <= i < |p.down[c]| ensures p.down[c][i] != id { assert Fresh(s, s.down[c][i], c); }
    forall k | k in t.streams ensures StreamOk(t, k) { assert StreamOk(p, k); }
  }

  lemma {:induction false} Started(id: u64, st: Stream, script: seq<Frame>, q: seq<Frame>, srv: bool, cli: bool)
    requires FlowOk(id, st, q, srv, cli) && ChannelOk(st) && StageOk(id, st) && Shaped(script, id)
    requires !st.known && !st.stage.Allocated? && !st.stage.Inserted?
    ensures var u := st.(known := true, script := script, rest := script);
      FlowOk(id, u, q, srv, cli) && ChannelOk(u) && StageOk(id, u)
  {
    hide Sift, Shaped, Readable, DataOf;
  }

  lemma {:induction false} StartBeside(s: State, c: Conn, script: seq<Frame>)
    requires Inv(s) && c in s.down && s.down[c] != []
    ensures var t, id := Start(s, c, script), s.down[c][0];
      Fresh(s, id, c) && Beside(s, t, id) && UpOk(t) && DownOk(t) && TakingOk(t)
  {
    hide StreamOk, Only, Readable;
    assert Fresh(s, s.down[c][0], c);
  }

  lemma {:induction false} DispatchKeeps(s: State, c: Conn, script: seq<Frame>)
    requires Inv(s) && Enabled(s, Dispatch(c, script))
    ensures Inv(Step(s, Dispatch(c, script)))
  {
    hide ChannelOk, StageOk, FlowOk, Only, Shaped, UpOk, DownOk, TakingOk, Beside;
    var id := s.down[c][0];
    StartBeside(s, c, script);
    assert StreamOk(s, id);
    Started(id, s.streams[id], script, Q(s, c, id), c in s.up, c in s.down);
    BesideKeeps(s, Start(s, c, script), id);
  }

  lemma {:induction false} KnownEnded(st: Stream)
    ensures Ended(st) ==> st.known
  {
  }

  lemma {:induction false} Emitted(id: u64, st: Stream, q: seq<Frame>)
    requires FlowOk(id, st, q, true, true) && st.rest != []
    ensures Sid(st.rest[0]) == id
    ensures FlowOk(id, st.(rest := st.rest[1..], sent := st.sent + [st.rest[0]]), q + [st.rest[0]], true, true)
  {
    var f := st.rest[0];
    assert f == st.script[|st.sent|];
  }

  lemma {:induction false} EmitKeeps(s: State, id: u64)
    requires Inv(s) && Enabled(s, Emit(id))
    ensures Inv(Step(s, Emit(id)))
  {
    hide ChannelOk, StageOk, FlowOk, Only, Ended;
    var st := s.streams[id];
    assert StreamOk(s, id);
    if st.conn in s.down && st.conn in s.up { EmitGoes(s, id); } else { EmitLost(s, id); }
  }

  lemma {:induction false} PushBeside(s: State, id: u64)
    requires UpOk(s) && DownOk(s) && id in s.streams && s.streams[id].rest != [] && s.streams[id].conn in s.up
    requires Sid(s.streams[id].rest[0]) == id
    ensures var t := Push(s, id);
      Beside(s, t, id) && Q(t, s.streams[id].conn, id) == Q(s, s.streams[id].conn, id) + [s.streams[id].rest[0]]
      && UpOk(t) && DownOk(t)
  {
    hide StreamOk, TakingOk, Only, Ended, Sid;
    var t := Push(s, id);
    var c, f := s.streams[id].conn, s.streams[id].rest[0];
    forall k | k in s.streams ensures Q(t, c, k) == (if k == id then Q(s, c, k) + [f] else Q(s, c, k)) {
      OnlyAppend(s.up[c], f, k);
      assert Q(s, c, k) + [] == Q(s, c, k);
    }
  }

  lemma {:induction false} EmitGoes(s: State, id: u64)
    requires Inv(s) && Enabled(s, Emit(id)) && s.streams[id].conn in s.down && s.streams[id].conn in s.up
    ensures Inv(Step(s, Emit(id)))
  {
    hide ChannelOk, StageOk, FlowOk, Q, Ended, Sid, UpOk, DownOk, Beside;
    var st := s.streams[id];
    assert StreamOk(s, id);
    var t := Push(s, id);
    Emitted(id, st, Q(s, st.conn, id));
    PushBeside(s, id);
    SameRest(id, st, t.streams[id]);
    BesideKeeps(s, t, id);
  }

  lemma {:induction false} EmitLost(s: State, id: u64)
    requires Inv(s) && Enabled(s, Emit(id)) && !(s.streams[id].conn in s.down && s.streams[id].conn in s.up)
    ensures Inv(Step(s, Emit(id)))
  {
    hide ChannelOk, StageOk, Only, Ended, Shaped, Sid, UpOk, DownOk, TakingOk;
    assert StreamOk(s, id);
    var st := s.streams[id];
    var u := st.(rest := st.rest[1..]);
    SameRest(id, st, u);
    PutOne(s, id, u);
  }

  lemma {:induction false} SameRest(id: u64, st: Stream, u: Stream)
    requires u.stage == st.stage && u.received == st.received && u.known == st.known && u.pending == st.pending
    requires u.chan == st.chan && u.handled == st.handled && u.script == st.script
    ensures (StageOk(id, st) ==> StageOk(id, u)) && (ChannelOk(st) ==> ChannelOk(u)) && Ended(st) == Ended(u)
  {
    hide Sift, Readable, DataOf;
  }

  // ---- the server handles a frame ----

  lemma {:induction false} TakenOff(id: u64, st: Stream, q: seq<Frame>, f: Frame, cli: bool)
    requires FlowOk(id, st, [f] + q, true, cli)
    ensures st.known && st.handled + [f] <= st.script
    ensures FlowOk(id, st.(handled := st.handled + [f]), q, true, cli)
    ensures Readable(f) && Terminal(f) ==> Ended(st.(handled := st.handled + [f]))
  {
    hide Readable;
    var h := st.handled + [f];
    assert st.handled + ([f] + q) == h + q;
    assert h[|h| - 1] == f && f == st.script[|st.handled|];
  }

  lemma {:induction false} RoutedTo(id: u64, st: Stream, f: Frame)
    requires ChannelOk(st) && st.known && st.handled + [f] <= st.script
    ensures var u := st.(handled := st.handled + [f]);
      ChannelOk(if st.pending && Readable(f) then u.(chan := u.chan + [f]) else u)
  {
    hide Readable, Sift;
    SiftSnoc(st.handled, f);
    assert st.received + (st.chan + [f]) == st.received + st.chan + [f];
    assert Reading(st) ==> st.pending;
  }

  lemma {:induction false} HandleKeeps(s: State, c: Conn)
    requires Inv(s) && Enabled(s, Handle(c))
    ensures Inv(Step(s, Handle(c)))
  {
    hide StreamOk, UpOk, DownOk, TakingOk, Beside, Inv, Route;
    HandleStream(s, c);
    HandleOthers(s, c);
    var t := Step(s, Handle(c));
    assert t.taking.Keys <= s.up.Keys + s.taking.Keys by { HandleTaking(s, c); }
    BesideKeeps(s, t, Sid(s.up[c][0]));
  }

  lemma {:induction false} HandleTaking(s: State, c: Conn)
    requires c in s.up && s.up[c] != []
    ensures Route(s, c).taking.Keys <= s.up.Keys + s.taking.Keys
  {
  }

  lemma {:induction false} HandleStream(s: State, c: Conn)
    requires Inv(s) && Enabled(s, Handle(c))
    ensures var t, id := Route(s, c), Sid(s.up[c][0]);
      id in t.streams && StreamOk(t, id) && t.streams[id].known
      && (Readable(s.up[c][0]) && Terminal(s.up[c][0]) ==> Ended(t.streams[id]))
  {
    hide ChannelOk, StageOk, FlowOk, Only, Ended, Sid, Readable, Terminal;
    var f := s.up[c][0];
    var id := Sid(f);
    assert OpenedOn(s, id, c) && StreamOk(s, id);
    var st := s.streams[id];
    var t := Route(s, c);
    OnlyHead(s.up[c], id);
    TakenOff(id, st, Q(t, c, id), f, c in s.down);
    RoutedTo(id, st, f);
    var u := t.streams[id];
    SameStage(id, st, u);
    SameFlowOn(id, st.(handled := st.handled + [f]), u, Q(t, c, id), c in s.up, c in s.down);
  }

  lemma {:induction false} HandleBeside(s: State, c: Conn)
    requires Inv(s) && Enabled(s, Handle(c))
    ensures var t, id := Route(s, c), Sid(s.up[c][0]);
      && Beside(s, t, id) && t.streams[id].stage == s.streams[id].stage
      && t.streams[id].known == s.streams[id].known && t.down == s.down && OpenedOn(s, id, c)
      && t.up == s.up[c := s.up[c][1..]]
      && t.taking == if Readable(s.up[c][0]) && Terminal(s.up[c][0]) then s.taking[c := id] else s.taking
  {
    hide StreamOk, Only, Ended, Sid, Readable, Terminal, DownOk, TakingOk;
    var id := Sid(s.up[c][0]);
    assert OpenedOn(s, id, c);
    var t := Route(s, c);
    forall k | k in s.streams && k != id ensures Q(t, c, k) == Q(s, c, k) { OnlyHead(s.up[c], k); }
  }

  lemma {:induction false} HandleOthers(s: State, c: Conn)
    requires Inv(s) && Enabled(s, Handle(c))
    requires var t, id := Route(s, c), Sid(s.up[c][0]);
      id in t.streams && (Readable(s.up[c][0]) && Terminal(s.up[c][0]) ==> Ended(t.streams[id]))
    ensures var t := Route(s, c); Beside(s, t, Sid(s.up[c][0])) && UpOk(t) && DownOk(t) && TakingOk(t)
  {
    hide StreamOk, Only, Ended, Sid, Readable, Terminal, Route, Q;
    HandleBeside(s, c);
    var t := Route(s, c);
    assert UpOk(t);
    assert DownOk(t);
  }

  lemma {:induction false} OnlyHead(q: seq<Frame>, id: u64)
    requires q != []
    ensures Only(q, id) == (if Sid(q[0]) == id then [q[0]] else []) + Only(q[1..], id)
    ensures Sid(q[0]) != id ==> Only(q, id) == Only(q[1..], id)
  {
  }

  lemma {:induction false} SameFlowOn(id: u64, st: Stream, u: Stream, q: seq<Frame>, srv: bool, cli: bool)
    requires u == st.(chan := u.chan)
    ensures FlowOk(id, st, q, srv, cli) == FlowOk(id, u, q, srv, cli) && Ended(u) == Ended(st)
  {
    hide Shaped, Readable;
  }

  lemma {:induction false} TakeKeeps(s: State, c: Conn)
    requires Inv(s) && c in s.taking
    ensures Inv(Step(s, Take(c)))
  {
    hide StageOk, FlowOk, Only, ChannelOk, Ended, UpOk, DownOk;
    var id := s.taking[c];
    assert OpenedOn(s, id, c) && StreamOk(s, id);
    var st := s.streams[id];
    KnownEnded(st);
    TakenStage(id, st);
    TakenFlow(id, st, Q(s, c, id), c in s.up, c in s.down);
    PutOne(s, id, st.(pending := false));
    Taken(Put(s, id, st.(pending := false)), c);
  }

  lemma {:induction false} Taken(s: State, c: Conn)
    requires Inv(s)
    ensures Inv(s.(taking := s.taking - {c}))
  {
    hide StageOk, FlowOk, Only, ChannelOk, Ended;
    forall k | k in s.streams ensures StreamOk(s.(taking := s.taking - {c}), k) { assert StreamOk(s, k); }
  }

  lemma {:induction false} TakenStage(id: u64, st: Stream)
    requires st.known && StageOk(id, st)
    ensures StageOk(id, st.(pending := false))
  {
  }

  lemma {:induction false} TakenFlow(id: u64, st: Stream, q: seq<Frame>, srv: bool, cli: bool)
    ensures FlowOk(id, st, q, srv, cli) ==> FlowOk(id, st.(pending := false), q, srv, cli)
    ensures Ended(st) ==> Ended(st.(pending := false))
    ensures Ended(st) && ChannelOk(st) ==> ChannelOk(st.(pending := false))
  {
    hide Shaped, Readable, Sift;
  }

  lemma {:induction false} SameStage(id: u64, st: Stream, u: Stream)
    requires u.stage == st.stage && u.received == st.received && u.known == st.known && u.pending == st.pending
    ensures StageOk(id, st) ==> StageOk(id, u)
  {
  }

  // ---- over whole runs ----

  lemma {:induction false} StepKeeps(s: State, e: Event)
    requires Inv(s)
    ensures Inv(Step(s, e))
  {
    hide Inv, Apply;
    if Enabled(s, e) {
      match e
      case Open => OpenKeeps(s);
      case Register(c) => RegisterKeeps(s, c);
      case ClientLost(c) => LostKeeps(s, c);
      case WriterEnds(_, _) => OpensKeep(s, e);
      case ServerClose(c) => CloseKeeps(s, c);
      case Arrive(c) => ArriveKeeps(s, c);
      case Insert(id) => InsertKeeps(s, id);
      case SendOpen(id) => SendOpenKeeps(s, id);
      case Recv(id) => RecvKeeps(s, id);
      case RecvNone(id) => NeverClosedEarly(s, id);
      case Timeout(_) => StopKeeps(s, e);
      case GiveUp(_) => StopKeeps(s, e);
      case VisitorGone(_) => StopKeeps(s, e);
      case Skip(_) => OpensKeep(s, e);
      case Dispatch(c, script) => DispatchKeeps(s, c, script);
      case Emit(id) => EmitKeeps(s, id);
      case Handle(c) => HandleKeeps(s, c);
      case Take(c) => TakeKeeps(s, c);
    }
  }

  lemma {:induction false} RegisterKeeps(s: State, c: Conn)
    requires Inv(s)
    ensures Inv(s.(clients := s.clients + {c})) && (Enabled(s, Event.Register(c)) ==> Inv(Step(s, Event.Register(c))))
  {
    hide ChannelOk, StageOk, FlowOk, Only, Ended;
    var t := s.(clients := s.clients + {c});
    forall k | k in t.streams ensures StreamOk(t, k) { assert StreamOk(s, k); }
  }

  lemma {:induction false} RunKeeps(es: seq<Event>)
    ensures Inv(Exec(es))
    decreases |es|
  {
    hide Step, Inv;
    if es == [] {
      InitOk();
    } else {
      RunKeeps(es[..|es| - 1]);
      StepKeeps(Exec(es[..|es| - 1]), es[|es| - 1]);
    }
  }

  lemma {:induction false} InitOk()
    ensures Inv(INIT)
  {
  }

  /** In every run, what a visitor has read is always a prefix of its own stream's decodable
      frames, and its channel never closes under it. */
  lemma {:induction false} ReadsOwnFrames(es: seq<Event>, id: u64)
    requires id in Exec(es).streams
    ensures var s := Exec(es); var st := s.streams[id];
      && st.received <= Sift(st.script) && (st.received != [] ==> Shaped(st.script, id)) && !Enabled(s, RecvNone(id))
  {
    hide Inv, Exec, Sift, Shaped, Enabled, StageOk, FlowOk;
    var s := Exec(es);
    RunKeeps(es);
    StreamAt(s, id);
    var st := s.streams[id];
    NeverClosedEarly(s, id);
    if st.received + st.chan != [] {
      KnownIfRead(s, id);
    }
  }

  /** In every run, a visitor whose response ended normally got the head that the local service
      sent and all of its body. */
  lemma {:induction false} WholeResponse(es: seq<Event>, id: u64)
    requires id in Exec(es).streams
    ensures var st := Exec(es).streams[id];
      st.stage.Finished? && st.stage.result.Ok? ==>
        st.script != [] && st.stage.result.head == st.script[0] && st.stage.result.body == DataOf(st.script)
            && st.handled == st.script
  {
    hide Inv, Exec, Sift, Shaped, FlowOk, DataOf, Enabled;
    var s := Exec(es);
    RunKeeps(es);
    StreamAt(s, id);
    ReadsOwnFrames(es, id);
    var st := s.streams[id];
    if st.stage.Finished? && st.stage.result.Ok? {
      ShapeFacts(st.script, id, st.received);
      SiftData(st.script);
      AllHandled(st, id);
    }
  }

  /** A visitor is told that the local service failed only by the stream's own, and only, Abort. */
  lemma {:induction false} FailureIsOwn(es: seq<Event>, id: u64)
    requires id in Exec(es).streams
    ensures var st := Exec(es).streams[id];
      (st.stage.Giving? || st.stage.Finished?) && st.stage.result.Failed? ==> st.script == [Abort(id, st.stage.result.reason)]
  {
    hide Inv, Exec, Sift, Shaped, FlowOk, DataOf, Enabled;
    var s := Exec(es);
    RunKeeps(es);
    StreamAt(s, id);
    ReadsOwnFrames(es, id);
    var st := s.streams[id];
    if st.received != [] { ShapeFacts(st.script, id, st.received); }
  }

  lemma {:induction false} AllHandled(st: Stream, id: u64)
    requires Shaped(st.script, id) && st.handled <= st.script && st.received <= Sift(st.handled)
    requires st.received != [] && st.received[|st.received| - 1].End?
    ensures st.handled == st.script
  {
    hide Readable;
    SiftIn(st.handled, |st.received| - 1);
    var k :| 0 <= k < |st.handled| && st.handled[k] == st.received[|st.received| - 1];
    assert st.script[k] == st.handled[k];
  }

  lemma {:induction false} FirstCounts(fs: seq<Frame>, id: u64)
    requires Shaped(fs, id)
    ensures Readable(fs[0]) <==> WireTheorems.ClientUtf8(fs[0])
  {
    hide WireTheorems.ClientUtf8;
  }

  /** In every run, a visitor that has read anything and is still there took the branch for a
      missing head exactly when the stream's first frame has a string that is not UTF-8. */
  lemma {:induction false} HeadMissing(es: seq<Event>, id: u64)
    requires id in Exec(es).streams && Exec(es).streams[id].received != [] && !Exec(es).streams[id].stage.Gone?
    ensures var st := Exec(es).streams[id];
      st.script != []
      && ((st.stage.Giving? || st.stage.Finished?) && st.stage.result.NoHead? <==> !WireTheorems.ClientUtf8(st.script[0]))
  {
    hide Inv, Exec, Sift, FlowOk, DataOf, Enabled, Readable, ChannelOk;
    var s := Exec(es);
    RunKeeps(es);
    StreamAt(s, id);
    ReadsOwnFrames(es, id);
    var st := s.streams[id];
    ShapeFacts(st.script, id, st.received);
    SiftIn(st.script, 0);
    var k :| 0 <= k < |st.script| && st.script[k] == Sift(st.script)[0] && Readable(st.script[k]);
    if Readable(st.script[0]) { SiftFirst(st.script); }
    FirstCounts(st.script, id);
  }
}
