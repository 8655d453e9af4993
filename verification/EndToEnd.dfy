/** Streams and the worker jobs that answer them, put together: what a visitor gets in the end.

    A joint run interleaves a run of the stream machine and a run of the pool machine. They meet
    in two places: taking an open_stream off a connection starts the job of that number, and a job
    sends its last frame only when its exchange has come to that. */
module EndToEnd {
  import opened Bytes
  import opened Wire
  import opened Protocol
  import opened HttpHead
  import opened WrittenHead
  import opened HttpExchange
  import H = HttpStream
  import S = Streams
  import R = StreamRuns
  import P = PoolRuns

  /** The two runs so far. */
  datatype State = State(streams: seq<S.Event>, pool: seq<P.Event>)

  datatype Event =
    | Net(net: S.Event)
    | Pool(work: P.Event)
    | Start(conn: S.Conn, script: seq<H.Frame>, addr: Option<seq<byte>>)
    | Emit(id: u64)

  const INIT := State([], [])

  /** The job has its answer, and these are the frames that forward it. */
  ghost predicate Answered(p: P.State, id: u64, script: seq<H.Frame>) {
    var j := P.Job(id);
    P.Got(p.jobs, j) && H.Forwards(script, id, p.jobs[j].phase.meta, p.jobs[j].phase.body)
  }

  /** The job failed, or the tunnel has no local address and there is none. */
  predicate GaveUp(p: P.State, id: u64) {
    P.Job(id) in p.jobs ==> p.jobs[P.Job(id)].phase.Aborted?
  }

  /** The frame is the last of its stream, and the job has come to it. */
  ghost predicate Due(p: P.State, id: u64, script: seq<H.Frame>, f: H.Frame) {
    (f.End? ==> Answered(p, id, script)) && (f.Abort? ==> GaveUp(p, id))
  }

  ghost predicate Enabled(s: State, e: Event) {
    var t := S.Exec(s.streams);
    match e
    case Net(n) => !n.Dispatch? && !n.Emit?
    case Pool(p) => !p.Submit?
    case Start(c, script, _) => S.Enabled(t, S.Dispatch(c, script))
    case Emit(id) => S.Enabled(t, S.Emit(id)) && Due(P.Exec(s.pool), id, t.streams[id].script, t.streams[id].rest[0])
  }

  /** One step; an event that cannot happen changes nothing. A tunnel without a local address is
      refused by the receiving loop, and no job is started. */
  ghost function Step(s: State, e: Event): State {
    if !Enabled(s, e) then s
    else match e
      case Net(n) => s.(streams := s.streams + [n])
      case Pool(p) => s.(pool := s.pool + [p])
      case Start(c, script, addr) =>
        var id := S.Exec(s.streams).down[c][0];
        State(s.streams + [S.Dispatch(c, script)],
              if addr.Some? then s.pool + [P.Submit(P.Job(id), addr.value)] else s.pool)
      case Emit(id) => s.(streams := s.streams + [S.Emit(id)])
  }

  ghost function Exec(es: seq<Event>): State {
    if es == [] then INIT else Step(Exec(es[..|es| - 1]), es[|es| - 1])
  }

  // ---- the invariant ----

  /** A stream whose last frame was sent has a job that came to it. */
  ghost predicate Settled(p: P.State, id: u64, st: S.Stream) {
    st.script != [] && st.sent == st.script ==> Due(p, id, st.script, st.script[|st.script| - 1])
  }

  ghost predicate Inv(s: State) {
    var t := S.Exec(s.streams);
    forall id :: id in t.streams ==> Settled(P.Exec(s.pool), id, t.streams[id])
  }

  lemma {:induction false} ExecSnoc(es: seq<S.Event>, e: S.Event)
    ensures S.Exec(es + [e]) == S.Step(S.Exec(es), e)
  {
    assert (es + [e])[..|es|] == es;
  }

  lemma {:induction false} PoolSnoc(es: seq<P.Event>, e: P.Event)
    ensures P.Exec(es + [e]) == P.Step(P.Exec(es), e)
  {
    assert (es + [e])[..|es|] == es;
  }

  /** What the stream's job has to send and has sent is the same in both, or nothing in `u`. */
  predicate SendsSame(s: S.State, u: S.State, id: u64)
    requires id in u.streams
  {
    u.streams[id].script == []
    || (id in s.streams && u.streams[id].script == s.streams[id].script && u.streams[id].sent == s.streams[id].sent)
  }

  lemma {:induction false} RouteSends(s: S.State, c: S.Conn, u: S.State, id: u64)
    requires c in s.up && s.up[c] != [] && u == S.Route(s, c) && id in u.streams
    ensures SendsSame(s, u, id)
  {
    hide S.Readable, S.Sid, S.Terminal;
  }

  lemma {:induction false} ReadSends(s: S.State, id: u64, u: S.State, k: u64)
    requires id in s.streams && S.Reading(s.streams[id]) && s.streams[id].chan != []
    requires u == S.Put(s, id, S.Read(s.streams[id])) && k in u.streams
    ensures SendsSame(s, u, k)
  {
  }

  /** Of the steps of the stream machine only starting and sending touch what a job has sent. */
  lemma {:induction false} NetSends(s: S.State, e: S.Event, u: S.State, id: u64)
    requires !e.Dispatch? && !e.Emit? && u == S.Step(s, e) && id in u.streams
    ensures SendsSame(s, u, id)
  {
    hide S.Read, S.Route, S.Readable, S.Sid, S.Start, S.Push, S.Lose, S.Shaped;
    if S.Enabled(s, e) {
      match e
      case Handle(c) => RouteSends(s, c, u, id);
      case Recv(k) => ReadSends(s, k, u, id);
      case _ =>
    }
  }

  lemma {:induction false} NetKeeps(s: State, e: S.Event)
    requires Inv(s) && !e.Dispatch? && !e.Emit?
    ensures Inv(s.(streams := s.streams + [e]))
  {
    hide S.Step, Due;
    ExecSnoc(s.streams, e);
    var t, u := S.Exec(s.streams), S.Step(S.Exec(s.streams), e);
    forall id | id in u.streams ensures Settled(P.Exec(s.pool), id, u.streams[id]) {
      NetSends(t, e, u, id);
    }
  }

  /** What a job came to, it has come to for good. */
  lemma {:induction false} DueStays(p: P.State, e: P.Event, id: u64, script: seq<H.Frame>, f: H.Frame)
    requires Due(p, id, script, f) && (e.Submit? ==> e.job != P.Job(id) || f.End?)
    ensures Due(P.Step(p, e), id, script, f)
  {
    hide H.Forwards;
    P.AnswerStays(p, e, P.Job(id));
    if f.Abort? { FailureStays(p, e, id); }
  }

  lemma {:induction false} FailureStays(p: P.State, e: P.Event, id: u64)
    requires GaveUp(p, id) && (e.Submit? ==> e.job != P.Job(id))
    ensures GaveUp(P.Step(p, e), id)
  {
    hide Exchange, P.Spoils;
  }

  lemma {:induction false} PoolKeeps(s: State, e: P.Event)
    requires Inv(s)
    requires e.Submit? ==> forall id :: id in S.Exec(s.streams).streams && P.Job(id) == e.job ==> S.Exec(s.streams).streams[id].sent == []
    ensures Inv(s.(pool := s.pool + [e]))
  {
    hide P.Step, S.Exec, Due;
    PoolSnoc(s.pool, e);
    var t := S.Exec(s.streams);
    forall id | id in t.streams ensures Settled(P.Step(P.Exec(s.pool), e), id, t.streams[id]) {
      var st := t.streams[id];
      if st.script != [] && st.sent == st.script {
        DueStays(P.Exec(s.pool), e, id, st.script, st.script[|st.script| - 1]);
      }
    }
  }

  lemma {:induction false} StartKeeps(s: State, c: S.Conn, script: seq<H.Frame>, addr: Option<seq<byte>>)
    requires Inv(s) && Enabled(s, Start(c, script, addr))
    ensures Inv(Step(s, Start(c, script, addr)))
  {
    hide P.Exec, P.Step, S.Exec, S.Step, Due, R.Inv, R.StreamOk, S.Shaped;
    var t := S.Exec(s.streams);
    var e := S.Dispatch(c, script);
    R.RunKeeps(s.streams);
    StartSends(t, c, script);
    ExecSnoc(s.streams, e);
    var u := s.(streams := s.streams + [e]);
    assert Inv(u) by {
      forall id | id in S.Step(t, e).streams ensures Settled(P.Exec(s.pool), id, S.Step(t, e).streams[id]) {
        if id != t.down[c][0] { StartBeside(t, c, script, id); }
      }
    }
    if addr.Some? { PoolKeeps(u, P.Submit(P.Job(t.down[c][0]), addr.value)); }
  }

  /** A stream that is started has sent nothing. */
  lemma {:induction false} StartSends(s: S.State, c: S.Conn, script: seq<H.Frame>)
    requires R.Inv(s) && S.Enabled(s, S.Dispatch(c, script))
    ensures var id, t := s.down[c][0], S.Step(s, S.Dispatch(c, script));
      id in t.streams && t.streams[id].sent == [] && t.streams[id].script == script != []
  {
    hide R.StreamOk, R.Ended, S.Readable;
    var id := s.down[c][0];
    assert R.Fresh(s, id, c);
    R.StreamAt(s, id);
  }

  lemma {:induction false} StartBeside(s: S.State, c: S.Conn, script: seq<H.Frame>, id: u64)
    requires S.Enabled(s, S.Dispatch(c, script)) && id != s.down[c][0] && id in S.Step(s, S.Dispatch(c, script)).streams
    ensures id in s.streams && S.Step(s, S.Dispatch(c, script)).streams[id] == s.streams[id]
  {
    hide S.Readable, S.Shaped;
  }

  /** Sending a frame leaves the other streams, and it is the last one iff it ends the script. */
  lemma {:induction false} EmitSends(s: S.State, id: u64, t: S.State, k: u64)
    requires id in s.streams && s.streams[id].rest != [] && k in t.streams
    requires t == S.Step(s, S.Emit(id))
    ensures k in s.streams && t.streams[k].script == s.streams[k].script
    ensures t.streams[k].sent == s.streams[k].sent || (k == id
        && t.streams[k].sent == s.streams[k].sent + [s.streams[id].rest[0]])
  {
    hide S.Only;
  }

  lemma {:induction false} EmitIs(s: S.State, id: u64)
    requires S.Enabled(s, S.Emit(id))
    ensures id in s.streams && s.streams[id].rest != []
  {
  }

  lemma {:induction false} LastSent(id: u64, st: S.Stream, u: S.Stream)
    ensures st.rest != [] && u.sent == st.sent + [st.rest[0]] && u.sent == u.script ==>
      u.script != [] && u.script[|u.script| - 1] == st.rest[0]
  {
  }

  lemma {:induction false} EmitKeeps(s: State, id: u64)
    requires Inv(s) && Enabled(s, Emit(id))
    ensures Inv(Step(s, Emit(id)))
  {
    hide P.Exec, S.Exec, S.Step, Due, R.Inv;
    var t := S.Exec(s.streams);
    EmitIs(t, id);
    ExecSnoc(s.streams, S.Emit(id));
    var u := S.Step(t, S.Emit(id));
    forall k | k in u.streams ensures Settled(P.Exec(s.pool), k, u.streams[k]) {
      EmitSends(t, id, u, k);
      LastSent(id, t.streams[k], u.streams[k]);
    }
  }

  lemma {:induction false} RunKeeps(es: seq<Event>)
    ensures Inv(Exec(es))
    decreases |es|
  {
    hide S.Exec, P.Exec, S.Enabled, Due, Settled;
    if es != [] {
      var s, e := Exec(es[..|es| - 1]), es[|es| - 1];
      RunKeeps(es[..|es| - 1]);
      if Enabled(s, e) {
        match e
        case Net(n) => NetKeeps(s, n);
        case Pool(p) => PoolKeeps(s, p);
        case Start(c, script, addr) => StartKeeps(s, c, script, addr);
        case Emit(id) => EmitKeeps(s, id);
      }
    } else {
      InitOk();
    }
  }

  lemma {:induction false} InitOk()
    ensures Inv(INIT)
  {
  }

  // ---- what a visitor gets ----

  /** The frames that forward an answer carry its head and its body. */
  lemma {:induction false} FramesCarry(id: u64, m: Meta, chunks: seq<seq<byte>>)
    ensures S.DataOf(H.Frames(id, m, chunks)) == Concat(chunks)
  {
    var head, fs := [H.HeadFrame(id, m)], H.ChunkFrames(id, chunks);
    ChunksCarry(id, head, chunks);
    R.DataSnoc(head + fs, End(id));
    assert Concat(chunks) + [] == Concat(chunks);
  }

  lemma {:induction false} HeadCarries(head: seq<H.Frame>, fs: seq<H.Frame>)
    requires |head| == 1 && head[0].ResponseHead? && fs == []
    ensures S.DataOf(head + fs) == []
  {
    assert (head + fs)[..0] == [];
  }

  lemma {:induction false} ChunksCarry(id: u64, head: seq<H.Frame>, chunks: seq<seq<byte>>)
    requires |head| == 1 && head[0].ResponseHead?
    ensures S.DataOf(head + H.ChunkFrames(id, chunks)) == Concat(chunks)
    decreases |chunks|
  {
    hide S.DataOf;
    var fs := H.ChunkFrames(id, chunks);
    if chunks == [] {
      HeadCarries(head, fs);
    } else {
      var k := |chunks| - 1;
      var gs := H.ChunkFrames(id, chunks[..k]);
      ChunksCarry(id, head, chunks[..k]);
      R.DataSnoc(head + gs, fs[k]);
      assert head + fs == head + gs + [fs[k]];
    }
  }

  /** A stream whose visitor got a normal response has sent its whole script, and it ends with End. */
  lemma {:induction false} WholeScript(es: seq<S.Event>, id: u64)
    requires id in S.Exec(es).streams
    requires var st := S.Exec(es).streams[id]; st.stage.Finished? && st.stage.result.Ok?
    ensures var st := S.Exec(es).streams[id]; var n := |st.script|;
      && n > 0 && st.sent == st.script && st.script[n - 1].End?
      && st.stage.result.head == st.script[0] && st.stage.result.body == S.DataOf(st.script)
  {
    hide S.Exec, R.Inv, S.DataOf, R.ChannelOk, S.Only;
    R.RunKeeps(es);
    R.StreamAt(S.Exec(es), id);
    R.WholeResponse(es, id);
  }

  /** Nothing had spoilt the connection on which the exchange took place. */
  ghost predicate Untouched(es: seq<P.Event>, i: nat, j: P.Job)
    requires P.AnswersAt(es, i, j)
  {
    forall k: nat :: k < i ==> !P.SpoilsAt(es, k, P.Exec(es[..i]).jobs[j].phase.sock)
  }

  /** A normal response that a visitor got is the service's answer to that visitor's own request:
      the stream's job was answered in exactly one exchange, and if the service sent a
      response, or the beginning of one, there, on a connection that nothing had spoilt, the
      visitor has its head and a prefix of its body; all of the body iff its data came
      completely and no CRLF read before the last chunk was split. */
  lemma {:induction false} VisitorGetsOwnAnswer(es: seq<Event>, id: u64) returns (i: nat)
    requires id in S.Exec(Exec(es).streams).streams
    requires var st := S.Exec(Exec(es).streams).streams[id]; st.stage.Finished? && st.stage.result.Ok?
    ensures var got, pool, j := S.Exec(Exec(es).streams).streams[id].stage.result, Exec(es).pool, P.Job(id);
      && P.AnswersAt(pool, i, j)
      && (P.Fair(pool[i]) && Untouched(pool, i, j) ==> CarriesAnswer(id, got, pool[i], P.Exec(pool[..i])))
  {
    hide S.Exec, P.Exec, Exec, R.StreamOk, S.DataOf, H.Frames, P.OwnAnswer, MetaOf, BodyOf, InnerUnsplit, BodyEnd;
    var pool, j := Exec(es).pool, P.Job(id);
    var st := S.Exec(Exec(es).streams).streams[id];
    RunKeeps(es);
    WholeScript(Exec(es).streams, id);
    var ph := P.Exec(pool).jobs[j].phase;
    i := P.AnsweredOnce(pool, j);
    var chunks :| Concat(chunks) == ph.body && st.script == H.Frames(id, ph.meta, chunks);
    FramesCarry(id, ph.meta, chunks);
    FirstFrame(id, ph.meta, chunks);
    if P.Fair(pool[i]) && Untouched(pool, i, j) {
      P.OwnResponse(pool, i, j);
      OwnIsCarried(id, st.stage.result, ph, pool[i], P.Exec(pool[..i]));
    }
  }

  /** The visitor's response is the answer `e.resp`, given when the pool was in state `p`. */
  ghost predicate CarriesAnswer(id: u64, got: S.Result, e: P.Event, p: P.State)
    requires got.Ok? && e.Serve? && P.HoldsReadable(p, e.job)
  {
    var at := p.conns[p.jobs[e.job].phase.sock].pos;
    && got.head == H.HeadFrame(id, MetaOf(e.resp)) && HeadArrives(id, got.head, e.resp) && got.body <= BodyOf(e.resp.body)
    && (got.body == BodyOf(e.resp.body) <==> InnerUnsplit(e.cuts, at, e.resp) && BodyEnd(at, e.resp) <= at + |e.said|)
  }

  /** The frame has the status of the response, as far as 16 bits go, and its headers but for the
      framing ones. */
  ghost predicate HeadArrives(id: u64, f: H.Frame, r: Response) {
    forall version, status: nat, tail, hs :: WrittenAs(r, version, status, tail, hs) ==>
      f.ResponseHead? && f.streamId == id && f.status == status % 0x1_0000 && HeadersAre(f.headers, hs, |hs|)
  }

  lemma {:induction false} HeadIsWritten(id: u64, r: Response)
    ensures HeadArrives(id, H.HeadFrame(id, MetaOf(r)), r)
  {
    hide MetaOf, WrittenAs, HeadersAre, LengthIs, Says;
    forall version, status: nat, tail, hs | WrittenAs(r, version, status, tail, hs)
      ensures var f := H.HeadFrame(id, MetaOf(r));
        f.streamId == id && f.status == status % 0x1_0000 && HeadersAre(f.headers, hs, |hs|)
    {
      WrittenMeans(r, version, status, tail, hs);
    }
  }

  lemma {:induction false} FirstFrame(id: u64, m: Meta, chunks: seq<seq<byte>>)
    ensures H.Frames(id, m, chunks)[0] == H.HeadFrame(id, m)
  {
  }

  lemma {:induction false} OwnIsCarried(id: u64, got: S.Result, ph: P.Phase, e: P.Event, p: P.State)
    requires got.Ok? && e.Serve? && P.HoldsReadable(p, e.job) && (ph.Releasing? || ph.Answered?)
    requires P.OwnAnswer(ph, e, p.conns[p.jobs[e.job].phase.sock].pos)
    requires got.head == H.HeadFrame(id, ph.meta) && got.body == ph.body
    ensures CarriesAnswer(id, got, e, p)
  {
    hide MetaOf, BodyOf, InnerUnsplit, BodyEnd, H.HeadFrame, HeadArrives;
    HeadIsWritten(id, e.resp);
  }

  /** A visitor is told that the local service failed only if its own job gave up. */
  lemma {:induction false} FailureIsTheJobs(es: seq<Event>, id: u64)
    requires id in S.Exec(Exec(es).streams).streams
    requires var st := S.Exec(Exec(es).streams).streams[id]; st.stage.Finished? && st.stage.result.Failed?
    ensures GaveUp(P.Exec(Exec(es).pool), id)
  {
    hide S.Exec, P.Exec, Exec, R.Inv, S.Only, S.Readable, S.Sift, Settled;
    RunKeeps(es);
    var run := Exec(es).streams;
    R.RunKeeps(run);
    R.StreamAt(S.Exec(run), id);
    R.FailureIsOwn(run, id);
    R.ReadsOwnFrames(run, id);
    AbortHandled(S.Exec(run).streams[id]);
    assert Settled(P.Exec(Exec(es).pool), id, S.Exec(run).streams[id]);
    AbortSettles(P.Exec(Exec(es).pool), id, S.Exec(run).streams[id]);
  }

  lemma {:induction false} AbortSettles(p: P.State, id: u64, st: S.Stream)
    requires Settled(p, id, st) && |st.script| == 1 && st.script[0].Abort? && st.sent == st.script
    ensures GaveUp(p, id)
  {
    hide GaveUp;
  }

  lemma {:induction false} AbortHandled(st: S.Stream)
    requires |st.script| == 1 && st.sent <= st.script && st.handled <= st.sent
    requires st.received != [] && st.received <= S.Sift(st.handled)
    ensures st.sent == st.script
  {
    hide S.Readable;
  }
}
