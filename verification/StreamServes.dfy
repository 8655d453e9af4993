/** What the stream machine brings about: visitors of a live connection can be served, and when they
    are not. */
module StreamServes {
  import opened Bytes
  import opened Wire
  import opened Protocol
  import opened HttpStream
  import opened Streams
  import opened StreamRuns

  /** The state after more events. */
  function After(s: State, es: seq<Event>): State {
    if es == [] then s else Step(After(s, es[..|es| - 1]), es[|es| - 1])
  }

  lemma {:induction false} AfterSnoc(s: State, es: seq<Event>, e: Event)
    ensures After(s, es + [e]) == Step(After(s, es), e)
    ensures After(s, []) == s
  {
    hide Step;
    assert (es + [e])[..|es|] == es;
  }

  lemma {:induction false} AfterAppend(s: State, a: seq<Event>, b: seq<Event>)
    ensures After(s, a + b) == After(After(s, a), b)
    decreases |b|
  {
    hide Step;
    if b == [] {
      assert a + b == a;
    } else {
      var k := |b| - 1;
      AfterAppend(s, a, b[..k]);
      assert (a + b)[..|a| + k] == a + b[..k];
    }
  }

  lemma {:induction false} ExecAfter(es: seq<Event>, more: seq<Event>)
    ensures Exec(es + more) == After(Exec(es), more)
    decreases |more|
  {
    hide Step;
    if more == [] {
      assert es + more == es;
    } else {
      var k := |more| - 1;
      ExecAfter(es, more[..k]);
      assert (es + more)[..|es| + k] == es + more[..k];
    }
  }

  // ---- what has happened to a connection ----

  /** The event is one of the run, and could happen when it came. */
  predicate Happened(es: seq<Event>, e: Event) {
    es != [] && (Happened(es[..|es| - 1], e) || (es[|es| - 1] == e && Enabled(Exec(es[..|es| - 1]), e)))
  }

  predicate Registered(es: seq<Event>, c: Conn) { Happened(es, Event.Register(c)) }

  predicate Closed(es: seq<Event>, c: Conn) { Happened(es, ServerClose(c)) }

  predicate Lost(es: seq<Event>, c: Conn) { Happened(es, ClientLost(c)) }

  predicate WriterEnded(es: seq<Event>, c: Conn) {
    es != [] &&
    (WriterEnded(es[..|es| - 1], c) ||
     (es[|es| - 1].WriterEnds? && es[|es| - 1].conn == c && Enabled(Exec(es[..|es| - 1]), es[|es| - 1])))
  }

  /** The event is about the connection itself. */
  predicate OfConn(e: Event) { e.Open? || e.Register? || e.ClientLost? || e.WriterEnds? || e.ServerClose? }

  predicate SameStanding(s: State, t: State) {
    && t.up.Keys == s.up.Keys && t.down.Keys == s.down.Keys && t.clients == s.clients && t.writing == s.writing
    && t.conns == s.conns
  }

  lemma {:induction false} OtherStands(s: State, e: Event, t: State)
    requires t == Step(s, e) && !OfConn(e)
    ensures SameStanding(s, t)
  {
    hide Readable, Sid, Terminal, Shaped, Read, Route;
    if e.Handle? && Enabled(s, e) { RouteStands(s, e.conn, t); }
  }

  lemma {:induction false} StepStands(s: State, e: Event, t: State, c: Conn)
    requires t == Step(s, e)
    ensures c in t.up <==> (c in s.up || (e.Open? && c == s.conns)) && !(Enabled(s, e) && e == ServerClose(c))
    ensures c in t.down <==> (c in s.down || (e.Open? && c == s.conns)) && !(Enabled(s, e) && e == ClientLost(c))
    ensures c in t.clients <==>
      (c in s.clients || (Enabled(s, e) && e == Event.Register(c))) && !(Enabled(s, e) && e == ServerClose(c))
    ensures c in t.writing <==>
      (c in s.writing || (e.Open? && c == s.conns))
      && !(Enabled(s, e) && (e == ServerClose(c) || (e.WriterEnds? && e.conn == c)))
    ensures t.conns == s.conns + if e.Open? then 1 else 0
  {
    hide Readable, Sid, Terminal, Shaped, Read, Route, Start, Push, Lose;
    if !OfConn(e) {
      hide Step, Enabled;
      OtherStands(s, e, t);
    }
  }

  lemma {:induction false} RouteStands(s: State, d: Conn, t: State)
    requires d in s.up && s.up[d] != [] && t == Route(s, d)
    ensures SameStanding(s, t)
  {
    hide Readable, Sid, Terminal;
  }

  /** What a connection's standing says about the run. */
  predicate Stands(es: seq<Event>, c: Conn) {
    var s := Exec(es);
    && (c in s.up <==> c < s.conns && !Closed(es, c))
    && (c in s.down <==> c < s.conns && !Lost(es, c))
    && (c in s.clients <==> Registered(es, c) && !Closed(es, c))
    && (c in s.writing <==> c < s.conns && !Closed(es, c) && !WriterEnded(es, c))
    && (Registered(es, c) || Closed(es, c) || Lost(es, c) || WriterEnded(es, c) ==> c < s.conns)
  }

  /** In every run: a connection is in the tables as long as nothing took it out. */
  lemma {:induction false} StandsAlways(es: seq<Event>, c: Conn)
    ensures Stands(es, c)
    decreases |es|
  {
    hide Step, Enabled;
    if es == [] {
    } else {
      var s, e := Exec(es[..|es| - 1]), es[|es| - 1];
      StandsAlways(es[..|es| - 1], c);
      StepStands(s, e, Exec(es), c);
      NeedsOpen(s, e, c);
    }
  }

  lemma {:induction false} NeedsOpen(s: State, e: Event, c: Conn)
    ensures Enabled(s, e) && (e == Event.Register(c) || e == ServerClose(c)) ==> c in s.up
    ensures Enabled(s, e) && e == ClientLost(c) ==> c in s.down
    ensures Enabled(s, e) && e.WriterEnds? && e.conn == c ==> c in s.writing
  {
  }

  /** The connection can carry a request: it was registered, and nothing ended it since. */
  lemma {:induction false} LiveIff(es: seq<Event>, c: Conn)
    ensures Live(Exec(es), c) <==> Registered(es, c) && !Closed(es, c) && !WriterEnded(es, c) && !Lost(es, c)
  {
    hide Exec, Registered, Closed, Lost, WriterEnded;
    StandsAlways(es, c);
  }

  // ---- a live connection ----

  /** The connection is registered, both sides still read it, and its writer task runs. */
  predicate Live(s: State, c: Conn) {
    c in s.clients && c in s.writing && c in s.down && c in s.up && c < s.conns
  }

  predicate Quiet(s: State, c: Conn) {
    Live(s, c) && s.down[c] == [] && s.up[c] == [] && c !in s.taking
  }

  lemma {:induction false} TakeIs(s: State, c: Conn)
    requires Live(s, c) && c in s.taking
    ensures var t := Step(s, Take(c)); Live(t, c) && t.up == s.up && t.down == s.down && c !in t.taking && t.next == s.next
  {
  }

  lemma {:induction false} HandleIs(s: State, c: Conn)
    requires Live(s, c) && c !in s.taking && s.up[c] != []
    ensures var t := Step(s, Handle(c));
      Live(t, c) && |t.up[c]| == |s.up[c]| - 1 && t.down == s.down && t.next == s.next
  {
    hide Readable, Sid, Terminal;
  }

  lemma {:induction false} SkipIs(s: State, c: Conn)
    requires Live(s, c) && s.down[c] != []
    ensures var t := Step(s, Skip(c)); Live(t, c) && |t.down[c]| == |s.down[c]| - 1 && t.next == s.next
  {
  }

  /** A live connection can become quiet. */
  lemma {:induction false} Drains(s: State, c: Conn) returns (es: seq<Event>)
    requires Live(s, c)
    ensures Quiet(After(s, es), c) && After(s, es).next == s.next
    decreases |s.down[c]|, |s.up[c]|, if c in s.taking then 1 else 0
  {
    hide Step;
    var first: seq<Event> := [];
    if c in s.taking {
      TakeIs(s, c);
      first := [Take(c)];
    } else if s.up[c] != [] {
      HandleIs(s, c);
      first := [Handle(c)];
    } else if s.down[c] != [] {
      SkipIs(s, c);
      first := [Skip(c)];
    } else {
      return [];
    }
    assert [] + first == first;
    AfterSnoc(s, [], first[0]);
    var rest := Drains(Step(s, first[0]), c);
    AfterAppend(s, first, rest);
    es := first + rest;
  }

  // ---- serving one visitor ----

  /** The state `s` but for one stream, the frames on its connection, and the handler's next removal. */
  function With(s: State, c: Conn, id: u64, st: Stream, q: seq<Frame>, busy: bool): State {
    s.(next := id, streams := s.streams[id := st], up := s.up[c := q], taking := if busy then s.taking[c := id] else s.taking)
  }

  /** What the visitor knows after `k` frames. */
  function StageAfter(script: seq<Frame>, k: nat): Stage
    requires 0 < |script| && k <= |script|
  {
    if k == 0 then Waiting
    else if k < |script| then Streaming(script[0], DataOf(script[..k]))
    else if |script| == 1 then
      match script[0] case Abort(_, reason) => Giving(Failed(reason)) case _ => Giving(NoHead)
    else Finished(Ok(script[0], DataOf(script)))
  }

  /** The stream when its visitor has read `k` frames and nothing else is under way. */
  function StreamAfter(c: Conn, script: seq<Frame>, k: nat): Stream
    requires 0 < |script| && k <= |script|
  {
    Stream(c, StageAfter(script, k), k < |script|, true, script, script[k..], script[..k], script[..k], [], script[..k])
  }

  function Opening(c: Conn, script: seq<Frame>, id: u64): seq<Event> {
    [Arrive(c), Insert(id), SendOpen(id), Dispatch(c, script)]
  }

  /** The state `s` with a new stream and what waits for the client. */
  function WithNew(s: State, c: Conn, id: u64, st: Stream, down: seq<u64>): State {
    s.(next := id, streams := s.streams[id := st], down := s.down[c := down])
  }

  function NewStream(c: Conn, stage: Stage, pending: bool): Stream {
    Stream(c, stage, pending, false, [], [], [], [], [], [])
  }

  lemma {:induction false} ArriveGives(s: State, c: Conn, id: u64)
    requires Quiet(s, c) && id == s.next + 1
    ensures Step(s, Arrive(c)) == WithNew(s, c, id, NewStream(c, Allocated, false), [])
  {
    assert s.down[c := []] == s.down;
  }

  lemma {:induction false} InsertGives(s: State, c: Conn, id: u64)
    ensures Step(WithNew(s, c, id, NewStream(c, Allocated, false), []), Insert(id))
         == WithNew(s, c, id, NewStream(c, Inserted, true), [])
  {
  }

  lemma {:induction false} SendGives(s: State, c: Conn, id: u64)
    requires Quiet(s, c)
    ensures Step(WithNew(s, c, id, NewStream(c, Inserted, true), []), SendOpen(id))
         == WithNew(s, c, id, NewStream(c, Waiting, true), [id])
  {
    assert [] + [id] == [id];
  }

  lemma {:induction false} DispatchGives(s: State, c: Conn, id: u64, script: seq<Frame>)
    requires Quiet(s, c) && Shaped(script, id)
    ensures Step(WithNew(s, c, id, NewStream(c, Waiting, true), [id]), Dispatch(c, script))
         == With(s, c, id, StreamAfter(c, script, 0), [], false)
  {
    hide Shaped;
    SomeFrames(script, id);
    assert [id][1..] == [] && s.down[c := []] == s.down && s.up[c := []] == s.up;
    assert script[0..] == script && script[..0] == [];
  }

  lemma {:induction false} SomeFrames(script: seq<Frame>, id: u64)
    requires Shaped(script, id)
    ensures script != []
  {
  }

  lemma {:induction false} Opens(s: State, c: Conn, id: u64, script: seq<Frame>)
    requires Quiet(s, c) && id == s.next + 1 && Shaped(script, id)
    ensures script != [] && After(s, Opening(c, script, id)) == With(s, c, id, StreamAfter(c, script, 0), [], false)
  {
    hide Shaped, Step, With, WithNew, StreamAfter, NewStream;
    SomeFrames(script, id);
    ArriveGives(s, c, id);
    InsertGives(s, c, id);
    SendGives(s, c, id);
    DispatchGives(s, c, id, script);
    FourSteps(s, Arrive(c), Insert(id), SendOpen(id), Dispatch(c, script));
  }

  lemma {:induction false} FourSteps(s: State, a: Event, b: Event, c: Event, d: Event)
    ensures After(s, [a, b, c, d]) == Step(Step(Step(Step(s, a), b), c), d)
  {
    hide Step;
    LastStep(s, [a], a, []);
    LastStep(s, [a, b], b, [a]);
    LastStep(s, [a, b, c], c, [a, b]);
    LastStep(s, [a, b, c, d], d, [a, b, c]);
    AfterSnoc(s, [], a);
  }

  lemma {:induction false} LastStep(s: State, es: seq<Event>, e: Event, before: seq<Event>)
    requires |es| == |before| + 1 && es[..|before|] == before && es[|before|] == e
    ensures After(s, es) == Step(After(s, before), e)
  {
    hide Step;
  }

  /** How one frame goes from the job to the visitor. */
  function FrameEvents(c: Conn, id: u64, last: bool): seq<Event> {
    if last then [Emit(id), Handle(c), Take(c), Recv(id)] else [Emit(id), Handle(c), Recv(id)]
  }

  /** The stream on its way: `sent`, `handled` and `read` frames so far. */
  function Underway(c: Conn, script: seq<Frame>, stage: Stage, pending: bool, sent: nat, handled: nat, read: nat): Stream
    requires read <= handled <= sent <= |script|
  {
    Stream(c, stage, pending, true, script, script[sent..], script[..sent], script[..handled], script[read..handled], script[..read])
  }

  lemma {:induction false} EmitGives(s: State, c: Conn, id: u64, script: seq<Frame>, stage: Stage, k: nat)
    requires Live(s, c) && c !in s.taking && k < |script|
    ensures Step(With(s, c, id, Underway(c, script, stage, true, k, k, k), [], false), Emit(id))
         == With(s, c, id, Underway(c, script, stage, true, k + 1, k, k), [script[k]], false)
  {
    assert script[k..][0] == script[k] && script[k..][1..] == script[k + 1..] && script[..k] + [script[k]] == script[..k + 1];
    assert [] + [script[k]] == [script[k]];
  }

  lemma {:induction false} HandleGives(s: State, c: Conn, id: u64, script: seq<Frame>, stage: Stage, k: nat)
    requires Live(s, c) && c !in s.taking && k < |script| && Sid(script[k]) == id && Readable(script[k])
    ensures Step(With(s, c, id, Underway(c, script, stage, true, k + 1, k, k), [script[k]], false), Handle(c))
         == With(s, c, id, Underway(c, script, stage, true, k + 1, k + 1, k), [], Terminal(script[k]))
  {
    hide Sid, Readable, Terminal, Shaped;
    var f := script[k];
    assert [f][1..] == [] && script[..k] + [f] == script[..k + 1];
    assert script[k..k] + [f] == script[k..k + 1];
    var a := With(s, c, id, Underway(c, script, stage, true, k + 1, k, k), [f], false);
    assert Step(a, Handle(c)) == Route(a, c);
  }

  lemma {:induction false} TakeGives(s: State, c: Conn, id: u64, script: seq<Frame>, stage: Stage, k: nat)
    requires c !in s.taking && k < |script|
    ensures Step(With(s, c, id, Underway(c, script, stage, true, k + 1, k + 1, k), [], true), Take(c))
         == With(s, c, id, Underway(c, script, stage, false, k + 1, k + 1, k), [], false)
  {
    assert s.taking[c := id] - {c} == s.taking;
  }

  lemma {:induction false} RecvGives(s: State, c: Conn, id: u64, script: seq<Frame>, k: nat, pending: bool)
    requires c !in s.taking && k < |script| && Shaped(script, id)
    ensures Step(With(s, c, id, Underway(c, script, StageAfter(script, k), pending, k + 1, k + 1, k), [], false), Recv(id))
         == With(s, c, id, Underway(c, script, StageAfter(script, k + 1), pending, k + 1, k + 1, k + 1), [], false)
  {
    hide DataOf, Sid;
    ReadGives(c, id, script, k, pending);
    var st := Underway(c, script, StageAfter(script, k), pending, k + 1, k + 1, k);
    assert st.chan == [script[k]];
  }

  lemma {:induction false} ReadGives(c: Conn, id: u64, script: seq<Frame>, k: nat, pending: bool)
    requires k < |script| && Shaped(script, id)
    ensures var st := Underway(c, script, StageAfter(script, k), pending, k + 1, k + 1, k);
      && Reading(st) && st.chan != []
      && Read(st) == Underway(c, script, StageAfter(script, k + 1), pending, k + 1, k + 1, k + 1)
  {
    hide DataOf, Sid;
    assert script[k..k + 1] == [script[k]] && script[..k] + [script[k]] == script[..k + 1] && script[k + 1..k + 1] == [];
    DataSnoc(script[..k], script[k]);
    assert script[..|script|] == script && script[..0] == [];
    assert DataOf(script[..k]) + [] == DataOf(script[..k]);
  }

  lemma {:induction false} FrameGoes(s: State, c: Conn, id: u64, script: seq<Frame>, k: nat)
    requires Live(s, c) && c !in s.taking && Shaped(script, id) && k < |script| && Readable(script[k])
    ensures After(With(s, c, id, StreamAfter(c, script, k), [], false), FrameEvents(c, id, k + 1 == |script|))
         == With(s, c, id, StreamAfter(c, script, k + 1), [], false)
  {
    hide Step, With, Readable, StageAfter;
    var last := k + 1 == |script|;
    var stage := StageAfter(script, k);
    ShapedAt(script, id, k);
    Settled(c, script, k);
    Settled(c, script, k + 1);
    EmitGives(s, c, id, script, stage, k);
    HandleGives(s, c, id, script, stage, k);
    if last { TakeGives(s, c, id, script, stage, k); }
    RecvGives(s, c, id, script, k, !last);
    FrameSteps(With(s, c, id, StreamAfter(c, script, k), [], false), c, id, last);
  }

  lemma {:induction false} ShapedAt(script: seq<Frame>, id: u64, k: nat)
    requires Shaped(script, id) && k < |script|
    ensures Sid(script[k]) == id && (Terminal(script[k]) <==> k + 1 == |script|)
  {
    hide Sid;
  }

  lemma {:induction false} Settled(c: Conn, script: seq<Frame>, k: nat)
    requires 0 < |script| && k <= |script|
    ensures StreamAfter(c, script, k) == Underway(c, script, StageAfter(script, k), k < |script|, k, k, k)
  {
    hide StageAfter;
  }

  lemma {:induction false} FrameSteps(s: State, c: Conn, id: u64, last: bool)
    ensures var t := Step(Step(s, Emit(id)), Handle(c));
      After(s, FrameEvents(c, id, last)) == Step(if last then Step(t, Take(c)) else t, Recv(id))
  {
    hide Step;
    if last {
      FourSteps(s, Emit(id), Handle(c), Take(c), Recv(id));
    } else {
      AfterSnoc(s, [], Emit(id));
      AfterSnoc(s, [Emit(id)], Handle(c));
      AfterSnoc(s, [Emit(id), Handle(c)], Recv(id));
      assert [] + [Emit(id)] == [Emit(id)] && [Emit(id)] + [Handle(c)] == [Emit(id), Handle(c)];
      assert [Emit(id), Handle(c)] + [Recv(id)] == [Emit(id), Handle(c), Recv(id)];
    }
  }

  lemma {:induction false} FramesGo(s: State, c: Conn, id: u64, script: seq<Frame>, k: nat) returns (es: seq<Event>)
    requires Live(s, c) && c !in s.taking && Shaped(script, id) && k <= |script|
    requires forall i :: 0 <= i < |script| ==> Readable(script[i])
    ensures After(With(s, c, id, StreamAfter(c, script, 0), [], false), es) == With(s, c, id, StreamAfter(c, script, k), [], false)
  {
    hide Step, With, Readable, StreamAfter, Shaped;
    es := [];
    if k > 0 {
      var before := FramesGo(s, c, id, script, k - 1);
      FrameGoes(s, c, id, script, k - 1);
      es := before + FrameEvents(c, id, k == |script|);
      AfterAppend(With(s, c, id, StreamAfter(c, script, 0), [], false), before, FrameEvents(c, id, k == |script|));
    }
  }

  /** What the visitor is told in the end. */
  function Verdict(script: seq<Frame>): Result
    requires script != []
  {
    match script[0] case Abort(_, reason) => Failed(reason) case _ => Ok(script[0], DataOf(script))
  }

  lemma {:induction false} LastStage(script: seq<Frame>, id: u64)
    requires Shaped(script, id)
    ensures var g := StageAfter(script, |script|);
      if script[0].Abort? then g == Giving(Verdict(script)) else g == Finished(Verdict(script))
  {
    hide DataOf, Sid;
  }

  /** However a run has gone: as long as a connection was registered and nothing ended it, a new
      visitor can be served on it. For every script of the proved shape that the server can decode, the run can go on so that
      the visitor gets the head and all the data, or the reason of the one Abort. */
  lemma {:induction false} VisitorServed(es: seq<Event>, c: Conn, script: seq<Frame>) returns (more: seq<Event>, id: u64)
    requires Registered(es, c) && !Closed(es, c) && !WriterEnded(es, c) && !Lost(es, c)
    requires Exec(es).next + 1 < 0x1_0000_0000_0000_0000 && Shaped(script, Exec(es).next + 1)
    requires forall i :: 0 <= i < |script| ==> Readable(script[i])
    ensures id == Exec(es).next + 1 && id in Exec(es + more).streams
    ensures var st := Exec(es + more).streams[id];
      st.stage == Finished(Verdict(script)) && !st.pending && st.script == script
  {
    hide Step, Readable, Shaped, Exec, Live, DataOf, StageAfter, With, StreamAfter, Registered, Closed, WriterEnded, Lost;
    id := Exec(es).next + 1;
    LiveIff(es, c);
    more := AnswerGiven(Exec(es), c, script);
    var t := After(Exec(es), more);
    ExecAfter(es, more);
    LastStage(script, id);
    SomeFrames(script, id);
    if script[0].Abort? {
      AfterSnoc(t, [], GiveUp(id));
      AfterSnoc(Exec(es), more, GiveUp(id));
      GivesUp(t, id);
      more := more + [GiveUp(id)];
      ExecAfter(es, more);
    }
  }

  lemma {:induction false} AnswerGiven(s: State, c: Conn, script: seq<Frame>) returns (es: seq<Event>)
    requires Live(s, c) && s.next + 1 < 0x1_0000_0000_0000_0000 && Shaped(script, s.next + 1)
    requires forall i :: 0 <= i < |script| ==> Readable(script[i])
    ensures var t, id := After(s, es), s.next + 1;
      script != [] && id in t.streams && t.streams[id].stage == StageAfter(script, |script|) && !t.streams[id].pending
      && t.streams[id].script == script
  {
    hide Step, Readable, Shaped, DataOf, StageAfter;
    var id := s.next + 1;
    var drain := Drains(s, c);
    var q := After(s, drain);
    Opens(q, c, id, script);
    var frames := FramesGo(q, c, id, script, |script|);
    AfterAppend(s, drain, Opening(c, script, id));
    AfterAppend(s, drain + Opening(c, script, id), frames);
    es := drain + Opening(c, script, id) + frames;
  }

  lemma {:induction false} GivesUp(s: State, id: u64)
    requires id in s.streams && s.streams[id].stage.Giving?
    ensures var t := Step(s, GiveUp(id));
      t == Put(s, id, s.streams[id].(stage := Finished(s.streams[id].stage.result), pending := false))
  {
  }

  // ---- who is told that the client is offline, or takes too long ----

  predicate Told(st: Stream, r: Result) { (st.stage.Giving? || st.stage.Finished?) && st.stage.result == r }

  /** The stream is as far with its visitor as before. */
  predicate SameVisitor(s: State, t: State, id: u64) {
    && t.streams.Keys == s.streams.Keys
    && (id in s.streams ==> t.streams[id].stage == s.streams[id].stage && t.streams[id].conn == s.streams[id].conn)
  }

  lemma {:induction false} RouteVisitor(s: State, c: Conn, t: State, id: u64)
    requires c in s.up && s.up[c] != [] && t == Route(s, c)
    ensures SameVisitor(s, t, id)
  {
    hide Readable, Sid, Terminal;
  }

  lemma {:induction false} QueueVisitor(s: State, e: Event, t: State, id: u64)
    requires t == Step(s, e) && (OfConn(e) || e.Handle? || e.Dispatch? || e.Emit? || e.Take? || e.Skip?)
    ensures SameVisitor(s, t, id)
  {
    hide Readable, Sid, Terminal, Shaped, Route, Read;
    if e.Handle? && Enabled(s, e) { RouteVisitor(s, e.conn, t, id); }
  }

  lemma {:induction false} StepTold(s: State, e: Event, t: State, id: u64, r: Result)
    requires NumbersOk(s) && t == Step(s, e) && id in t.streams && OfEvent(r)
    ensures id !in s.streams ==> !Told(t.streams[id], r)
    ensures id in s.streams ==> t.streams[id].conn == s.streams[id].conn && ToldBy(s, e, id, r, Told(t.streams[id], r))
  {
    hide NumbersOk, Told, Step, Enabled;
    if OfConn(e) || e.Handle? || e.Dispatch? || e.Emit? || e.Take? || e.Skip? {
      QueueVisitor(s, e, t, id);
      if id in s.streams { SameTold(s.streams[id], t.streams[id], r); }
    } else {
      OwnTold(s, e, t, id, r);
    }
  }

  /** The results that a visitor is told of one event. */
  predicate OfEvent(r: Result) { r.Offline? || r.TimedOut? }

  predicate ToldBy(s: State, e: Event, id: u64, r: Result, told: bool)
    requires id in s.streams && OfEvent(r)
  {
    told <==>
      (Told(s.streams[id], r) && e != VisitorGone(id)) ||
      (Enabled(s, e) &&
       if r.TimedOut? then e == Timeout(id)
       else e == SendOpen(id) && !(s.streams[id].conn in s.clients && s.streams[id].conn in s.writing))
  }

  lemma {:induction false} SameTold(st: Stream, u: Stream, r: Result)
    requires st.stage == u.stage
    ensures Told(st, r) == Told(u, r)
  {
  }

  lemma {:induction false} ReadTold(st: Stream, r: Result)
    requires Reading(st) && st.chan != [] && OfEvent(r)
    ensures !Told(st, r) && !Told(Read(st), r) && Read(st).conn == st.conn
  {
  }

  lemma {:induction false} OwnTold(s: State, e: Event, t: State, id: u64, r: Result)
    requires NumbersOk(s) && t == Step(s, e) && id in t.streams && OfEvent(r)
    requires !(OfConn(e) || e.Handle? || e.Dispatch? || e.Emit? || e.Take? || e.Skip?)
    ensures id !in s.streams ==> !Told(t.streams[id], r)
    ensures id in s.streams ==> t.streams[id].conn == s.streams[id].conn && ToldBy(s, e, id, r, Told(t.streams[id], r))
  {
    if !Enabled(s, e) {
    } else if e.Arrive? {
      assert s.next + 1 !in s.streams;
    } else if e.id == id {
      OwnStep(s, e, t, id, r);
    } else {
      hide Told, Enabled, Read, Reading;
    }
  }

  lemma {:induction false} OwnStep(s: State, e: Event, t: State, id: u64, r: Result)
    requires t == Step(s, e) && Enabled(s, e) && id in s.streams && id in t.streams && OfEvent(r)
    requires e.Insert? || e.SendOpen? || e.Recv? || e.RecvNone? || e.Timeout? || e.GiveUp? || e.VisitorGone?
    requires e.id == id
    ensures t.streams[id].conn == s.streams[id].conn && ToldBy(s, e, id, r, Told(t.streams[id], r))
  {
    hide Read;
    if e.Recv? { ReadTold(s.streams[id], r); }
  }

  /** The run has sent the open_stream of `id` when its connection was not registered, or had been
      closed, or its writer task had ended. */
  predicate SentTooLate(es: seq<Event>, id: u64, c: Conn) {
    es != [] &&
    (SentTooLate(es[..|es| - 1], id, c) ||
     (es[|es| - 1] == SendOpen(id) && Enabled(Exec(es[..|es| - 1]), SendOpen(id)) &&
      (!Registered(es[..|es| - 1], c) || Closed(es[..|es| - 1], c) || WriterEnded(es[..|es| - 1], c))))
  }

  /** In every run, a visitor that is still there is told that the client is offline iff its
      open_stream was sent when its connection was not registered, or had been closed, or its
      writer task had ended. */
  lemma {:induction false} OfflineIff(es: seq<Event>, id: u64)
    requires id in Exec(es).streams && !Happened(es, VisitorGone(id))
    ensures Told(Exec(es).streams[id], Offline) <==> SentTooLate(es, id, Exec(es).streams[id].conn)
    decreases |es|
  {
    hide Step, Told, Registered, Closed, WriterEnded, Lost, NumbersOk;
    if es != [] {
      var run, e := es[..|es| - 1], es[|es| - 1];
      var s := Exec(run);
      StreamRuns.RunKeeps(run);
      StepTold(s, e, Exec(es), id, Offline);
      var c := Exec(es).streams[id].conn;
      StandsAlways(run, c);
      if id in s.streams {
        OfflineIff(run, id);
        GoneIsDone(s, id);
      } else {
        NeverSent(run, id, c);
      }
    }
  }

  /** In every run, a visitor that is still there is told that the client took too long iff its
      thirty seconds ended while it waited for a head. */
  lemma {:induction false} TimedOutIff(es: seq<Event>, id: u64)
    requires id in Exec(es).streams && !Happened(es, VisitorGone(id))
    ensures Told(Exec(es).streams[id], TimedOut) <==> Happened(es, Timeout(id))
    decreases |es|
  {
    hide Step, Told, NumbersOk;
    if es != [] {
      var run, e := es[..|es| - 1], es[|es| - 1];
      var s := Exec(run);
      StreamRuns.RunKeeps(run);
      StepTold(s, e, Exec(es), id, TimedOut);
      if id in s.streams {
        TimedOutIff(run, id);
        GoneIsDone(s, id);
      } else {
        NeverTimed(run, id);
      }
    }
  }

  lemma {:induction false} NeverTimed(es: seq<Event>, id: u64)
    requires id !in Exec(es).streams
    ensures !Happened(es, Timeout(id)) && !Enabled(Exec(es), Timeout(id))
    decreases |es|
  {
    hide Step;
    if es != [] {
      StreamsStay(Exec(es[..|es| - 1]), es[|es| - 1], id);
      NeverTimed(es[..|es| - 1], id);
    }
  }

  lemma {:induction false} GoneIsDone(s: State, id: u64)
    requires id in s.streams
    ensures Enabled(s, VisitorGone(id))
  {
  }

  lemma {:induction false} NeverSent(es: seq<Event>, id: u64, c: Conn)
    requires id !in Exec(es).streams
    ensures !SentTooLate(es, id, c)
    decreases |es|
  {
    hide Step, Registered, Closed, WriterEnded;
    if es != [] {
      StreamsStay(Exec(es[..|es| - 1]), es[|es| - 1], id);
      NeverSent(es[..|es| - 1], id, c);
    }
  }

  lemma {:induction false} StreamsStay(s: State, e: Event, id: u64)
    ensures id in s.streams ==> id in Step(s, e).streams
    ensures e == SendOpen(id) && Enabled(s, e) ==> id in s.streams
  {
    hide Readable, Sid, Terminal, Shaped, Read;
  }

  // ---- the table of waiting visitors ----

  /** The stream is over, yet its channel is in `pending` and nobody is about to remove it. */
  predicate Leaks(s: State, id: u64) {
    id in s.streams && s.streams[id].pending && Ended(s.streams[id])
    && !(s.streams[id].conn in s.taking && s.taking[s.streams[id].conn] == id)
  }

  /** What counts for the table. */
  predicate SameEntry(s: State, t: State, id: u64) {
    id in t.streams ==>
      id in s.streams && t.streams[id].conn == s.streams[id].conn && (t.streams[id].pending ==> s.streams[id].pending)
      && t.streams[id].known == s.streams[id].known && t.streams[id].script == s.streams[id].script
      && t.streams[id].handled == s.streams[id].handled
  }

  lemma {:induction false} SameLeaks(s: State, t: State, id: u64)
    requires SameEntry(s, t, id) && t.taking == s.taking && !Leaks(s, id)
    ensures !Leaks(t, id)
  {
    hide Readable;
  }

  lemma {:induction false} NotKnown(s: State, id: u64)
    requires id in s.streams && !s.streams[id].known
    ensures !Leaks(s, id)
  {
  }

  lemma {:induction false} OtherLeaks(s: State, e: Event, t: State, id: u64)
    requires t == Step(s, e) && !e.Handle? && !e.Take? && !e.Insert? && !e.Arrive? && !e.Dispatch?
    ensures SameEntry(s, t, id) && t.taking == s.taking
  {
    hide Readable, Sid, Terminal, Shaped, Route, Start, Read;
    if e.Recv? && Enabled(s, e) { ReadEntry(s.streams[e.id]); }
  }

  lemma {:induction false} ReadEntry(st: Stream)
    requires Reading(st) && st.chan != []
    ensures Read(st).conn == st.conn && Read(st).pending == st.pending && Read(st).known == st.known
    ensures Read(st).script == st.script && Read(st).handled == st.handled
  {
  }

  lemma {:induction false} RouteLeaks(s: State, c: Conn, t: State, id: u64)
    requires Inv(s) && c in s.up && s.up[c] != [] && c !in s.taking && t == Route(s, c) && !Leaks(s, id)
    ensures !Leaks(t, id)
  {
    hide Inv, StreamOk, Sid, Readable, Terminal, Ended;
    FrameOpened(s, c);
    var f := s.up[c][0];
    if id == Sid(f) {
      var st := s.streams[id];
      LastIsTerminal(s, c);
      EndedLast(st.(handled := st.handled + [f]));
      RouteEntry(s, c);
      EndedSame(t.streams[id], st.(handled := st.handled + [f]));
    } else {
      RouteOther(s, c, t, id);
    }
  }

  lemma {:induction false} RouteEntry(s: State, c: Conn)
    requires c in s.up && s.up[c] != [] && Sid(s.up[c][0]) in s.streams
    ensures var t, f := Route(s, c), s.up[c][0]; var id := Sid(f);
      && id in t.streams && t.streams[id].script == s.streams[id].script && t.streams[id].known == s.streams[id].known
      && t.streams[id].handled == s.streams[id].handled + [f] && t.streams[id].conn == s.streams[id].conn
      && t.taking == if Readable(f) && Terminal(f) then s.taking[c := id] else s.taking
  {
    hide Sid, Readable, Terminal;
  }

  lemma {:induction false} RouteOther(s: State, c: Conn, t: State, id: u64)
    requires c in s.up && s.up[c] != [] && c !in s.taking && t == Route(s, c) && id != Sid(s.up[c][0]) && !Leaks(s, id)
    ensures !Leaks(t, id)
  {
    hide Sid, Readable, Terminal, Ended;
  }

  lemma {:induction false} EndedLast(st: Stream)
    ensures Ended(st) ==> st.handled == st.script && st.handled != [] && Readable(st.handled[|st.handled| - 1])
  {
    hide Readable;
  }

  lemma {:induction false} EndedSame(st: Stream, u: Stream)
    requires st.known == u.known && st.script == u.script && st.handled == u.handled
    ensures Ended(st) == Ended(u)
  {
    hide Readable;
  }

  lemma {:induction false} FrameOpened(s: State, c: Conn)
    requires Inv(s) && c in s.up && s.up[c] != []
    ensures OpenedOn(s, Sid(s.up[c][0]), c)
  {
    hide StreamOk, Sid;
  }

  /** The frame that completes a script is a last one. */
  lemma {:induction false} LastIsTerminal(s: State, c: Conn)
    requires Inv(s) && c in s.up && s.up[c] != []
    ensures var f := s.up[c][0];
      OpenedOn(s, Sid(f), c) && (s.streams[Sid(f)].handled + [f] == s.streams[Sid(f)].script ==> Terminal(f))
  {
    hide UpOk, DownOk, TakingOk, NumbersOk, ChannelOk, StageOk, Only, Readable, Sid;
    var f := s.up[c][0];
    FrameOpened(s, c);
    var id := Sid(f);
    assert StreamOk(s, id);
    OnlyHead(s.up[c], id);
    CompletesLast(id, s.streams[id], f, Q(s, c, id), c in s.down);
  }

  lemma {:induction false} CompletesLast(id: u64, st: Stream, f: Frame, q: seq<Frame>, cli: bool)
    requires FlowOk(id, st, q, true, cli) && q != [] && q[0] == f
    ensures st.handled + [f] == st.script ==> Terminal(f)
  {
    hide Sid;
    assert (st.handled + q)[|st.handled|] == f;
  }

  lemma {:induction false} TakeLeaks(s: State, c: Conn, t: State, id: u64)
    requires c in s.taking && t == Step(s, Take(c)) && !Leaks(s, id)
    ensures !Leaks(t, id)
  {
    hide Readable;
  }

  lemma {:induction false} StepLeaks(s: State, e: Event, t: State, id: u64)
    requires Inv(s) && t == Step(s, e) && !Leaks(s, id)
    ensures !Leaks(t, id)
  {
    hide Leaks, Inv, SameEntry, Apply;
    if !Enabled(s, e) {
    } else if e.Handle? {
      HandleIsRoute(s, e.conn);
      RouteLeaks(s, e.conn, t, id);
    } else if e.Take? {
      TakeLeaks(s, e.conn, t, id);
    } else if e.Insert? || e.Arrive? || e.Dispatch? {
      StartLeaks(s, e, t, id);
    } else {
      OtherLeaks(s, e, t, id);
      SameLeaks(s, t, id);
    }
  }

  lemma {:induction false} HandleIsRoute(s: State, c: Conn)
    requires Enabled(s, Handle(c))
    ensures Step(s, Handle(c)) == Route(s, c) && c in s.up && s.up[c] != [] && c !in s.taking
  {
    hide Route;
  }

  lemma {:induction false} StartLeaks(s: State, e: Event, t: State, id: u64)
    requires Inv(s) && t == Step(s, e) && Enabled(s, e) && (e.Insert? || e.Arrive? || e.Dispatch?) && !Leaks(s, id)
    ensures !Leaks(t, id)
  {
    hide Inv, Leaks, Enabled, Step;
    if id in t.streams && !StartsEntry(s, e, id) {
      StartBeside(s, e, t, id);
      SameLeaks(s, t, id);
    } else {
      StartOwn(s, e, t, id);
    }
  }

  /** The entry that the event is about. */
  predicate StartsEntry(s: State, e: Event, id: u64) {
    match e
    case Insert(k) => id == k
    case Arrive(_) => id == s.next + 1
    case Dispatch(c, _) => c in s.down && s.down[c] != [] && id == s.down[c][0]
    case _ => false
  }

  lemma {:induction false} StartBeside(s: State, e: Event, t: State, id: u64)
    requires t == Step(s, e) && Enabled(s, e) && (e.Insert? || e.Arrive? || e.Dispatch?) && !StartsEntry(s, e, id)
    ensures SameEntry(s, t, id) && t.taking == s.taking
  {
    hide Readable, Shaped;
  }

  lemma {:induction false} StartOwn(s: State, e: Event, t: State, id: u64)
    requires Inv(s) && t == Step(s, e) && Enabled(s, e) && (e.Insert? || e.Arrive? || e.Dispatch?)
    requires id in t.streams ==> StartsEntry(s, e, id)
    ensures !Leaks(t, id)
  {
    hide Inv, Readable, Shaped;
    if id in s.streams { Unknown(s, id); }
    if e.Dispatch? {
      DispatchFresh(s, e.conn);
      SomeFrames(e.script, s.down[e.conn][0]);
    }
  }

  /** A stream that was not handed to the server yet has not been opened on the client. */
  lemma {:induction false} Unknown(s: State, id: u64)
    requires Inv(s) && id in s.streams
    ensures s.streams[id].stage.Allocated? ==> !s.streams[id].known
  {
    hide UpOk, DownOk, TakingOk, NumbersOk, FlowOk, ChannelOk;
    assert StreamOk(s, id);
  }

  lemma {:induction false} DispatchFresh(s: State, c: Conn)
    requires Inv(s) && c in s.down && s.down[c] != []
    ensures var id := s.down[c][0]; id in s.streams && !s.streams[id].known && s.streams[id].handled == []
  {
    hide StreamOk, UpOk, TakingOk, NumbersOk;
    var id := s.down[c][0];
    assert Fresh(s, id, c);
    StreamAt(s, id);
  }

  /** In every run, a channel stays in `pending` after its last frame was handled only until the same
      handler removes it, which is its next step. */
  lemma {:induction false} NoLeak(es: seq<Event>, id: u64)
    ensures !Leaks(Exec(es), id)
    decreases |es|
  {
    hide Step, Leaks, StreamRuns.Inv;
    if es == [] {
      NothingLeaks(id);
    } else {
      NoLeak(es[..|es| - 1], id);
      StreamRuns.RunKeeps(es[..|es| - 1]);
      StepLeaks(Exec(es[..|es| - 1]), es[|es| - 1], Exec(es), id);
    }
  }

  lemma {:induction false} NothingLeaks(id: u64)
    ensures !Leaks(INIT, id)
  {
  }

  /** The visitor was told an error, yet its channel is in `pending`. */
  predicate Kept(s: State, id: u64) {
    id in s.streams && s.streams[id].pending && s.streams[id].stage.Finished?
    && !s.streams[id].stage.result.Ok? && !s.streams[id].stage.result.CutOff?
  }

  lemma {:induction false} StepKept(s: State, e: Event, t: State, id: u64)
    requires NumbersOk(s) && t == Step(s, e) && !Kept(s, id)
    ensures !Kept(t, id)
  {
    hide NumbersOk, Kept, Step, Enabled;
    if OfConn(e) || e.Handle? || e.Dispatch? || e.Emit? || e.Take? || e.Skip? {
      QueueVisitor(s, e, t, id);
      QueuePending(s, e, t, id);
      SameKept(s, t, id);
    } else {
      OwnKept(s, e, t, id);
    }
  }

  lemma {:induction false} SameKept(s: State, t: State, id: u64)
    requires SameVisitor(s, t, id) && !Kept(s, id) && (id in s.streams && t.streams[id].pending ==> s.streams[id].pending)
    ensures !Kept(t, id)
  {
  }

  lemma {:induction false} QueuePending(s: State, e: Event, t: State, id: u64)
    requires t == Step(s, e) && (OfConn(e) || e.Handle? || e.Dispatch? || e.Emit? || e.Take? || e.Skip?)
    requires SameVisitor(s, t, id)
    ensures id in s.streams && t.streams[id].pending ==> s.streams[id].pending
  {
    hide Readable, Sid, Terminal, Shaped, Read;
  }

  lemma {:induction false} OwnKept(s: State, e: Event, t: State, id: u64)
    requires NumbersOk(s) && t == Step(s, e) && !Kept(s, id)
    requires !(OfConn(e) || e.Handle? || e.Dispatch? || e.Emit? || e.Take? || e.Skip?)
    ensures !Kept(t, id)
  {
    if !Enabled(s, e) {
    } else if e.Arrive? {
      assert s.next + 1 !in s.streams;
    } else if e.Recv? && e.id == id {
      hide Read;
      ReadKept(s.streams[id]);
    } else {
      hide Read;
    }
  }

  lemma {:induction false} ReadKept(st: Stream)
    requires Reading(st) && st.chan != []
    ensures Read(st).stage.Finished? ==> Read(st).stage.result.Ok? || Read(st).stage.result.CutOff?
  {
  }

  /** In every run, a visitor that was told an error has no channel in `pending` any more. */
  lemma {:induction false} ErrorsRemoved(es: seq<Event>, id: u64)
    ensures !Kept(Exec(es), id)
    decreases |es|
  {
    hide Step, Kept, NumbersOk;
    if es == [] {
      NothingKept(id);
    } else {
      ErrorsRemoved(es[..|es| - 1], id);
      StreamRuns.RunKeeps(es[..|es| - 1]);
      StepKept(Exec(es[..|es| - 1]), es[|es| - 1], Exec(es), id);
    }
  }

  lemma {:induction false} NothingKept(id: u64)
    ensures !Kept(INIT, id)
  {
  }

  // ---- a connection that closes under a response ----

  /** The visitor is in the middle of a response, and the server has closed its connection. */
  predicate Stranded(s: State, id: u64) {
    id in s.streams && s.streams[id].stage.Streaming? && s.streams[id].conn !in s.up
  }

  predicate EndArrived(st: Stream) { exists i :: 0 <= i < |st.chan| && Terminal(st.chan[i]) }

  /** Nothing of the stream is left that could end its response. */
  predicate Stuck(s: State, id: u64) { Stranded(s, id) && !EndArrived(s.streams[id]) }

  lemma {:induction false} RouteStuck(s: State, c: Conn, t: State, id: u64)
    requires Inv(s) && c in s.up && s.up[c] != [] && t == Route(s, c) && Stuck(s, id)
    ensures Stuck(t, id)
  {
    hide Inv, StreamOk, Readable, Terminal, Sid, EndArrived;
    FrameOpened(s, c);
  }

  lemma {:induction false} ReadStuck(st: Stream)
    requires st.stage.Streaming? && st.chan != [] && !EndArrived(st)
    ensures Read(st).stage.Streaming? && !EndArrived(Read(st)) && Read(st).conn == st.conn
  {
    assert !Terminal(st.chan[0]);
    assert forall i :: 0 <= i < |st.chan| - 1 ==> st.chan[1..][i] == st.chan[i + 1];
  }

  lemma {:induction false} StepStuck(s: State, e: Event, t: State, id: u64)
    requires Inv(s) && t == Step(s, e) && Stuck(s, id) && e != VisitorGone(id)
    ensures Stuck(t, id)
  {
    hide Inv, EndArrived, Apply;
    ConnKnown(s, id);
    NeverClosedEarly(s, id);
    if !Enabled(s, e) {
    } else if e.Handle? {
      HandleIsRoute(s, e.conn);
      RouteStuck(s, e.conn, t, id);
    } else if e == Recv(id) {
      RecvStuck(s, id, t);
    } else {
      SameChannel(s, e, t, id);
      SameEnd(s.streams[id], t.streams[id]);
    }
  }

  lemma {:induction false} RecvStuck(s: State, id: u64, t: State)
    requires Stuck(s, id) && Enabled(s, Recv(id)) && t == Step(s, Recv(id))
    ensures Stuck(t, id)
  {
    hide EndArrived, Read;
    ReadStuck(s.streams[id]);
  }

  lemma {:induction false} SameEnd(st: Stream, u: Stream)
    requires st.chan == u.chan
    ensures EndArrived(st) == EndArrived(u)
  {
  }

  /** Only routing and reading touch a channel, and only opening makes a connection. */
  lemma {:induction false} SameChannel(s: State, e: Event, t: State, id: u64)
    requires t == Step(s, e) && !e.Handle? && e != Recv(id) && id in s.streams && id <= s.next
    ensures id in t.streams && t.streams[id].chan == s.streams[id].chan && t.streams[id].conn == s.streams[id].conn
    ensures t.streams[id].conn in t.up ==> t.streams[id].conn in s.up || t.streams[id].conn == s.conns
    ensures s.streams[id].stage.Streaming? && e != VisitorGone(id) && (e == RecvNone(id) ==> !Enabled(s, e)) ==>
      t.streams[id].stage.Streaming?
  {
    if OfConn(e) {
      hide Readable, Shaped;
      assert t.streams == s.streams;
    } else {
      hide OfConn, SameStanding;
      OtherChannel(s, e, t, id);
    }
  }

  lemma {:induction false} OtherChannel(s: State, e: Event, t: State, id: u64)
    requires t == Step(s, e) && !OfConn(e) && !e.Handle? && e != Recv(id) && id in s.streams && id <= s.next
    ensures id in t.streams && t.streams[id].chan == s.streams[id].chan && t.streams[id].conn == s.streams[id].conn
    ensures t.up.Keys == s.up.Keys
    ensures s.streams[id].stage.Streaming? && e != VisitorGone(id) && (e == RecvNone(id) ==> !Enabled(s, e)) ==>
      t.streams[id].stage.Streaming?
  {
    hide Readable, Terminal, Sid, Shaped, Read, Route, Start, Push, Lose;
    OtherStands(s, e, t);
    if e.Dispatch? || e.Emit? || e.Take? || e.Skip? {
      hide Step, Enabled;
      QueueVisitor(s, e, t, id);
      QueueChannel(s, e, t, id);
    }
  }

  lemma {:induction false} QueueChannel(s: State, e: Event, t: State, id: u64)
    requires t == Step(s, e) && (e.Dispatch? || e.Emit? || e.Take? || e.Skip?) && id in s.streams
    ensures id in t.streams && t.streams[id].chan == s.streams[id].chan
  {
    hide Readable, Shaped;
  }

  lemma {:induction false} ConnKnown(s: State, id: u64)
    requires Inv(s) && id in s.streams
    ensures s.streams[id].conn < s.conns && id <= s.next
  {
    hide StreamOk, UpOk, DownOk, TakingOk;
  }

  /** The `i`-th of these events is not the visitor going away. */
  predicate Stays(es: seq<Event>, id: u64) { forall i :: 0 <= i < |es| ==> es[i] != VisitorGone(id) }

  lemma {:induction false} StuckForever(es: seq<Event>, more: seq<Event>, id: u64)
    requires Stuck(Exec(es), id) && Stays(more, id)
    ensures Stuck(Exec(es + more), id)
    decreases |more|
  {
    hide Step, Stuck, StreamRuns.Inv;
    if more == [] {
      assert es + more == es;
    } else {
      var k := |more| - 1;
      StuckForever(es, more[..k], id);
      assert (es + more)[..|es| + k] == es + more[..k];
      StreamRuns.RunKeeps(es + more[..k]);
      StepStuck(Exec(es + more[..k]), more[k], Exec(es + more), id);
    }
  }

  lemma {:induction false} ReadOn(s: State, id: u64, i: nat)
    requires Inv(s) && id in s.streams && s.streams[id].stage.Streaming?
    requires i < |s.streams[id].chan| && Terminal(s.streams[id].chan[i])
    ensures var t := Step(s, Recv(id));
      id in t.streams &&
      (t.streams[id].stage.Finished? ||
       (t.streams[id].stage.Streaming? && 0 < i && i - 1 < |t.streams[id].chan| && Terminal(t.streams[id].chan[i - 1])))
  {
    hide Readable, Sid, Shaped, StreamRuns.Inv, DataOf;
    StreamAt(s, id);
    KnownIfRead(s, id);
    var st := s.streams[id];
    ChunkOrEnd(st, id);
    if i > 0 { assert st.chan[1..][i - 1] == st.chan[i]; }
  }

  /** After a head come chunks and the end. */
  lemma {:induction false} ChunkOrEnd(st: Stream, id: u64)
    requires Shaped(st.script, id) && st.received + st.chan <= Sift(st.script) && st.chan != []
    ensures var f := st.chan[0]; f.ResponseHead? || f.Chunk? || f.End? || f.Abort?
  {
    hide Shaped, Sift;
    var r := st.received + [st.chan[0]];
    assert r + st.chan[1..] == st.received + st.chan;
    ShapeFacts(st.script, id, r);
    assert r[|r| - 1] == st.chan[0];
  }

  lemma {:induction false} ReadsToEnd(es: seq<Event>, id: u64, i: nat) returns (more: seq<Event>)
    requires id in Exec(es).streams && Exec(es).streams[id].stage.Streaming?
    requires i < |Exec(es).streams[id].chan| && Terminal(Exec(es).streams[id].chan[i])
    ensures Stays(more, id) && id in Exec(es + more).streams && Exec(es + more).streams[id].stage.Finished?
    decreases i
  {
    hide Step, StreamRuns.Inv, Terminal;
    StreamRuns.RunKeeps(es);
    ReadOn(Exec(es), id, i);
    var run := es + [Recv(id)];
    assert run[..|es|] == es;
    more := [Recv(id)];
    if !Exec(run).streams[id].stage.Finished? {
      var rest := ReadsToEnd(run, id, i - 1);
      assert run + rest == es + ([Recv(id)] + rest);
      more := [Recv(id)] + rest;
    }
  }

  /** A response whose connection the server has closed ends for a visitor that stays iff the last
      frame has arrived in its channel. Otherwise it hangs for good: its sender stays in `pending`,
      and no timeout is set once the head is there. */
  lemma {:induction false} StrandedIff(es: seq<Event>, id: u64)
    requires Stranded(Exec(es), id)
    ensures (exists more :: Stays(more, id) && Ends(es, more, id)) <==> EndArrived(Exec(es).streams[id])
    ensures !EndArrived(Exec(es).streams[id]) ==> forall more :: Stays(more, id) ==> Stuck(Exec(es + more), id)
  {
    hide Exec, Terminal;
    if EndArrived(Exec(es).streams[id]) {
      var i: nat :| i < |Exec(es).streams[id].chan| && Terminal(Exec(es).streams[id].chan[i]);
      var more := ReadsToEnd(es, id, i);
      assert Ends(es, more, id);
    } else {
      forall more | Stays(more, id) ensures Stuck(Exec(es + more), id) && !Ends(es, more, id) {
        StuckForever(es, more, id);
      }
    }
  }

  predicate Ends(es: seq<Event>, more: seq<Event>, id: u64) {
    id in Exec(es + more).streams && Exec(es + more).streams[id].stage.Finished?
  }
}
