/** Any number of worker jobs sharing the keep-alive pool, interleaved in any way.

    A step is what one thread does without letting go of the pool lock, or on its own
    connection: take or open a connection, exchange one request and response on it, put it
    back; besides, the pool is purged, and services say anything and close connections at any
    time. */
module PoolRuns {
  import opened Bytes
  import opened HttpBody
  import opened Chunked
  import opened HttpHead
  import opened HttpExchange
  import L = LocalPool

  datatype Sock = Sock(id: nat)
  datatype Job = Job(id: nat)

  /** A connection: all that it has delivered or will deliver for the requests written so far,
      how far that was read, whether the service still answers on it, and whether anything was
      said on it but well-formed responses whose CRLF reads were not split. */
  datatype Conn = Conn(addr: Str, data: seq<byte>, pos: nat, open: bool, spoilt: bool)

  datatype Phase =
    | Waiting(attempt: nat)
    | Dialling(attempt: nat)
    | Holding(attempt: nat, sock: Sock, reused: bool)
    | Releasing(sock: Sock, meta: Meta, body: Str)
    | Aborted
    | Answered(meta: Meta, body: Str)

  datatype Stream = Stream(addr: Str, phase: Phase)

  datatype State = State(idle: L.Pools<Sock>, conns: map<Sock, Conn>, jobs: map<Job, Stream>)

  datatype Event =
    | Submit(job: Job, addr: Str)
    | Acquire(job: Job, now: int)
    | Connect(job: Job, sock: Sock)
    | ConnectFails(job: Job)
    | Serve(job: Job, resp: Response, said: seq<byte>, stays: bool, cuts: set<nat>, writable: bool)
    | Release(job: Job, now: int)
    | Purge(now: int)
    | Speak(sock: Sock, said: seq<byte>)
    | Close(sock: Sock)

  const INIT := State(map[], map[], map[])

  function SetPhase(s: State, j: Job, p: Phase): State
    requires j in s.jobs
  {
    s.(jobs := s.jobs[j := s.jobs[j].(phase := p)])
  }

  function StepAcquire(s: State, j: Job, now: int): State
    requires j in s.jobs && s.jobs[j].phase.Waiting?
  {
    var addr, k := s.jobs[j].addr, s.jobs[j].phase.attempt;
    var got := L.Acquired(s.idle, addr, now);
    SetPhase(s.(idle := L.AfterAcquire(s.idle, addr, now)), j,
             match got case Some(c) => Holding(k, c, true) case None => Dialling(k))
  }

  /** The service means to answer `e.resp` and sends any bytes, unless the connection is closed. */
  function Sent(c: Conn, e: Event): seq<byte>
    requires e.Serve?
  {
    if c.open then e.said else []
  }

  /** The service sends a response, or as much of it as it pleases. */
  predicate Fair(e: Event)
    requires e.Serve?
  {
    ResponseOk(e.resp) && e.said <= ResponseBytes(e.resp)
  }

  /** The service closes a connection on which it has broken off, or a body that ends by that. */
  predicate StaysIfDone(e: Event)
    requires e.Serve?
  {
    e.stays ==> e.said == ResponseBytes(e.resp) && !e.resp.body.Streamed?
  }

  /** The exchange may leave the connection elsewhere than behind the response. */
  predicate Spoils(c: Conn, e: Event)
    requires e.Serve?
  {
    c.open && !(Fair(e) && StaysIfDone(e) && Unsplit(e.cuts, c.pos, e.resp))
  }

  ghost function StepServe(s: State, e: Event): State
    requires e.Serve? && HoldsReadable(s, e.job)
  {
    var ph := s.jobs[e.job].phase;
    var c := s.conns[ph.sock];
    var c' := c.(data := c.data + Sent(c, e), open := c.open && e.stays, spoilt := c.spoilt || Spoils(c, e));
    match Exchange(c'.data, e.cuts, c.pos, e.writable)
    case Retry =>
      SetPhase(s.(conns := s.conns[ph.sock := c']), e.job,
               if ph.reused && ph.attempt == 0 then Waiting(1) else Aborted)
    case Done(m, body, stop, keep) =>
      SetPhase(s.(conns := s.conns[ph.sock := c'.(pos := stop)]),
               e.job, if keep then Releasing(ph.sock, m, body) else Answered(m, body))
  }

  predicate HoldsReadable(s: State, j: Job) {
    j in s.jobs && s.jobs[j].phase.Holding? && s.jobs[j].phase.sock in s.conns
    && s.conns[s.jobs[j].phase.sock].pos <= |s.conns[s.jobs[j].phase.sock].data|
  }

  /** The event can happen in `s`. */
  ghost predicate Enabled(s: State, e: Event) {
    match e
    case Submit(j, _) => j !in s.jobs
    case Acquire(j, _) => j in s.jobs && s.jobs[j].phase.Waiting?
    case Connect(j, c) => j in s.jobs && s.jobs[j].phase.Dialling? && c !in s.conns
    case ConnectFails(j) => j in s.jobs && s.jobs[j].phase.Dialling?
    case Serve(j, _, _, _, _, _) => HoldsReadable(s, j)
    case Release(j, _) => j in s.jobs && s.jobs[j].phase.Releasing?
    case Purge(_) => true
    case Speak(c, _) => c in s.conns && s.conns[c].open
    case Close(c) => c in s.conns
  }

  /** One step; an event that cannot happen changes nothing. */
  ghost function Step(s: State, e: Event): State {
    if !Enabled(s, e) then s
    else match e
      case Submit(j, addr) => s.(jobs := s.jobs[j := Stream(addr, Waiting(0))])
      case Acquire(j, now) => StepAcquire(s, j, now)
      case Connect(j, c) =>
        SetPhase(s.(conns := s.conns[c := Conn(s.jobs[j].addr, [], 0, true, false)]), j, Holding(s.jobs[j].phase.attempt, c, false))
      case ConnectFails(j) => SetPhase(s, j, Aborted)
      case Serve(_, _, _, _, _, _) => StepServe(s, e)
      case Release(j, now) =>
        var ph := s.jobs[j].phase;
        SetPhase(s.(idle := L.AfterRelease(s.idle, s.jobs[j].addr, ph.sock, now)), j, Answered(ph.meta, ph.body))
      case Purge(now) => s.(idle := L.AfterPurge(s.idle, now))
      case Speak(c, said) => s.(conns := s.conns[c := s.conns[c].(data := s.conns[c].data + said, spoilt := true)])
      case Close(c) => s.(conns := s.conns[c := s.conns[c].(open := false)])
  }

  ghost function Exec(es: seq<Event>): State {
    if es == [] then INIT else Step(Exec(es[..|es| - 1]), es[|es| - 1])
  }

  // ---- the invariant ----

  type Conns = map<Sock, Conn>
  type Jobs = map<Job, Stream>

  /** The connection exists, belongs to `addr`, and everything it delivered has been read, or it
      is spoilt. */
  predicate Drained(conns: Conns, c: Sock, addr: Str) {
    c in conns && conns[c].addr == addr && conns[c].pos <= |conns[c].data| && (!conns[c].spoilt ==> conns[c].pos == |conns[c].data|)
  }

  predicate Holds(jobs: Jobs, j: Job, c: Sock) {
    j in jobs && (jobs[j].phase.Holding? || jobs[j].phase.Releasing?) && jobs[j].phase.sock == c
  }

  predicate IdleAt(idle: L.Pools<Sock>, a: Str, i: nat, c: Sock) {
    a in idle && i < |idle[a]| && idle[a][i].sock == c
  }

  /** Idle connections are drained, each idle once, at most eight under an address. */
  ghost predicate IdleOk(idle: L.Pools<Sock>, conns: Conns) {
    && (forall a, i, c :: IdleAt(idle, a, i, c) ==> Drained(conns, c, a))
    && (forall a, i, b, j, c :: IdleAt(idle, a, i, c) && IdleAt(idle, b, j, c) ==> a == b && i == j)
    && (forall a :: a in idle ==> |idle[a]| <= L.MAX_IDLE)
  }

  /** A held connection is drained, not idle, and held by one job only. */
  ghost predicate HeldOk(jobs: Jobs, idle: L.Pools<Sock>, conns: Conns) {
    && (forall j, c :: Holds(jobs, j, c) ==> Drained(conns, c, jobs[j].addr))
    && (forall j, c, a, i :: Holds(jobs, j, c) ==> !IdleAt(idle, a, i, c))
    && (forall j, k, c :: Holds(jobs, j, c) && Holds(jobs, k, c) ==> j == k)
  }

  predicate Got(jobs: Jobs, j: Job) {
    j in jobs && (jobs[j].phase.Releasing? || jobs[j].phase.Answered?)
  }

  ghost predicate Inv(s: State) {
    IdleOk(s.idle, s.conns) && HeldOk(s.jobs, s.idle, s.conns)
  }

  // ---- every step keeps it ----

  /** The job's entry changes, and it holds nothing before and after. */
  lemma {:induction false} FreeJob(s: State, j: Job, st: Stream)
    requires Inv(s) && (st.phase.Waiting? || st.phase.Dialling? || st.phase.Aborted?)
    requires forall c :: !Holds(s.jobs, j, c)
    ensures Inv(s.(jobs := s.jobs[j := st]))
  {
    hide Drained, IdleAt, IdleOk;
    var jobs := s.jobs[j := st];
    forall k, c | Holds(jobs, k, c) ensures Holds(s.jobs, k, c) && jobs[k] == s.jobs[k] {}
  }

  /** A job takes a connection nobody has. */
  lemma {:induction false} Takes(s: State, j: Job, st: Stream, c: Sock)
    requires Inv(s) && st.phase.Holding? && st.phase.sock == c && Drained(s.conns, c, st.addr)
    requires forall x :: !Holds(s.jobs, j, x)
    requires forall k :: !Holds(s.jobs, k, c)
    requires forall a, i :: !IdleAt(s.idle, a, i, c)
    ensures Inv(s.(jobs := s.jobs[j := st]))
  {
    hide Drained, IdleAt, IdleOk;
    var jobs := s.jobs[j := st];
    forall k, x | Holds(jobs, k, x) ensures (k == j && x == c) || (k != j && Holds(s.jobs, k, x) && jobs[k] == s.jobs[k]) {}
  }

  lemma {:induction false} TakeOff(s: State, addr: Str, now: int)
    requires Inv(s)
    ensures var t := s.(idle := L.AfterAcquire(s.idle, addr, now)); var got := L.Acquired(s.idle, addr, now);
      && Inv(t)
      && (got.Some? ==>
            && Drained(t.conns, got.value, addr) && (forall k :: !Holds(t.jobs, k, got.value))
            && forall a, i :: !IdleAt(t.idle, a, i, got.value))
  {
    hide Drained, L.Acquired, L.Kept;
    L.AcquireTakes(s.idle, addr, now);
    var idle := L.AfterAcquire(s.idle, addr, now);
    forall a: Str, i: nat, c | IdleAt(idle, a, i, c) ensures IdleAt(s.idle, a, i, c) {}
    var got := L.Acquired(s.idle, addr, now);
    if got.Some? {
      var n := |L.Entry(idle, addr)|;
      assert IdleAt(s.idle, addr, n, got.value);
      forall a: Str, i: nat | IdleAt(idle, a, i, got.value) ensures a == addr && i == n {}
    }
  }

  lemma {:induction false} AcquireKeeps(s: State, j: Job, now: int)
    requires Inv(s) && j in s.jobs && s.jobs[j].phase.Waiting?
    ensures Inv(StepAcquire(s, j, now))
  {
    hide Inv, L.AfterAcquire, L.Acquired, Drained, IdleAt;
    var addr := s.jobs[j].addr;
    TakeOff(s, addr, now);
    var t := s.(idle := L.AfterAcquire(s.idle, addr, now));
    var got := L.Acquired(s.idle, addr, now);
    if got.Some? {
      Takes(t, j, Stream(addr, Holding(s.jobs[j].phase.attempt, got.value, true)), got.value);
    } else {
      FreeJob(t, j, Stream(addr, Dialling(s.jobs[j].phase.attempt)));
    }
  }

  /** Connections appear, or change without anybody noticing. */
  lemma {:induction false} OtherConns(s: State, conns: Conns)
    requires Inv(s) && forall c, a :: Drained(s.conns, c, a) ==> Drained(conns, c, a)
    ensures Inv(s.(conns := conns))
  {
    hide Drained;
  }

  lemma {:induction false} Unknown(s: State, c: Sock)
    requires Inv(s) && c !in s.conns
    ensures forall j :: !Holds(s.jobs, j, c)
    ensures forall a, i :: !IdleAt(s.idle, a, i, c)
  {
    hide IdleAt, Holds;
  }

  lemma {:induction false} ConnectKeeps(s: State, j: Job, c: Sock)
    requires Inv(s) && j in s.jobs && s.jobs[j].phase.Dialling? && c !in s.conns
    ensures Inv(Step(s, Connect(j, c)))
  {
    hide Inv, IdleAt;
    var addr := s.jobs[j].addr;
    var conns := s.conns[c := Conn(addr, [], 0, true, false)];
    Unknown(s, c);
    OtherConns(s, conns);
    Takes(s.(conns := conns), j, Stream(addr, Holding(s.jobs[j].phase.attempt, c, false)), c);
  }

  /** A connection on which the service said nothing more. */
  lemma {:induction false} Silent(d: seq<byte>, cuts: set<nat>, writable: bool)
    ensures Exchange(d, cuts, |d|, writable).Retry?
  {
    NoHead(d, |d|, 0);
  }

  /** One exchange on a drained connection: what is forwarded comes from this response, and if
      the connection is kept and no CRLF read was split, it is drained again. */
  lemma {:induction false} ServeOne(data: seq<byte>, r: Response, said: seq<byte>, cuts: set<nat>)
    requires ResponseOk(r) && said <= ResponseBytes(r)
    ensures var d := data + said; var x := Exchange(d, cuts, |data|, true);
      x.Done? ==>
        && (x.keep && Unsplit(cuts, |data|, r) ==> x.stop == |d|) && x.meta == MetaOf(r) && x.body <= BodyOf(r.body)
        && (x.body == BodyOf(r.body) <==> InnerUnsplit(cuts, |data|, r) && BodyEnd(|data|, r) <= |d|)
  {
    hide Exchange, MetaOf, Unsplit, InnerUnsplit, BodyEnd, ResponseOk;
    var w := ResponseBytes(r);
    var d := data + said;
    forall i | 0 <= i < |w| && |data| + i < |d| ensures d[|data| + i] == w[i] {}
    assert Delivers(d, |data|, r);
    ResponseIsRead(d, cuts, |data|, r);
  }

  lemma {:induction false} ServeKeeps(s: State, e: Event)
    requires Inv(s) && e.Serve? && Enabled(s, e)
    ensures Inv(StepServe(s, e))
  {
    hide Exchange, ResponseOk, ResponseBytes, Unsplit, InnerUnsplit, BodyEnd, BodyOf, MetaOf, IdleOk;
    var j := e.job;
    var ph := s.jobs[j].phase;
    assert Holds(s.jobs, j, ph.sock);
    var c := s.conns[ph.sock];
    if !c.open || !e.writable {
      assert c.data + [] == c.data;
      Silent(c.data, e.cuts, e.writable);
      NotWritten(c.data + Sent(c, e), e.cuts, c.pos);
    } else if Fair(e) && c.pos == |c.data| {
      ServeOne(c.data, e.resp, e.said, e.cuts);
    }
    ServeFrame(s, StepServe(s, e), j, ph.sock);
  }

  lemma {:induction false} NotWritten(d: seq<byte>, cuts: set<nat>, p: nat)
    requires p <= |d|
    ensures Exchange(d, cuts, p, false).Retry?
  {
  }

  /** A step that touches nothing but one job and the connection it holds. */
  lemma {:induction false} ServeFrame(s: State, t: State, j: Job, c: Sock)
    requires Inv(s) && Holds(s.jobs, j, c) && c in s.conns
    requires t.idle == s.idle && t.conns.Keys == s.conns.Keys && forall x :: x in s.conns && x != c ==> t.conns[x] == s.conns[x]
    requires t.jobs.Keys == s.jobs.Keys && forall k :: k in s.jobs && k != j ==> t.jobs[k] == s.jobs[k]
    requires forall x :: Holds(t.jobs, j, x) ==> x == c && Drained(t.conns, c, t.jobs[j].addr)
    ensures Inv(t)
  {
    hide IdleAt;
    forall x, a | x != c && Drained(s.conns, x, a) ensures Drained(t.conns, x, a) {}
    forall k, x | Holds(t.jobs, k, x) && k != j ensures Holds(s.jobs, k, x) && x != c {
      assert Holds(s.jobs, k, x);
    }
    assert IdleOk(t.idle, t.conns);
    assert HeldOk(t.jobs, t.idle, t.conns);
  }

  /** A job gives its connection back to the pool, or the pool is full and it is dropped. */
  lemma {:induction false} ReleaseKeeps(s: State, j: Job, now: int)
    requires Inv(s) && j in s.jobs && s.jobs[j].phase.Releasing?
    ensures Inv(Step(s, Release(j, now)))
  {
    hide Drained;
    var t := Step(s, Release(j, now));
    var c, addr := s.jobs[j].phase.sock, s.jobs[j].addr;
    var n := |L.Entry(s.idle, addr)|;
    assert Holds(s.jobs, j, c);
    forall a: Str, i: nat, x | IdleAt(t.idle, a, i, x) ensures IdleAt(s.idle, a, i, x) || (a == addr && i == n && x == c) {}
    forall k, x | Holds(t.jobs, k, x) ensures Holds(s.jobs, k, x) && k != j && x != c {
      assert Holds(s.jobs, k, x);
    }
  }

  ghost predicate Somewhere(idle: L.Pools<Sock>, a: Str, c: Sock) {
    exists k :: IdleAt(idle, a, k, c)
  }

  predicate Apart(v: seq<L.Idle<Sock>>) {
    forall i, k :: 0 <= i < k < |v| ==> v[i].sock != v[k].sock
  }

  lemma {:induction false} UnstaleApart(v: seq<L.Idle<Sock>>, now: int)
    requires Apart(v)
    ensures Apart(L.Unstale(v, now))
    decreases |v|
  {
    if v != [] {
      var w, c := v[..|v| - 1], v[|v| - 1];
      UnstaleApart(w, now);
      L.UnstaleKeeps(w, now);
      var u := L.Unstale(w, now);
      forall i | 0 <= i < |u| ensures u[i].sock != c.sock {
        assert u[i] in w;
      }
    }
  }

  lemma {:induction false} PurgeOne(s: State, a: Str, now: int)
    requires Inv(s) && a in s.idle
    ensures var u := L.Unstale(s.idle[a], now);
      Apart(u) && |u| <= |s.idle[a]| && forall i :: 0 <= i < |u| ==> Somewhere(s.idle, a, u[i].sock)
  {
    hide Drained;
    var v: seq<L.Idle<Sock>>, u: seq<L.Idle<Sock>> := s.idle[a], L.Unstale(s.idle[a], now);
    forall i, k | 0 <= i < k < |v| ensures v[i].sock != v[k].sock {
      assert IdleAt(s.idle, a, i, v[i].sock) && IdleAt(s.idle, a, k, v[k].sock);
    }
    UnstaleApart(v, now);
    L.UnstaleKeeps(v, now);
    forall i | 0 <= i < |u| ensures Somewhere(s.idle, a, u[i].sock) {
      assert u[i] in v;
      var k :| 0 <= k < |v| && v[k] == u[i];
      assert IdleAt(s.idle, a, k, u[i].sock);
    }
  }

  lemma {:induction false} PurgeKeeps(s: State, now: int)
    requires Inv(s)
    ensures Inv(s.(idle := L.AfterPurge(s.idle, now)))
  {
    hide L.Unstale, Drained;
    var idle: L.Pools<Sock> := L.AfterPurge(s.idle, now);
    forall a | a in s.idle
      ensures forall i :: 0 <= i < |idle[a]| ==> Somewhere(s.idle, a, idle[a][i].sock)
      ensures Apart(idle[a]) && |idle[a]| <= |s.idle[a]|
    {
      PurgeOne(s, a, now);
    }
    forall a: Str, i: nat, c | IdleAt(idle, a, i, c) ensures Somewhere(s.idle, a, c) {}
    assert IdleOk(idle, s.conns) by {
      forall a: Str, i: nat, b: Str, k: nat, c | IdleAt(idle, a, i, c) && IdleAt(idle, b, k, c) ensures a == b && i == k {
        var x :| IdleAt(s.idle, a, x, c);
        var y :| IdleAt(s.idle, b, y, c);
        assert a == b && idle[a][i].sock == idle[a][k].sock && Apart(idle[a]);
      }
    }
  }

  lemma {:induction false} StepKeeps(s: State, e: Event)
    requires Inv(s)
    ensures Inv(Step(s, e))
  {
    hide Inv, StepAcquire, StepServe, L.AfterPurge, L.AfterRelease;
    if Enabled(s, e) {
      match e
      case Submit(j, addr) => FreeJob(s, j, Stream(addr, Waiting(0)));
      case Acquire(j, now) => AcquireKeeps(s, j, now);
      case Connect(j, c) => ConnectKeeps(s, j, c);
      case ConnectFails(j) => FreeJob(s, j, s.jobs[j].(phase := Aborted));
      case Serve(_, _, _, _, _, _) => ServeKeeps(s, e);
      case Release(j, now) => ReleaseKeeps(s, j, now);
      case Purge(now) => PurgeKeeps(s, now);
      case Speak(c, said) => OtherConns(s, s.conns[c := s.conns[c].(data := s.conns[c].data + said, spoilt := true)]);
      case Close(c) => OtherConns(s, s.conns[c := s.conns[c].(open := false)]);
    }
  }

  lemma {:induction false} RunKeeps(es: seq<Event>)
    ensures Inv(Exec(es))
    decreases |es|
  {
    hide Step, Inv;
    if es == [] {
      InitOk();
    } else {
      RunKeeps(es[..|es| - 1]);
      StepKeeps(Exec(es[..|es| - 1]), es[|es| - 1]);
    }
  }

  lemma {:induction false} InitOk()
    ensures Inv(INIT)
  {
  }

  // ---- over whole runs ----

  /** The event spoils the connection: bytes that no request asked for, a malformed response, one
      that was broken off on a connection left open, or a split CRLF read. */
  ghost predicate SpoilsNow(s: State, e: Event, c: Sock) {
    && Enabled(s, e) && c in s.conns
    && ((e.Speak? && e.sock == c) || (e.Serve? && s.jobs[e.job].phase.sock == c && Spoils(s.conns[c], e)))
  }

  ghost predicate SpoilsAt(es: seq<Event>, k: nat, c: Sock)
    requires k < |es|
  {
    SpoilsNow(Exec(es[..k]), es[k], c)
  }

  predicate Spoilt(s: State, c: Sock) { c in s.conns && s.conns[c].spoilt }

  lemma {:induction false} SpoiltAfter(s: State, e: Event, c: Sock)
    ensures Spoilt(Step(s, e), c) <==> Spoilt(s, c) || SpoilsNow(s, e, c)
  {
    hide Exchange, Spoils, L.AfterAcquire, L.Acquired, L.AfterPurge, L.AfterRelease;
  }

  /** A connection is spoilt iff some event of the run spoilt it. */
  lemma {:induction false} SpoiltMeans(es: seq<Event>, c: Sock)
    ensures Spoilt(Exec(es), c) <==> exists k: nat :: k < |es| && SpoilsAt(es, k, c)
    decreases |es|
  {
    hide Step, SpoilsNow, Spoilt;
    if es == [] {
      FreshOk(c);
    } else {
      var n := |es| - 1;
      SpoiltMeans(es[..n], c);
      SpoiltAfter(Exec(es[..n]), es[n], c);
      forall k: nat | k < n ensures SpoilsAt(es, k, c) == SpoilsAt(es[..n], k, c) {
        assert es[..n][..k] == es[..k];
      }
      assert SpoilsAt(es, n, c) == SpoilsNow(Exec(es[..n]), es[n], c);
    }
  }

  lemma {:induction false} FreshOk(c: Sock)
    ensures !Spoilt(INIT, c)
  {
  }

  /** The i-th event of the run is the exchange that answers the job. */
  ghost predicate AnswersAt(es: seq<Event>, i: nat, j: Job) {
    && i < |es| && es[i].Serve? && es[i].job == j && HoldsReadable(Exec(es[..i]), j)
    && Got(StepServe(Exec(es[..i]), es[i]).jobs, j)
  }

  predicate SameAnswer(jobs: Jobs, after: Jobs, j: Job) {
    Got(jobs, j) ==> Got(after, j) && after[j].phase.meta == jobs[j].phase.meta && after[j].phase.body == jobs[j].phase.body
  }

  lemma {:induction false} AnswerStays(s: State, e: Event, j: Job)
    ensures SameAnswer(s.jobs, Step(s, e).jobs, j)
    ensures !Got(s.jobs, j) && Got(Step(s, e).jobs, j) ==> e.Serve? && e.job == j && HoldsReadable(s, j)
  {
    hide Exchange, Spoils, L.AfterAcquire, L.Acquired, L.AfterPurge, L.AfterRelease;
  }

  lemma {:induction false} AnswerKept(es: seq<Event>, i: nat, j: Job)
    requires i <= |es|
    ensures SameAnswer(Exec(es[..i]).jobs, Exec(es).jobs, j)
    decreases |es| - i
  {
    hide Step;
    if i < |es| {
      assert es[..i + 1][..i] == es[..i];
      AnswerStays(Exec(es[..i]), es[i], j);
      AnswerKept(es, i + 1, j);
    } else {
      assert es[..i] == es;
    }
  }

  /** A job that got an answer got it in exactly one exchange of the run. */
  lemma {:induction false} AnsweredOnce(es: seq<Event>, j: Job) returns (i: nat)
    requires Got(Exec(es).jobs, j)
    ensures AnswersAt(es, i, j) && forall k: nat :: AnswersAt(es, k, j) ==> k == i
    decreases |es|
  {
    hide Step, StepServe;
    var n := |es| - 1;
    var s, e := Exec(es[..n]), es[n];
    AnswerStays(s, e, j);
    if Got(s.jobs, j) {
      i := AnsweredOnce(es[..n], j);
    } else {
      i := n;
      ServeIs(s, e);
    }
    forall k: nat | AnswersAt(es, k, j) ensures k == i {
      if k < n {
        assert es[..n][..k] == es[..k];
        assert AnswersAt(es[..n], k, j);
        ServeIs(Exec(es[..k]), es[k]);
        assert es[..n][..k + 1][..k] == es[..k] && es[..n][..k + 1][k] == es[k];
        AnswerKept(es[..n], k + 1, j);
      }
    }
    if i < n { assert es[..n][..i] == es[..i]; }
  }

  lemma {:induction false} ServeIs(s: State, e: Event)
    requires e.Serve? && HoldsReadable(s, e.job)
    ensures Step(s, e) == StepServe(s, e)
    ensures !Got(s.jobs, e.job)
  {
    hide StepServe;
  }

  /** What a job got is its own answer: the head, and of the body a prefix; all of it iff its data
      came completely and no CRLF read before the last chunk was split. */
  ghost predicate OwnAnswer(ph: Phase, e: Event, p: nat)
    requires (ph.Releasing? || ph.Answered?) && e.Serve?
  {
    && ph.meta == MetaOf(e.resp) && ph.body <= BodyOf(e.resp.body)
    && (ph.body == BodyOf(e.resp.body) <==> InnerUnsplit(e.cuts, p, e.resp) && BodyEnd(p, e.resp) <= p + |e.said|)
  }

  lemma {:induction false} ServeAnswers(s: State, e: Event)
    requires Inv(s) && e.Serve? && HoldsReadable(s, e.job) && Fair(e) && !Spoilt(s, s.jobs[e.job].phase.sock)
    requires Got(StepServe(s, e).jobs, e.job)
    ensures OwnAnswer(StepServe(s, e).jobs[e.job].phase, e, s.conns[s.jobs[e.job].phase.sock].pos)
  {
    hide Exchange, ResponseOk, ResponseBytes, Unsplit, InnerUnsplit, BodyEnd, BodyOf, MetaOf, IdleOk;
    var c := s.conns[s.jobs[e.job].phase.sock];
    assert Holds(s.jobs, e.job, s.jobs[e.job].phase.sock);
    assert c.data + [] == c.data;
    Silent(c.data, e.cuts, e.writable);
    NotWritten(c.data + Sent(c, e), e.cuts, c.pos);
    ServeOne(c.data, e.resp, e.said, e.cuts);
  }

  /** In every run, whatever happens on other connections: a job that was answered with a
      response, or the beginning of one, on a connection that nothing had spoilt before, has the
      answer to its own request, and keeps it. */
  lemma {:induction false} OwnResponse(es: seq<Event>, i: nat, j: Job)
    requires AnswersAt(es, i, j) && Fair(es[i])
    requires forall k: nat :: k < i ==> !SpoilsAt(es, k, Exec(es[..i]).jobs[j].phase.sock)
    ensures var s, t := Exec(es[..i]), Exec(es);
      Got(t.jobs, j) && OwnAnswer(t.jobs[j].phase, es[i], s.conns[s.jobs[j].phase.sock].pos)
  {
    hide Step, StepServe, SpoilsNow, Spoilt, OwnAnswer, Inv;
    var s := Exec(es[..i]);
    var c := s.jobs[j].phase.sock;
    RunKeeps(es[..i]);
    SpoiltMeans(es[..i], c);
    forall k: nat | k < i ensures !SpoilsAt(es[..i], k, c) {
      assert es[..i][..k] == es[..k] && !SpoilsAt(es, k, c);
    }
    ServeIs(s, es[i]);
    ServeAnswers(s, es[i]);
    assert es[..i + 1][..i] == es[..i];
    AnswerKept(es, i + 1, j);
    SameOwn(StepServe(s, es[i]).jobs[j].phase, Exec(es).jobs[j].phase, es[i], s.conns[c].pos);
  }

  lemma {:induction false} SameOwn(a: Phase, b: Phase, e: Event, p: nat)
    requires (a.Releasing? || a.Answered?) && (b.Releasing? || b.Answered?) && a.meta == b.meta
        && a.body == b.body && e.Serve?
    ensures OwnAnswer(a, e, p) ==> OwnAnswer(b, e, p)
  {
    hide MetaOf, BodyOf, InnerUnsplit, BodyEnd;
  }

  /** In every run, a connection is idle at most once and not while a job holds it, no two jobs
      hold the same connection, and at most eight are idle under an address. */
  lemma {:induction false} OnePlace(es: seq<Event>, c: Sock)
    ensures var s := Exec(es);
      && (forall a, i, b, j :: IdleAt(s.idle, a, i, c) && IdleAt(s.idle, b, j, c) ==> a == b && i == j)
      && (forall j, a, i :: Holds(s.jobs, j, c) ==> !IdleAt(s.idle, a, i, c))
      && (forall j, k :: Holds(s.jobs, j, c) && Holds(s.jobs, k, c) ==> j == k)
      && (forall a :: a in s.idle ==> |s.idle[a]| <= 8)
  {
    hide IdleAt, Holds, Exec;
    RunKeeps(es);
  }
}
