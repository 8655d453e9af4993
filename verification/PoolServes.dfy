/** What the jobs bring about: requests to a service that answers are answered, on a connection that
    is reused where it can be, and given up only for a reason. */
module PoolServes {
  import opened Bytes
  import opened HttpBody
  import opened Chunked
  import opened HttpHead
  import opened HttpExchange
  import opened PoolRuns
  import L = LocalPool

  // ---- one whole answer ----

  lemma {:induction false} NoCuts(p: nat, b: Chunks)
    ensures CutFree({}, p, b) && InnerCutFree({}, p, b)
    decreases b
  {
    if b.Chunk? { NoCuts(BreakAt(p, b) + 2, b.rest); }
  }

  /** The service answers in full, nothing splits a read, and it stays unless the body ends by closing. */
  function Whole(j: Job, r: Response): Event {
    Serve(j, r, ResponseBytes(r), !r.body.Streamed?, {}, true)
  }

  /** The job holds a connection on which the service answers, with nothing unread. */
  predicate Ready(s: State, j: Job, c: Sock) {
    && j in s.jobs && s.jobs[j].phase.Holding? && s.jobs[j].phase.sock == c
    && c in s.conns && s.conns[c].open && !s.conns[c].spoilt && s.conns[c].pos == |s.conns[c].data|
  }

  lemma {:induction false} WholeIsRead(data: seq<byte>, r: Response)
    requires ResponseOk(r)
    ensures var d := data + ResponseBytes(r); var x := Exchange(d, {}, |data|, true);
      x.Done? && x.meta == MetaOf(r) && x.body == BodyOf(r.body) && (x.keep ==> x.stop == |d|)
      && (x.keep <==> KeepAlive(MetaOf(r)) && !r.body.Streamed?)
  {
    hide Exchange, MetaOf, KeepAlive, ResponseOk, HeadOf, CutFree, InnerCutFree;
    var w := ResponseBytes(r);
    var d := data + w;
    forall i | 0 <= i < |w| && |data| + i < |d| ensures d[|data| + i] == w[i] {}
    if r.body.Coded? { NoCuts(|data| + |HeadOf(r)|, r.body.chunks); }
    assert Delivers(d, |data|, r);
    HeadShorter(r);
    ResponseIsRead(d, {}, |data|, r);
    WholeEnd(|data|, r);
    StreamedNotKept(r);
  }

  lemma {:induction false} WholeEnd(p: nat, r: Response)
    ensures BodyEnd(p, r) <= p + |ResponseBytes(r)|
  {
    hide HeadOf;
    if r.body.Coded? { DataInside(p + |HeadOf(r)|, r.body.chunks); }
  }

  lemma {:induction false} DataInside(p: nat, b: Chunks)
    ensures DataEnd(p, b) <= p + |Wire(b)|
    decreases b
  {
    if b.Chunk? && b.rest.Chunk? { DataInside(BreakAt(p, b) + 2, b.rest); }
  }

  lemma {:induction false} StreamedNotKept(r: Response)
    requires ResponseOk(r)
    ensures r.body.Streamed? ==> !KeepAlive(MetaOf(r))
  {
    hide MetaOf, HeadOk;
  }

  /** After the answer the job has all of it, and the connection is where it should be. */
  lemma {:induction false} Answers(s: State, j: Job, c: Sock, r: Response, now: int)
    requires Ready(s, j, c) && ResponseOk(r)
    ensures var t := Step(Step(s, Whole(j, r)), Release(j, now)); var addr := s.jobs[j].addr;
      && j in t.jobs && t.jobs[j] == Stream(addr, Answered(MetaOf(r), BodyOf(r.body)))
      && t.idle == (if KeepAlive(MetaOf(r)) && !r.body.Streamed? then L.AfterRelease(s.idle, addr, c, now) else s.idle)
      && c in t.conns && t.conns[c].pos <= |t.conns[c].data| && !t.conns[c].spoilt
      && (KeepAlive(MetaOf(r)) && !r.body.Streamed? ==> t.conns[c].open && t.conns[c].pos == |t.conns[c].data|)
  {
    hide Exchange, MetaOf, BodyOf, KeepAlive, ResponseOk, ResponseBytes, CutFree, L.AfterRelease;
    WholeIsRead(s.conns[c].data, r);
    if r.body.Coded? { NoCuts(s.conns[c].pos + |HeadOf(r)|, r.body.chunks); }
  }

  // ---- runs ----

  ghost function After(s: State, es: seq<Event>): State {
    if es == [] then s else Step(After(s, es[..|es| - 1]), es[|es| - 1])
  }

  lemma {:induction false} AfterOne(s: State, e: Event)
    ensures After(s, [e]) == Step(s, e)
  {
    hide Step;
    assert [e][..0] == [] && After(s, []) == s;
  }

  lemma {:induction false} AfterAppend(s: State, a: seq<Event>, b: seq<Event>)
    ensures After(s, a + b) == After(After(s, a), b)
    decreases |b|
  {
    hide Step;
    if b == [] {
      assert a + b == a;
    } else {
      var k := |b| - 1;
      AfterAppend(s, a, b[..k]);
      assert (a + b)[..|a| + k] == a + b[..k];
    }
  }

  lemma {:induction false} AfterTwo(s: State, a: Event, b: Event)
    ensures After(s, [a, b]) == Step(Step(s, a), b)
  {
    hide Step, After;
    AfterOne(s, a);
    AfterAppend(s, [a], [b]);
    AfterOne(Step(s, a), b);
    assert [a] + [b] == [a, b];
  }

  // ---- the three ways to an answer ----

  predicate Waits(s: State, j: Job, addr: Str) { j in s.jobs && s.jobs[j].phase.Waiting? && s.jobs[j].addr == addr }

  predicate Kept(r: Response) { KeepAlive(MetaOf(r)) && !r.body.Streamed? }

  /** The job has the whole response, and its connection is the next one handed out for the address
      if it may be reused. */
  ghost predicate Served(t: State, j: Job, addr: Str, c: Sock, r: Response, at: int) {
    && j in t.jobs && t.jobs[j] == Stream(addr, Answered(MetaOf(r), BodyOf(r.body)))
    && (Kept(r) ==> forall now :: now - at <= 30 * 1_000_000_000 ==> L.Acquired(t.idle, addr, now) == Some(c))
  }

  lemma {:induction false} ReadyServes(s: State, j: Job, addr: Str, c: Sock, r: Response, at: int)
    requires Ready(s, j, c) && s.jobs[j].addr == addr && ResponseOk(r) && |L.Entry(s.idle, addr)| < 8
    ensures Served(After(s, [Whole(j, r), Release(j, at)]), j, addr, c, r, at)
  {
    hide MetaOf, BodyOf, KeepAlive, ResponseOk, L.Acquired, L.AfterRelease, Step, Whole;
    Answers(s, j, c, r, at);
    AfterTwo(s, Whole(j, r), Release(j, at));
    forall now | now - at <= 30 * 1_000_000_000 ensures L.Acquired(L.AfterRelease(s.idle, addr, c, at), addr, now) == Some(c) {
      L.ReleasePuts(s.idle, addr, c, at, now);
    }
  }

  /** With no idle connection a new one is made. */
  lemma {:induction false} DialServes(s: State, j: Job, addr: Str, c: Sock, r: Response, now: int, at: int)
    requires Waits(s, j, addr) && c !in s.conns && L.Acquired(s.idle, addr, now).None? && ResponseOk(r)
    ensures Served(After(s, [Acquire(j, now), Connect(j, c)] + [Whole(j, r), Release(j, at)]), j, addr, c, r, at)
  {
    hide MetaOf, BodyOf, KeepAlive, ResponseOk, Served, Whole;
    AfterAppend(s, [Acquire(j, now), Connect(j, c)], [Whole(j, r), Release(j, at)]);
    AfterTwo(s, Acquire(j, now), Connect(j, c));
    Dials(s, j, addr, c, now);
    ReadyServes(Step(Step(s, Acquire(j, now)), Connect(j, c)), j, addr, c, r, at);
  }

  lemma {:induction false} Dials(s: State, j: Job, addr: Str, c: Sock, now: int)
    requires Waits(s, j, addr) && c !in s.conns && L.Acquired(s.idle, addr, now).None?
    ensures var t := Step(Step(s, Acquire(j, now)), Connect(j, c));
      Ready(t, j, c) && t.jobs[j].addr == addr && |L.Entry(t.idle, addr)| < 8
  {
    hide L.AfterAcquire, L.Acquired;
    L.AcquireTakes(s.idle, addr, now);
  }

  /** An idle connection on which the service still answers is used again. */
  lemma {:induction false} ReuseServes(s: State, j: Job, addr: Str, c: Sock, r: Response, now: int, at: int)
    requires Inv(s) && Waits(s, j, addr) && L.Acquired(s.idle, addr, now) == Some(c) && ResponseOk(r)
    requires c in s.conns && s.conns[c].open && !s.conns[c].spoilt
    ensures Served(After(s, [Acquire(j, now)] + [Whole(j, r), Release(j, at)]), j, addr, c, r, at)
  {
    hide MetaOf, BodyOf, KeepAlive, ResponseOk, Served, Whole;
    AfterAppend(s, [Acquire(j, now)], [Whole(j, r), Release(j, at)]);
    AfterOne(s, Acquire(j, now));
    Reuses(s, j, addr, c, now);
    ReadyServes(Step(s, Acquire(j, now)), j, addr, c, r, at);
  }

  lemma {:induction false} Reuses(s: State, j: Job, addr: Str, c: Sock, now: int)
    requires Inv(s) && Waits(s, j, addr) && L.Acquired(s.idle, addr, now) == Some(c) && c in s.conns
    ensures var t := Step(s, Acquire(j, now));
      && t.conns == s.conns && (!s.conns[c].spoilt ==> s.conns[c].pos == |s.conns[c].data|)
      && j in t.jobs && t.jobs[j] == Stream(addr, Holding(s.jobs[j].phase.attempt, c, true))
      && t.idle == L.AfterAcquire(s.idle, addr, now) && |L.Entry(t.idle, addr)| < 8
  {
    hide L.AfterAcquire, L.Acquired, HeldOk;
    L.AcquireTakes(s.idle, addr, now);
    var n := |L.Entry(L.AfterAcquire(s.idle, addr, now), addr)|;
    assert IdleAt(s.idle, addr, n, c);
  }

  /** A job whose idle connection turns out to be closed tries once more, on a new one. */
  lemma {:induction false} RetryServes(s: State, j: Job, addr: Str, stale: Sock, e: Event, c: Sock, r: Response,
        now: int, again: int, at: int)
    requires Inv(s) && Waits(s, j, addr) && s.jobs[j].phase.attempt == 0 && L.Acquired(s.idle, addr, now) == Some(stale)
    requires stale in s.conns && !s.conns[stale].open && !s.conns[stale].spoilt && e.Serve? && e.job == j
    requires L.Acquired(L.AfterAcquire(s.idle, addr, now), addr, again).None? && c !in s.conns && ResponseOk(r)
    ensures Served(After(s, [Acquire(j, now), e] + ([Acquire(j, again), Connect(j, c)] + [Whole(j, r), Release(j, at)])),
                   j, addr, c, r, at)
  {
    hide MetaOf, BodyOf, KeepAlive, ResponseOk, Served, Whole, L.AfterAcquire, L.Acquired, Inv, Step;
    AfterAppend(s, [Acquire(j, now), e], [Acquire(j, again), Connect(j, c)] + [Whole(j, r), Release(j, at)]);
    AfterTwo(s, Acquire(j, now), e);
    Reuses(s, j, addr, stale, now);
    var t := Step(s, Acquire(j, now));
    Fails(t, j, addr, stale, e);
    DialServes(Step(t, e), j, addr, c, r, again, at);
  }

  /** Nothing comes out of a closed connection. */
  lemma {:induction false} Fails(s: State, j: Job, addr: Str, c: Sock, e: Event)
    requires j in s.jobs && s.jobs[j] == Stream(addr, Holding(0, c, true)) && e.Serve? && e.job == j
    requires c in s.conns && !s.conns[c].open && s.conns[c].pos == |s.conns[c].data|
    ensures var t := Step(s, e); Waits(t, j, addr) && t.idle == s.idle && t.conns.Keys == s.conns.Keys
  {
    hide Exchange;
    assert s.conns[c].data + [] == s.conns[c].data;
    Silent(s.conns[c].data, e.cuts, e.writable);
  }

  // ---- when a job gives up ----

  /** The event makes the job give up: connecting failed, or nothing came back on a new connection or
      on the second attempt. */
  ghost predicate GivesUp(s: State, e: Event, j: Job) {
    || (e == ConnectFails(j) && Enabled(s, e))
    || (e.Serve? && e.job == j && HoldsReadable(s, j) && Nothing(s, e) &&
        (!s.jobs[j].phase.reused || s.jobs[j].phase.attempt > 0))
  }

  /** The exchange comes to nothing: the request cannot be written, or no whole head comes. */
  ghost predicate Nothing(s: State, e: Event)
    requires e.Serve? && HoldsReadable(s, e.job)
  {
    var c := s.conns[s.jobs[e.job].phase.sock];
    !e.writable || HeadLen(c.data + (if c.open then e.said else []), c.pos).None?
  }

  predicate IsAborted(s: State, j: Job) { j in s.jobs && s.jobs[j].phase.Aborted? }

  lemma {:induction false} StepAborts(s: State, e: Event, j: Job)
    ensures IsAborted(Step(s, e), j) <==> IsAborted(s, j) || GivesUp(s, e, j)
  {
    hide HeadLen, BodyExchange, ParseMeta, Spoils, L.AfterAcquire, L.Acquired, L.AfterPurge, L.AfterRelease;
  }

  ghost predicate GaveUp(es: seq<Event>, j: Job) {
    es != [] && (GaveUp(es[..|es| - 1], j) || GivesUp(Exec(es[..|es| - 1]), es[|es| - 1], j))
  }

  /** In every run, a job is given up iff connecting failed for it, or an exchange of it came to nothing
      on a new connection or on its second attempt. */
  lemma {:induction false} AbortedIff(es: seq<Event>, j: Job)
    ensures IsAborted(Exec(es), j) <==> GaveUp(es, j)
    decreases |es|
  {
    hide Step, GivesUp, IsAborted;
    if es == [] {
      NobodyYet(j);
    } else {
      AbortedIff(es[..|es| - 1], j);
      StepAborts(Exec(es[..|es| - 1]), es[|es| - 1], j);
    }
  }

  lemma {:induction false} NobodyYet(j: Job)
    ensures !IsAborted(INIT, j)
  {
  }
}
