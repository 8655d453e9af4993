/** The keep-alive pool of connections to local services. */
module LocalPool {
  import opened Bytes

  type Str = seq<byte>

  /** An idle connection and when it was put back, in nanoseconds of a monotonic clock. */
  datatype Idle<+S> = Idle(sock: S, at: int)

  type Pools<+S> = map<Str, seq<Idle<S>>>

  const IDLE_NS: int := 30_000_000_000
  const MAX_IDLE: nat := 8

  predicate Stale<S>(c: Idle<S>, now: int) { now - c.at > IDLE_NS }

  /** How many entries are left after popping stale ones off the end, the first fresh one included. */
  function Kept<S>(v: seq<Idle<S>>, now: int): (k: nat)
    ensures k <= |v|
    ensures k > 0 ==> !Stale(v[k - 1], now)
    ensures forall i :: k <= i < |v| ==> Stale(v[i], now)
  {
    if v == [] then 0 else if Stale(v[|v| - 1], now) then Kept(v[..|v| - 1], now) else |v|
  }

  function Entry<S>(idle: Pools<S>, addr: Str): seq<Idle<S>> { if addr in idle then idle[addr] else [] }

  /** The freshest connection that is still fresh. */
  function Acquired<S>(idle: Pools<S>, addr: Str, now: int): Option<S> {
    var k := Kept(Entry(idle, addr), now);
    if k == 0 then None else Some(Entry(idle, addr)[k - 1].sock)
  }

  function AfterAcquire<S>(idle: Pools<S>, addr: Str, now: int): Pools<S> {
    var k := Kept(Entry(idle, addr), now);
    if addr !in idle then idle else idle[addr := idle[addr][..if k == 0 then 0 else k - 1]]
  }

  function AfterRelease<S>(idle: Pools<S>, addr: Str, s: S, now: int): Pools<S> {
    var v := Entry(idle, addr);
    idle[addr := if |v| >= MAX_IDLE then v else v + [Idle(s, now)]]
  }

  function Unstale<S>(v: seq<Idle<S>>, now: int): (r: seq<Idle<S>>)
    ensures |r| <= |v|
  {
    if v == [] then []
    else Unstale(v[..|v| - 1], now) + if Stale(v[|v| - 1], now) then [] else [v[|v| - 1]]
  }

  function AfterPurge<S>(idle: Pools<S>, now: int): Pools<S> {
    map addr | addr in idle :: Unstale(idle[addr], now)
  }

  class LocalPool<S> {
    var idle: Pools<S>

    constructor ()
      ensures idle == map[]
    {
      idle := map[];
    }

    method Acquire(addr: Str, now: int) returns (s: Option<S>)
      modifies this
      ensures s == Acquired(old(idle), addr, now) && idle == AfterAcquire(old(idle), addr, now)
    {
      if addr in idle {
        ghost var v0 := idle[addr];
        while idle[addr] != []
          invariant addr in idle && idle == old(idle)[addr := idle[addr]]
          invariant |idle[addr]| <= |v0| && idle[addr] == v0[..|idle[addr]|]
          invariant Kept(idle[addr], now) == Kept(v0, now)
          decreases |idle[addr]|
        {
          var v := idle[addr];
          var c := v[|v| - 1];
          idle := idle[addr := v[..|v| - 1]];
          if Stale(c, now) { continue; }
          assert v[..|v| - 1] == v0[..|v| - 1];
          return Some(c.sock);
        }
      }
      return None;
    }

    method Release(addr: Str, s: S, now: int)
      modifies this
      ensures idle == AfterRelease(old(idle), addr, s, now)
    {
      if addr !in idle { idle := idle[addr := []]; }
      var v := idle[addr];
      if |v| >= MAX_IDLE { return; }
      idle := idle[addr := v + [Idle(s, now)]];
    }

    method Purge(now: int)
      modifies this
      ensures idle == AfterPurge(old(idle), now)
    {
      var todo := idle.Keys;
      while todo != {}
        invariant idle.Keys == old(idle).Keys && todo <= idle.Keys
        invariant forall addr :: addr in idle ==>
          idle[addr] == if addr in todo then old(idle)[addr] else Unstale(old(idle)[addr], now)
        decreases |todo|
      {
        var addr :| addr in todo;
        var v := PurgeOne(idle[addr], now);
        idle := idle[addr := v];
        todo := todo - {addr};
      }
    }

    method PurgeOne(v: seq<Idle<S>>, now: int) returns (r: seq<Idle<S>>)
      ensures r == Unstale(v, now)
    {
      r := [];
      for i := 0 to |v|
        invariant r == Unstale(v[..i], now)
      {
        assert v[..i + 1][..i] == v[..i];
        if !Stale(v[i], now) { r := r + [v[i]]; }
      }
      assert v[..|v|] == v;
    }
  }

  // ---- what the pool promises ----

  /** The connection has been idle for more than thirty seconds. */
  predicate TooOld<S>(c: Idle<S>, now: int) { now - c.at > 30 * 1_000_000_000 }

  /** The handed-out connection was idle under this address, for at most thirty seconds, and is gone
      from the pool; only older connections were dropped with it. Other addresses are untouched. */
  lemma {:induction false} AcquireTakes<S>(idle: Pools<S>, addr: Str, now: int)
    ensures var v, w := Entry(idle, addr), Entry(AfterAcquire(idle, addr, now), addr);
      match Acquired(idle, addr, now)
      case Some(s) => |w| < |v| && v[..|w|] == w && v[|w|].sock == s && !TooOld(v[|w|], now)
                      && forall i :: |w| < i < |v| ==> TooOld(v[i], now)
      case None => w == [] && forall i :: 0 <= i < |v| ==> TooOld(v[i], now)
    ensures forall a :: a != addr ==> Entry(AfterAcquire(idle, addr, now), a) == Entry(idle, a)
  {
  }

  /** A connection that is put back is the next one handed out for its address, unless eight were
      idle there or thirty seconds pass. Other addresses are untouched. */
  lemma {:induction false} ReleasePuts<S>(idle: Pools<S>, addr: Str, s: S, now: int, later: int)
    ensures var v, w := Entry(idle, addr), Entry(AfterRelease(idle, addr, s, now), addr);
      if |v| >= 8 then w == v else w == v + [Idle(s, now)]
    ensures |Entry(idle, addr)| < 8 && later - now <= 30 * 1_000_000_000 ==>
      Acquired(AfterRelease(idle, addr, s, now), addr, later) == Some(s)
    ensures forall a :: a != addr ==> Entry(AfterRelease(idle, addr, s, now), a) == Entry(idle, a)
  {
  }

  /** Purging keeps exactly the connections that are not too old, in order, and puts none in. */
  lemma {:induction false} UnstaleKeeps<S>(v: seq<Idle<S>>, now: int)
    ensures forall c :: c in Unstale(v, now) <==> c in v && !TooOld(c, now)
    ensures forall i :: 0 <= i < |Unstale(v, now)| ==> Unstale(v, now)[i] in v
    decreases |v|
  {
    if v != [] {
      var u := v[..|v| - 1];
      UnstaleKeeps(u, now);
      assert v == u + [v[|v| - 1]];
    }
  }

  /** In their order. */
  lemma {:induction false} UnstaleOrder<S>(a: seq<Idle<S>>, c: Idle<S>, b: seq<Idle<S>>, now: int)
    ensures Unstale(a + [c] + b, now) == Unstale(a, now) + (if TooOld(c, now) then [] else [c]) + Unstale(b, now)
    decreases |b|
  {
    if b == [] {
      assert a + [c] + b == a + [c] && (a + [c])[..|a|] == a;
    } else {
      var k := |b| - 1;
      UnstaleOrder(a, c, b[..k], now);
      assert (a + [c] + b)[..|a| + 1 + k] == a + [c] + b[..k];
    }
  }

  /** A purge does that for every address. */
  lemma {:induction false} PurgeKeeps<S>(idle: Pools<S>, now: int, addr: Str)
    ensures forall c :: c in Entry(AfterPurge(idle, now), addr) <==> c in Entry(idle, addr) && !TooOld(c, now)
    ensures Entry(AfterPurge(idle, now), addr) == Unstale(Entry(idle, addr), now)
  {
    UnstaleKeeps(Entry(idle, addr), now);
  }
}
