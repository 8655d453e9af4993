/** The TCP port pool over any run of allocations and releases. */
module PortPool {
  import opened Bytes
  import opened Text
  import opened Registry
  import opened Prepare
  import R = RegistryRuns

  function Bound(t: Tables): set<nat> { set k | k in t.ports :: t.ports[k] }

  /** Ports that are marked used but bound to nothing. */
  function Leaked(t: Tables): set<nat> { t.used - Bound(t) }

  /** No port is bound twice, and every bound port is marked used. */
  predicate PortsOk(t: Tables) {
    && (forall j, k :: j in t.ports && k in t.ports && j != k ==> t.ports[j] != t.ports[k])
    && (forall k :: k in t.ports ==> t.ports[k] in t.used)
  }

  datatype Op = Alloc(conn: Conn, tunnelId: Str, start: nat, end: nat) | Free(conn: Conn)

  function Do(t: Tables, op: Op): Tables {
    match op
    case Alloc(c, tid, start, end) =>
      (match FindFree(t.used, start, end) case Some(p) => Allocated(t, c, tid, p) case None => t)
    case Free(c) => Released(t, c)
  }

  function Run(ops: seq<Op>): Tables {
    if ops == [] then EMPTY else Do(Run(ops[..|ops| - 1]), ops[|ops| - 1])
  }

  /** A port is given to a (connection, tunnel) key that has one. */
  predicate Clash(t: Tables, op: Op) {
    op.Alloc? && FindFree(t.used, op.start, op.end).Some? && PortKey(op.conn, op.tunnelId) in t.ports
  }

  predicate ClashFree(ops: seq<Op>) {
    ops == [] || (ClashFree(ops[..|ops| - 1]) && !Clash(Run(ops[..|ops| - 1]), ops[|ops| - 1]))
  }

  lemma {:induction false} AllocatedLeaks(t: Tables, c: Conn, tid: Str, p: nat)
    requires PortsOk(t) && p !in t.used
    ensures PortsOk(Allocated(t, c, tid, p))
    ensures Leaked(Allocated(t, c, tid, p)) == Leaked(t) + (if PortKey(c, tid) in t.ports then {t.ports[PortKey(c, tid)]} else {})
  {
    var key, u := PortKey(c, tid), Allocated(t, c, tid, p);
    forall q ensures q in Bound(u) <==> q == p || exists k :: k in t.ports && k != key && t.ports[k] == q {
      if q == p { assert u.ports[key] == p; }
      if k :| k in t.ports && k != key && t.ports[k] == q { assert u.ports[k] == q; }
    }
    if key in t.ports {
      assert forall k :: k in t.ports && k != key ==> t.ports[k] != t.ports[key];
      assert t.ports[key] in Bound(t);
    }
  }

  lemma {:induction false} ReleasedLeaks(t: Tables, c: Conn)
    requires PortsOk(t)
    ensures PortsOk(Released(t, c)) && Leaked(Released(t, c)) == Leaked(t)
  {
    var u := Released(t, c);
    forall q ensures q in Bound(u) <==> exists k :: k in t.ports && k.conn != c && t.ports[k] == q {
      if k :| k in t.ports && k.conn != c && t.ports[k] == q { assert u.ports[k] == q; }
    }
    forall k | k in u.ports ensures u.ports[k] in u.used {
      assert k in t.ports && k.conn != c;
    }
    forall q ensures q in Leaked(u) <==> q in Leaked(t) {
      if q in t.used && q !in Bound(t) {
        assert forall k :: k in t.ports ==> t.ports[k] != q;
      }
    }
  }

  lemma {:induction false} DoLeaks(t: Tables, op: Op)
    requires PortsOk(t)
    ensures PortsOk(Do(t, op)) && Leaked(t) <= Leaked(Do(t, op)) && (Leaked(Do(t, op)) == Leaked(t) <==> !Clash(t, op))
  {
    hide PortsOk, Leaked, Allocated, Released;
    match op
    case Alloc(c, tid, start, end) =>
      var r := FindFree(t.used, start, end);
      if r.Some? {
        AllocatedLeaks(t, c, tid, r.value);
        NotLeaked(t);
      }
    case Free(c) => ReleasedLeaks(t, c);
  }

  lemma {:induction false} NotLeaked(t: Tables)
    ensures forall k :: k in t.ports ==> t.ports[k] !in Leaked(t)
  {
  }

  /** In every run bound ports are distinct and marked used, and the marked ports are exactly the
      bound ones iff no key was ever given a second port. */
  lemma {:induction false} PoolExact(ops: seq<Op>)
    ensures PortsOk(Run(ops)) && (Run(ops).used == Bound(Run(ops)) <==> ClashFree(ops))
    decreases |ops|
  {
    LeakedIffClash(ops);
    var t := Run(ops);
    if Leaked(t) == {} {
      assert Bound(t) <= t.used;
      forall q | q in t.used ensures q in Bound(t) { assert q !in Leaked(t); }
    } else {
      var q :| q in Leaked(t);
      assert q in t.used && q !in Bound(t);
    }
  }

  lemma {:induction false} LeakedIffClash(ops: seq<Op>)
    ensures PortsOk(Run(ops)) && (Leaked(Run(ops)) == {} <==> ClashFree(ops))
    decreases |ops|
  {
    hide PortsOk, Leaked, Do, Clash;
    if ops == [] {
      EmptyPool();
    } else {
      LeakedIffClash(ops[..|ops| - 1]);
      DoLeaks(Run(ops[..|ops| - 1]), ops[|ops| - 1]);
    }
  }

  lemma {:induction false} EmptyPool()
    ensures PortsOk(EMPTY) && Leaked(EMPTY) == {}
  {
  }

  // ---- register messages ----

  predicate Tcp(def: Def) { ProtoOf(def) == "tcp" }

  /** No message asks for two TCP tunnels under one (trimmed) name. */
  predicate NamesApart(defs: seq<Def>) {
    forall i, j :: 0 <= i < j < |defs| && Tcp(defs[i]) && Tcp(defs[j]) ==> Trim(defs[i].tunnelId) != Trim(defs[j].tunnelId)
  }

  /** What a message binds for its connection are TCP tunnels it has named already. */
  predicate Named(t: Tables, c: Conn, defs: seq<Def>, n: nat)
    requires n <= |defs|
  {
    forall k :: k in t.ports && k.conn == c ==> exists i :: 0 <= i < n && Tcp(defs[i]) && Trim(defs[i].tunnelId) == k.tunnelId
  }

  lemma {:induction false} BatchLeaks(t: Tables, cfg: Config, acc: Account, rows: map<Str, Row>, c: Conn,
          defs: seq<Def>, n: nat)
    requires n <= |defs| && PortsOk(t) && NamesApart(defs) && forall k :: k in t.ports ==> k.conn != c
    ensures var u := PrepareAll(t, cfg, acc, rows, c, defs, n).tables;
      PortsOk(u) && Leaked(u) == Leaked(t) && Named(u, c, defs, n)
  {
    hide PortsOk, Leaked, Trim, PrepareOne, BoundBy;
    if n > 0 {
      BatchLeaks(t, cfg, acc, rows, c, defs, n - 1);
      var b := PrepareAll(t, cfg, acc, rows, c, defs, n - 1);
      OneLeaks(b.tables, cfg, acc, rows, c, defs, n);
    }
  }

  lemma {:induction false} OneLeaks(t: Tables, cfg: Config, acc: Account, rows: map<Str, Row>, c: Conn,
          defs: seq<Def>, n: nat)
    requires 0 < n <= |defs| && PortsOk(t) && NamesApart(defs) && Named(t, c, defs, n - 1)
    ensures Named(t, c, defs, n)
    ensures var o := PrepareOne(t.used, cfg, acc, rows, defs[n - 1]); var u := BoundBy(t, c, o);
      PortsOk(u) && Leaked(u) == Leaked(t) && Named(u, c, defs, n)
  {
    hide PortsOk, Leaked, Trim, PrepareWeb, DecimalText;
    var def := defs[n - 1];
    var o := PrepareOne(t.used, cfg, acc, rows, def);
    WebBindsNothing(cfg, acc, RowOf(rows, Trim(def.tunnelId)), Trim(def.tunnelId), ProtoOf(def), def);
    if o.Ready? && o.prepared.port.Some? {
      assert PortKey(c, Trim(def.tunnelId)) !in t.ports;
      AllocatedLeaks(t, c, Trim(def.tunnelId), o.prepared.port.value);
    }
  }

  lemma {:induction false} WebBindsNothing(cfg: Config, acc: Account, row: Row, tid: Str, proto: Str, def: Def)
    ensures PrepareWeb(cfg, acc, row, tid, proto, def).port == None
  {
  }

  lemma {:induction false} StepLeaks(cfg: Config, who: R.Accounts, t: Tables, e: R.Event)
    requires PortsOk(t) && (e.Message? ==> NamesApart(e.defs))
    ensures PortsOk(R.Step(cfg, who, t, e)) && Leaked(R.Step(cfg, who, t, e)) == Leaked(t)
  {
    hide PortsOk, Leaked, NamesApart, Registered, PrepareAll, Disown;
    match e
    case Message(c, sender, rows, defs) =>
      if c in who && |defs| <= who[c].maxTunnels {
        var r := Released(t, c);
        ReleasedLeaks(t, c);
        BatchLeaks(r, cfg, who[c], rows, c, defs, |defs|);
        var b := PrepareAll(r, cfg, who[c], rows, c, defs, |defs|);
        RegisterAside(b.tables, c, who[c].id, sender, Routed(b.prepared, |b.prepared|));
      }
    case Closed(c) =>
      DisownAside(t, c);
      ReleasedLeaks(Disown(t, c), c);
      SamePorts(Released(Disown(t, c), c), Removed(t, c));
  }

  lemma {:induction false} SamePorts(t: Tables, u: Tables)
    requires u.ports == t.ports && u.used == t.used
    ensures PortsOk(u) == PortsOk(t) && Leaked(u) == Leaked(t)
  {
  }

  lemma {:induction false} DropAside(t: Tables, keys: seq<Key>, n: nat)
    requires n <= |keys|
    ensures var u := DropKeys(t, keys, n); u.ports == t.ports && u.used == t.used
  {
    if n > 0 { DropAside(t, keys, n - 1); }
  }

  lemma {:induction false} DisownAside(t: Tables, c: Conn)
    ensures var u := Disown(t, c); u.ports == t.ports && u.used == t.used
    ensures PortsOk(Disown(t, c)) == PortsOk(t) && Leaked(Disown(t, c)) == Leaked(t)
  {
    if c in t.owned { DropAside(t, t.owned[c], |t.owned[c]|); }
    SamePorts(t, Disown(t, c));
  }

  lemma {:induction false} AddAside(t: Tables, c: Conn, inputs: seq<Input>, n: nat)
    requires n <= |inputs|
    ensures var u := AddInputs(t, c, inputs, n); u.ports == t.ports && u.used == t.used
  {
    if n > 0 { AddAside(t, c, inputs, n - 1); }
  }

  lemma {:induction false} RegisterAside(t: Tables, c: Conn, u: User, sender: Sender, inputs: seq<Input>)
    ensures var r := Registered(t, c, u, sender, inputs); PortsOk(r) == PortsOk(t) && Leaked(r) == Leaked(t)
  {
    DisownAside(t, c);
    var d := Disown(t, c);
    AddAside(d.(clients := d.clients[c := sender], users := d.users[c := u]), c, inputs, |inputs|);
    SamePorts(t, Registered(t, c, u, sender, inputs));
  }

  predicate AllApart(es: seq<R.Event>) {
    forall i :: 0 <= i < |es| && es[i].Message? ==> NamesApart(es[i].defs)
  }

  /** In every run of register messages and closed connections in which no message names a TCP
      tunnel twice, the marked ports are exactly the bound ones. */
  lemma {:induction false} NoPortLost(cfg: Config, who: R.Accounts, es: seq<R.Event>)
    requires AllApart(es)
    ensures var t := R.Exec(cfg, who, es); PortsOk(t) && t.used == Bound(t)
    decreases |es|
  {
    hide NamesApart, R.Step;
    RunLeaks(cfg, who, es);
    var t := R.Exec(cfg, who, es);
    forall q | q in t.used ensures q in Bound(t) { assert q !in Leaked(t); }
  }

  lemma {:induction false} RunLeaks(cfg: Config, who: R.Accounts, es: seq<R.Event>)
    requires AllApart(es)
    ensures PortsOk(R.Exec(cfg, who, es)) && Leaked(R.Exec(cfg, who, es)) == {}
    decreases |es|
  {
    hide NamesApart, R.Step, PortsOk, Leaked;
    if es == [] {
      EmptyPool();
    } else {
      RunLeaks(cfg, who, es[..|es| - 1]);
      StepLeaks(cfg, who, R.Exec(cfg, who, es[..|es| - 1]), es[|es| - 1]);
    }
  }

  // ---- other connections' ports ----

  /** The key is bound to the port, which is marked used and bound to nothing else. */
  predicate Holds(t: Tables, k: PortKey, p: nat) {
    && k in t.ports && t.ports[k] == p && p in t.used
    && forall j :: j in t.ports && j != k ==> t.ports[j] != p
  }

  lemma {:induction false} DoSpares(t: Tables, op: Op, k: PortKey, p: nat)
    requires PortsOk(t) && Holds(t, k, p) && op.conn != k.conn
    ensures PortsOk(Do(t, op)) && Holds(Do(t, op), k, p)
  {
    hide Leaked;
    DoLeaks(t, op);
  }

  /** In every run, what other connections allocate and release leaves a connection's ports bound. */
  lemma {:induction false} OthersSpare(ops: seq<Op>, more: seq<Op>, k: PortKey, p: nat)
    requires Holds(Run(ops), k, p) && forall i :: 0 <= i < |more| ==> more[i].conn != k.conn
    ensures Holds(Run(ops + more), k, p)
    decreases |more|
  {
    hide Do, PortsOk, Holds;
    if more == [] {
      assert ops + more == ops;
    } else {
      var n := |more| - 1;
      OthersSpare(ops, more[..n], k, p);
      assert (ops + more)[..|ops| + n] == ops + more[..n];
      PoolExact(ops + more[..n]);
      DoSpares(Run(ops + more[..n]), more[n], k, p);
    }
  }

  lemma {:induction false} BatchSpares(t: Tables, cfg: Config, acc: Account, rows: map<Str, Row>, c: Conn, defs: seq<Def>,
        n: nat, k: PortKey, p: nat)
    requires n <= |defs| && PortsOk(t)
    ensures var u := PrepareAll(t, cfg, acc, rows, c, defs, n).tables;
      PortsOk(u) && (Holds(t, k, p) && k.conn != c ==> Holds(u, k, p))
  {
    hide PortsOk, PrepareOne, Holds, BoundBy;
    if n > 0 {
      BatchSpares(t, cfg, acc, rows, c, defs, n - 1, k, p);
      var u := PrepareAll(t, cfg, acc, rows, c, defs, n - 1).tables;
      OneSpares(u, cfg, acc, rows, c, defs[n - 1], k, p);
    }
  }

  lemma {:induction false} OneSpares(t: Tables, cfg: Config, acc: Account, rows: map<Str, Row>, c: Conn, def: Def, k: PortKey, p: nat)
    requires PortsOk(t)
    ensures var o := PrepareOne(t.used, cfg, acc, rows, def); var u := BoundBy(t, c, o);
      && PortsOk(u) && (Holds(t, k, p) && k.conn != c ==> Holds(u, k, p))
      && (o.Ready? && o.prepared.port.Some? ==>
            cfg.portStart <= o.prepared.port.value <= cfg.portEnd && Holds(u, PortKey(c, Trim(def.tunnelId)), o.prepared.port.value))
  {
    hide Leaked, Trim, PrepareWeb, DecimalText;
    var o := PrepareOne(t.used, cfg, acc, rows, def);
    WebBindsNothing(cfg, acc, RowOf(rows, Trim(def.tunnelId)), Trim(def.tunnelId), ProtoOf(def), def);
    if o.Ready? && o.prepared.port.Some? { AllocatedLeaks(t, c, Trim(def.tunnelId), o.prepared.port.value); }
  }

  lemma {:induction false} SameHolds(t: Tables, u: Tables, k: PortKey, p: nat)
    requires u.ports == t.ports && u.used == t.used
    ensures PortsOk(u) == PortsOk(t) && Holds(u, k, p) == Holds(t, k, p)
  {
  }

  lemma {:induction false} ReleasedSpares(t: Tables, c: Conn, k: PortKey, p: nat)
    requires PortsOk(t)
    ensures PortsOk(Released(t, c)) && (Holds(t, k, p) && k.conn != c ==> Holds(Released(t, c), k, p))
  {
    hide Leaked;
    ReleasedLeaks(t, c);
  }

  lemma {:induction false} StepSpares(cfg: Config, who: R.Accounts, t: Tables, e: R.Event, k: PortKey, p: nat)
    requires PortsOk(t)
    ensures var u := R.Step(cfg, who, t, e); PortsOk(u) && (Holds(t, k, p) && k.conn != e.conn ==> Holds(u, k, p))
  {
    hide PortsOk, Holds, Registered, PrepareAll, Disown;
    match e
    case Message(c, sender, rows, defs) =>
      if c in who && |defs| <= who[c].maxTunnels {
        var r := Released(t, c);
        ReleasedSpares(t, c, k, p);
        BatchSpares(r, cfg, who[c], rows, c, defs, |defs|, k, p);
        var b := PrepareAll(r, cfg, who[c], rows, c, defs, |defs|);
        RegisterSame(b.tables, c, who[c].id, sender, Routed(b.prepared, |b.prepared|));
        SameHolds(b.tables, Registered(b.tables, c, who[c].id, sender, Routed(b.prepared, |b.prepared|)), k, p);
      }
    case Closed(c) =>
      DisownAside(t, c);
      SameHolds(t, Disown(t, c), k, p);
      ReleasedSpares(Disown(t, c), c, k, p);
      SameHolds(Released(Disown(t, c), c), Removed(t, c), k, p);
  }

  lemma {:induction false} RegisterSame(t: Tables, c: Conn, u: User, sender: Sender, inputs: seq<Input>)
    ensures var r := Registered(t, c, u, sender, inputs); r.ports == t.ports && r.used == t.used
  {
    DisownAside(t, c);
    var d := Disown(t, c);
    AddAside(d.(clients := d.clients[c := sender], users := d.users[c := u]), c, inputs, |inputs|);
  }

  /** In every run of register messages and closes, whatever they name, bound ports are distinct and
      marked used, and an event of another connection leaves a binding as it is. */
  lemma {:induction false} OtherEventsSpare(cfg: Config, who: R.Accounts, es: seq<R.Event>, e: R.Event, k: PortKey, p: nat)
    ensures PortsOk(R.Exec(cfg, who, es))
    ensures Holds(R.Exec(cfg, who, es), k, p) && e.conn != k.conn ==> Holds(R.Exec(cfg, who, es + [e]), k, p)
    decreases |es|
  {
    hide PortsOk, Holds, R.Step;
    if es == [] {
      EmptyPool();
    } else {
      var s := es[..|es| - 1];
      OtherEventsSpare(cfg, who, s, es[|es| - 1], k, p);
      StepSpares(cfg, who, R.Exec(cfg, who, s), es[|es| - 1], k, p);
    }
    R.ExecSnoc(cfg, who, es, e);
    StepSpares(cfg, who, R.Exec(cfg, who, es), e, k, p);
  }

  /** What a message tells the user about a TCP tunnel holds when it is done, if no two of its TCP
      tunnels have one name: the port is bound to the tunnel, and lies in the configured range. */
  lemma {:induction false} ToldIsBound(t: Tables, cfg: Config, acc: Account, rows: map<Str, Row>, c: Conn, defs: seq<Def>,
        n: nat, i: nat)
    requires n <= |defs| && PortsOk(t) && NamesApart(defs)
    requires var ps := PrepareAll(t, cfg, acc, rows, c, defs, n).prepared; i < |ps| && ps[i].port.Some?
    ensures var b := PrepareAll(t, cfg, acc, rows, c, defs, n); var p := b.prepared[i];
      && cfg.portStart <= p.port.value <= cfg.portEnd && Holds(b.tables, PortKey(c, p.input.tunnelId), p.port.value)
      && exists j :: 0 <= j < n && Tcp(defs[j]) && Trim(defs[j].tunnelId) == p.input.tunnelId
  {
    hide PortsOk, Holds, Trim, FindFree, DecimalText, PrepareWeb, Allocated;
    var b := PrepareAll(t, cfg, acc, rows, c, defs, n - 1);
    var d := defs[n - 1];
    var o := PrepareOne(b.tables.used, cfg, acc, rows, d);
    BatchSpares(t, cfg, acc, rows, c, defs, n - 1, PortKey(c, ""), 0);
    WebBindsNothing(cfg, acc, RowOf(rows, Trim(d.tunnelId)), Trim(d.tunnelId), ProtoOf(d), d);
    OneSpares(b.tables, cfg, acc, rows, c, d, PortKey(c, ""), 0);
    if i < |b.prepared| {
      ToldIsBound(t, cfg, acc, rows, c, defs, n - 1, i);
      var p := b.prepared[i];
      var j :| 0 <= j < n - 1 && Tcp(defs[j]) && Trim(defs[j].tunnelId) == p.input.tunnelId;
      if o.Ready? && o.prepared.port.Some? {
        AllocatedSpares(b.tables, c, o.prepared.input.tunnelId, o.prepared.port.value, PortKey(c, p.input.tunnelId), p.port.value);
      }
    }
  }

  lemma {:induction false} AllocatedSpares(t: Tables, c: Conn, tid: Str, q: nat, k: PortKey, p: nat)
    requires Holds(t, k, p) && k != PortKey(c, tid) && q !in t.used
    ensures Holds(Allocated(t, c, tid, q), k, p)
  {
  }
}
