/** Keys that move from one connection to another: when a listed key still routes to its connection. */
module Takeover {
  import opened Bytes
  import opened Text
  import opened Registry
  import opened RegistryFacts
  import opened Prepare
  import opened RegistryRuns

  /** The key is routed to the connection. */
  predicate RoutesTo(m: Maps, k: Key, c: Conn) {
    match k
    case Sub(s) => s in m.subs && m.subs[s].conn == c
    case Path(p) => p in m.paths && m.paths[p].conn == c
  }

  predicate Routes(m: Maps, k: Key) {
    match k
    case Sub(s) => s in m.subs
    case Path(p) => p in m.paths
  }

  /** Every listed key routes to the connection that lists it. */
  ghost predicate RoutesBack(m: Maps, owned: map<Conn, seq<Key>>) {
    forall c, k :: Listed(owned, c, k) ==> RoutesTo(m, k, c)
  }

  /** No other connection lists one of the keys. */
  ghost predicate Untaken(owned: map<Conn, seq<Key>>, c: Conn, keys: seq<Key>) {
    forall d, k :: d != c && Listed(owned, d, k) ==> k !in keys
  }

  lemma {:induction false} PlusRoutes(m: Maps, c: Conn, inputs: seq<Input>, n: nat, k: Key, d: Conn)
    requires n <= |inputs|
    ensures k in KeysOf(inputs, n) ==> RoutesTo(PlusInputs(m, c, inputs, n), k, c)
    ensures k !in KeysOf(inputs, n) ==> (RoutesTo(PlusInputs(m, c, inputs, n), k, d) <==> RoutesTo(m, k, d))
  {
    hide NormalizePrefix, Lower;
    if n > 0 {
      PlusRoutes(m, c, inputs, n - 1, k, d);
      KeysSnoc(inputs, n);
      OneKeys(inputs[n - 1], k);
    }
  }

  lemma {:induction false} OneKeys(i: Input, k: Key)
    ensures k in KeysOfOne(i) <==>
      (i.sub.Some? && k == Sub(Lower(i.sub.value))) || (i.path.Some? && k == Path(NormalizePrefix(i.path.value)))
  {
    hide NormalizePrefix, Lower;
    if i.sub.Some? { assert KeysOfOne(i)[0] == Sub(Lower(i.sub.value)); }
    if i.path.Some? { assert KeysOfOne(i)[|KeysOfOne(i)| - 1] == Path(NormalizePrefix(i.path.value)); }
  }

  lemma {:induction false} MinusRoutes(m: Maps, keys: seq<Key>, k: Key)
    ensures forall d :: RoutesTo(MinusKeys(m, keys), k, d) <==> RoutesTo(m, k, d) && k !in keys
  {
  }

  /** While every listed key routes back, registering keeps that so iff it takes over no key that
      another connection lists. */
  lemma {:induction false} RegisterKeepsRoutes(t: Tables, c: Conn, u: User, sender: Sender, inputs: seq<Input>)
    requires TablesOk(t) && RoutesBack(View(t), t.owned)
    ensures var r := Registered(t, c, u, sender, inputs);
      RoutesBack(View(r), r.owned) <==> Untaken(t.owned, c, KeysOf(inputs, |inputs|))
  {
    hide ListOk, PathMap, Registered, KeysOf, PlusInputs, MinusKeys, RoutesTo;
    RegisteredView(t, c, u, sender, inputs);
    var r, keys, mine := Registered(t, c, u, sender, inputs), KeysOf(inputs, |inputs|), OwnedBy(t, c);
    var m := MinusKeys(View(t), mine);
    forall k ensures k in keys ==> RoutesTo(View(r), k, c)
      ensures k !in keys ==> forall d :: RoutesTo(View(r), k, d) <==> RoutesTo(View(t), k, d) && k !in mine
    {
      forall d ensures k !in keys ==> (RoutesTo(View(r), k, d) <==> RoutesTo(m, k, d)) {
        PlusRoutes(m, c, inputs, |inputs|, k, d);
      }
      PlusRoutes(m, c, inputs, |inputs|, k, c);
      MinusRoutes(View(t), mine, k);
    }
    forall d, k | d != c && Listed(t.owned, d, k)
      ensures Listed(r.owned, d, k) && k !in mine && (RoutesTo(View(r), k, d) <==> k !in keys)
    {
      assert k in mine ==> Listed(t.owned, c, k);
      OneTarget(View(t), k, c, d);
      OneTarget(View(r), k, c, d);
    }
    forall d, k | Listed(r.owned, d, k) ensures (d == c && k in keys) || (d != c && Listed(t.owned, d, k)) {}
  }

  lemma {:induction false} OneTarget(m: Maps, k: Key, c: Conn, d: Conn)
    ensures RoutesTo(m, k, c) && RoutesTo(m, k, d) ==> c == d
  {
  }

  /** A close takes a key from another connection that lists it iff the closing one lists it too. */
  lemma {:induction false} CloseSpares(t: Tables, c: Conn, d: Conn, k: Key)
    requires TablesOk(t) && c != d && Listed(t.owned, d, k)
    ensures var r := Removed(t, c);
      Listed(r.owned, d, k) && (RoutesTo(View(r), k, d) <==> RoutesTo(View(t), k, d) && !Listed(t.owned, c, k))
  {
    hide ListOk, PathMap, Disown, RoutesTo, MinusKeys;
    DisownView(t, c);
    assert View(Removed(t, c)) == View(Disown(t, c));
    MinusRoutes(View(t), OwnedBy(t, c), k);
  }

  /** Closing a connection deletes every key it lists, also one that another connection took over:
      that connection goes on listing the key, and it routes nowhere. */
  lemma {:induction false} CloseDeletesTaken(t: Tables, c: Conn, d: Conn, k: Key)
    requires TablesOk(t) && c != d && Listed(t.owned, c, k) && Listed(t.owned, d, k)
    ensures var r := Removed(t, c); Listed(r.owned, d, k) && !Routes(View(r), k)
  {
    hide ListOk, PathMap, Disown;
    DisownView(t, c);
    assert View(Removed(t, c)) == View(Disown(t, c));
  }

  /** While every listed key routes back, closing a connection keeps that so. */
  lemma {:induction false} CloseKeepsRoutes(t: Tables, c: Conn)
    requires TablesOk(t) && RoutesBack(View(t), t.owned)
    ensures RoutesBack(View(Removed(t, c)), Removed(t, c).owned)
  {
    hide ListOk, View, RoutesTo;
    var r := Removed(t, c);
    forall d, k | Listed(r.owned, d, k) ensures RoutesTo(View(r), k, d) {
      RemovedLists(t, c, d, k);
      OneTarget(View(t), k, c, d);
      CloseSpares(t, c, d, k);
    }
  }

  lemma {:induction false} RemovedLists(t: Tables, c: Conn, d: Conn, k: Key)
    requires ListOk(t.paths)
    ensures Listed(Removed(t, c).owned, d, k) <==> d != c && Listed(t.owned, d, k)
  {
    hide View, ListOk, Disown;
    DisownView(t, c);
  }

  // ---- over whole runs ----

  /** The keys that the message registers. */
  function KeysIn(t: Tables, cfg: Config, acc: Account, e: Event): seq<Key>
    requires e.Message?
  {
    var b := PrepareAll(Released(t, e.conn), cfg, acc, e.rows, e.conn, e.defs, |e.defs|);
    var inputs := Routed(b.prepared, |b.prepared|);
    KeysOf(inputs, |inputs|)
  }

  /** The event is a message, not refused, with a key that another connection lists. */
  ghost predicate TakesOver(cfg: Config, who: Accounts, t: Tables, e: Event) {
    e.Message? && e.conn in who && |e.defs| <= who[e.conn].maxTunnels
        && !Untaken(t.owned, e.conn, KeysIn(t, cfg, who[e.conn], e))
  }

  lemma {:induction false} StepKeepsRoutes(cfg: Config, who: Accounts, t: Tables, e: Event)
    requires TablesOk(t) && RoutesBack(View(t), t.owned)
    ensures var u := Step(cfg, who, t, e); RoutesBack(View(u), u.owned) <==> !TakesOver(cfg, who, t, e)
  {
    hide TablesOk, RoutesBack, Untaken, KeysOf, Registered, Removed, PrepareAll, Routed;
    match e
    case Message(c, sender, rows, defs) =>
      if c in who && |defs| <= who[c].maxTunnels {
        var r := Released(t, c);
        PortsAside(t, r);
        PrepareTables(r, cfg, who[c], rows, c, defs, |defs|);
        var b := PrepareAll(r, cfg, who[c], rows, c, defs, |defs|);
        PortsAside(r, b.tables);
        RegisterKeepsRoutes(b.tables, c, who[c].id, sender, Routed(b.prepared, |b.prepared|));
      }
    case Closed(c) => CloseKeepsRoutes(t, c);
  }

  /** After the first `n` events every listed key routes back. */
  ghost predicate BackAt(cfg: Config, who: Accounts, es: seq<Event>, n: nat)
    requires n <= |es|
  {
    var t := Exec(cfg, who, es[..n]); RoutesBack(View(t), t.owned)
  }

  ghost predicate TakesAt(cfg: Config, who: Accounts, es: seq<Event>, n: nat)
    requires n < |es|
  {
    TakesOver(cfg, who, Exec(cfg, who, es[..n]), es[n])
  }

  lemma {:induction false} NextBack(cfg: Config, who: Accounts, es: seq<Event>, n: nat)
    requires n < |es| && BackAt(cfg, who, es, n)
    ensures BackAt(cfg, who, es, n + 1) <==> !TakesAt(cfg, who, es, n)
  {
    hide RoutesBack, TakesOver, Step, View, TablesOk;
    RunOk(cfg, who, es[..n]);
    StepKeepsRoutes(cfg, who, Exec(cfg, who, es[..n]), es[n]);
    assert es[..n + 1][..n] == es[..n];
  }

  lemma {:induction false} StaysBack(cfg: Config, who: Accounts, es: seq<Event>, n: nat)
    requires n <= |es| && forall m: nat :: m < n ==> !TakesAt(cfg, who, es, m)
    ensures BackAt(cfg, who, es, n)
  {
    hide TakesAt;
    if n == 0 {
      NothingListed();
    } else {
      hide BackAt;
      StaysBack(cfg, who, es, n - 1);
      NextBack(cfg, who, es, n - 1);
    }
  }

  /** Every listed key routes back at every point of a run iff no message of the run takes over a
      key that another connection lists. */
  lemma {:induction false} RoutesBackIff(cfg: Config, who: Accounts, es: seq<Event>)
    ensures (forall n: nat :: n <= |es| ==> BackAt(cfg, who, es, n)) <==> (forall n: nat :: n < |es| ==> !TakesAt(cfg, who, es, n))
  {
    hide BackAt, TakesAt;
    if forall n: nat :: n <= |es| ==> BackAt(cfg, who, es, n) {
      forall n: nat | n < |es| ensures !TakesAt(cfg, who, es, n) {
        NextBack(cfg, who, es, n);
      }
    }
    if forall n: nat :: n < |es| ==> !TakesAt(cfg, who, es, n) {
      forall n: nat | n <= |es| ensures BackAt(cfg, who, es, n) {
        StaysBack(cfg, who, es, n);
      }
    }
  }

  lemma {:induction false} NothingListed()
    ensures RoutesBack(View(EMPTY), EMPTY.owned)
  {
  }

  // ---- a key that two connections list ----

  /** An enabled HTTP tunnel that the database has no row for. */
  predicate WebDef(d: Def) { Trim(d.tunnelId) != [] && ProtoOf(d) == "http" }

  function InputFor(cfg: Config, acc: Account, d: Def): Input {
    PrepareWeb(cfg, acc, Row(false, None), Trim(d.tunnelId), "http", d).input
  }

  lemma {:induction false} OneDef(t: Tables, cfg: Config, acc: Account, c: Conn, sender: Sender, d: Def)
    requires WebDef(d) && acc.maxTunnels >= 1
    ensures Handled(t, cfg, acc, map[], c, sender, [d]) == Registered(Released(t, c), c, acc.id, sender, [InputFor(cfg, acc, d)])
  {
    hide Registered, Released, PrepareWeb, Trim;
    var p := PrepareWeb(cfg, acc, Row(false, None), Trim(d.tunnelId), "http", d);
    PrepareRow(cfg, acc, Row(false, None), Trim(d.tunnelId), "http", d);
    var b := PrepareAll(Released(t, c), cfg, acc, map[], c, [d], 1);
    assert PrepareAll(Released(t, c), cfg, acc, map[], c, [d], 0).prepared == [];
    assert b.prepared == [p] && b.tables == Released(t, c);
    assert Routed(b.prepared, 0) == [];
    assert Routed(b.prepared, 1) == [p.input];
  }

  lemma {:induction false} PrepareRow(cfg: Config, acc: Account, row: Row, tid: Str, proto: Str, d: Def)
    ensures var p := PrepareWeb(cfg, acc, row, tid, proto, d); p.disabled == row.disabled && p.port.None?
  {
    hide SubName, EffPath;
  }

  /** Two messages on two connections, with tunnels that come to the same key: both connections list
      it, it routes to the second one, and when the first one closes it routes nowhere although
      the second one still lists it. */
  lemma {:induction false} TwoListers(cfg: Config, who: Accounts, c: Conn, d: Conn, sc: Sender, sd: Sender, a: Def,
          b: Def, k: Key)
    requires c != d && c in who && d in who && who[c].maxTunnels >= 1 && who[d].maxTunnels >= 1 && WebDef(a)
        && WebDef(b)
    requires k in KeysOfOne(InputFor(cfg, who[c], a)) && k in KeysOfOne(InputFor(cfg, who[d], b))
    ensures var es := [Message(c, sc, map[], [a]), Message(d, sd, map[], [b])];
      var t, u := Exec(cfg, who, es), Exec(cfg, who, es + [Closed(c)]);
      && Listed(t.owned, c, k) && Listed(t.owned, d, k) && RoutesTo(View(t), k, d) && !RoutesTo(View(t), k, c)
      && Listed(u.owned, d, k) && !Routes(View(u), k)
  {
    hide Handled, Removed, Registered, InputFor, WebDef, View, RoutesTo, Routes, Released, KeysOfOne, PlusInputs;
    var e, f := Message(c, sc, map[], [a]), Message(d, sd, map[], [b]);
    var t1 := Step(cfg, who, EMPTY, e);
    var t2 := Step(cfg, who, t1, f);
    assert [e, f][..1] == [e] && [e][..0] == [];
    assert Exec(cfg, who, [e]) == t1 by { assert Exec(cfg, who, []) == EMPTY; }
    assert Exec(cfg, who, [e, f]) == t2;
    RunOk(cfg, who, [e]);
    RunOk(cfg, who, [e, f]);
    Lists(EMPTY, cfg, who[c], c, sc, a, k);
    Lists(t1, cfg, who[d], d, sd, b, k);
    OneTarget(View(t2), k, c, d);
    ExecSnoc(cfg, who, [e, f], Closed(c));
    CloseDeletesTaken(t2, c, d, k);
  }

  lemma {:induction false} Lists(t: Tables, cfg: Config, acc: Account, c: Conn, sender: Sender, d: Def, k: Key)
    requires TablesOk(t) || t == EMPTY
    requires WebDef(d) && acc.maxTunnels >= 1 && k in KeysOfOne(InputFor(cfg, acc, d))
    ensures var u := Handled(t, cfg, acc, map[], c, sender, [d]);
      && Listed(u.owned, c, k) && RoutesTo(View(u), k, c)
      && forall x, y :: x != c && Listed(t.owned, x, y) ==> Listed(u.owned, x, y)
  {
    hide Handled, Registered, ListOk, View, RoutesTo, InputFor, WebDef, KeysOfOne, PlusInputs;
    EmptyOk();
    OneDef(t, cfg, acc, c, sender, d);
    var r, inputs := Released(t, c), [InputFor(cfg, acc, d)];
    PortsAside(t, r);
    RegisteredView(r, c, acc.id, sender, inputs);
    PlusRoutes(MinusKeys(View(r), OwnedBy(r, c)), c, inputs, 1, k, c);
    OneKey(inputs[0]);
  }

  lemma {:induction false} OneKey(i: Input)
    ensures KeysOf([i], 1) == KeysOfOne(i)
  {
    hide KeysOfOne;
    assert KeysOf([i], 0) == [];
  }

  // ---- subdomain names ----

  /** Two names behind two slugs: they come to the same text iff they are the same, or one slug is
      the other one, a dash and what the other name is longer by. */
  lemma {:induction false} JoinedMeet(a: Str, s: Str, b: Str, u: Str)
    ensures a + "-" + s == b + "-" + u <==>
      (a == b && s == u) || Longer(a, s, b, u) || Longer(b, u, a, s)
  {
    if |a| == |b| {
      JoinedEqual(a, s, b, u);
    } else if |a| < |b| {
      JoinedLonger(a, s, b, u);
    } else {
      JoinedLonger(b, u, a, s);
    }
  }

  /** The slug `b` is `a` and a dash and some `x`, and the name `s` is that `x`, a dash and `u`. */
  ghost predicate Longer(a: Str, s: Str, b: Str, u: Str) {
    exists x :: b == a + "-" + x && s == x + "-" + u
  }

  lemma {:induction false} JoinedEqual(a: Str, s: Str, b: Str, u: Str)
    requires |a| == |b|
    ensures a + "-" + s == b + "-" + u <==> a == b && s == u
    ensures !Longer(a, s, b, u) && !Longer(b, u, a, s)
  {
    var v, w := a + "-" + s, b + "-" + u;
    assert v[..|a|] == a && w[..|b|] == b && v[|a| + 1..] == s && w[|b| + 1..] == u;
  }

  lemma {:induction false} JoinedLonger(a: Str, s: Str, b: Str, u: Str)
    requires |a| < |b|
    ensures a + "-" + s == b + "-" + u <==> Longer(a, s, b, u)
    ensures !Longer(b, u, a, s)
  {
    var v, w := a + "-" + s, b + "-" + u;
    if v == w {
      var x := b[|a| + 1..];
      assert v[..|a|] == a && w[..|a|] == b[..|a|] && v[|a|] == '-' && w[|a|] == b[|a|];
      assert b == a + "-" + x;
      assert v[|a| + 1..] == s && w[|a| + 1..] == x + "-" + u;
    }
    if x :| b == a + "-" + x && s == x + "-" + u {
      assert a + "-" + (x + "-" + u) == a + "-" + x + "-" + u;
    }
  }

  /** Subdomain names are kept apart by user only as long as no slug is another one, a dash and
      more: two tunnels get the same name iff slug and name agree, or one slug is longer by just
      what the other name is longer by. */
  lemma {:induction false} SubdomainsMeet(cfg: Config, a: Account, b: Account, d: Def, e: Def)
    requires SubName(d).Some? && SubName(e).Some?
    ensures var s, u := SubName(d).value, SubName(e).value;
      var i, j := InputFor(cfg, a, d), InputFor(cfg, b, e);
      && i.sub.Some? && j.sub.Some?
      && (i.sub == j.sub <==> (a.slug == b.slug && s == u) || Longer(a.slug, s, b.slug, u) || Longer(b.slug, u, a.slug, s))
  {
    hide SubName, Longer;
    JoinedMeet(a.slug, SubName(d).value, b.slug, SubName(e).value);
  }

  /** The users `a` and `a-x` with the names `x-y` and `y`: the second one takes over the first
      one's subdomain, and loses it when the first one leaves. */
  lemma {:induction false} SubdomainTaken(cfg: Config, who: Accounts, c: Conn, d: Conn, sc: Sender, sd: Sender)
    requires c != d && c in who && d in who && who[c].maxTunnels >= 1 && who[d].maxTunnels >= 1
    requires who[c].slug == "a" && who[d].slug == "a-x"
    ensures var k := Sub("a-x-y");
      var es := [Message(c, sc, map[], [Def("t", None, Some("x-y"), None)]), Message(d, sd, map[], [Def("t", None, Some("y"), None)])];
      var t, u := Exec(cfg, who, es), Exec(cfg, who, es + [Closed(c)]);
      && Listed(t.owned, c, k) && RoutesTo(View(t), k, d) && !RoutesTo(View(t), k, c)
      && Listed(u.owned, d, k) && !Routes(View(u), k)
  {
    hide Exec, View, RoutesTo, Routes, Listed, WebDef, InputFor, KeysOfOne, NameChar;
    NamesOfInstance();
    NamedKey(cfg, who[c], "x-y", "a-x-y");
    NamedKey(cfg, who[d], "y", "a-x-y");
    TwoListers(cfg, who, c, d, sc, sd, Def("t", None, Some("x-y"), None), Def("t", None, Some("y"), None), Sub("a-x-y"));
  }

  predicate CleanName(s: Str) {
    s != [] && (forall i :: 0 <= i < |s| ==> NameChar(s[i])) && s[0] != '-' && s[|s| - 1] != '-'
  }

  lemma {:induction false} NamesOfInstance()
    ensures CleanName("x-y") && CleanName("y") && CleanName("a-x-y")
    ensures "a" + "-" + "x-y" == "a-x-y" == "a-x" + "-" + "y"
  {
  }

  lemma {:induction false} NamedKey(cfg: Config, acc: Account, name: Str, text: Str)
    requires CleanName(name) && CleanName(text) && acc.slug + "-" + name == text
    ensures var d := Def("t", None, Some(name), None); WebDef(d) && Sub(text) in KeysOfOne(InputFor(cfg, acc, d))
  {
    hide SanitizeName, Trim, Lower, KeysOfOne, NameChar;
    CleanStays(name);
    LowerStays(text);
    OneLetter();
    OneKeys(InputFor(cfg, acc, Def("t", None, Some(name), None)), Sub(text));
  }

  lemma {:induction false} OneLetter()
    ensures Trim("t") == "t"
  {
    assert TrimStart("t") == "t" && TrimEnd("t") == "t";
  }

  lemma {:induction false} LowerStays(s: Str)
    requires CleanName(s)
    ensures Lower(s) == s
  {
  }

  lemma {:induction false} CleanStays(s: Str)
    requires CleanName(s)
    ensures SanitizeName(s) == s
  {
    hide Clean, NameChar;
    CleanPlain(s);
  }

  /** Names that are clean already stay as they are. */
  lemma {:induction false} CleanPlain(s: Str)
    requires forall i :: 0 <= i < |s| ==> NameChar(s[i])
    ensures Clean(s) == s
    decreases |s|
  {
    if s != [] { CleanPlain(s[..|s| - 1]); }
  }
}
