/** What holds of the route table in every run of register messages and closed connections. */
module RegistryRuns {
  import opened Bytes
  import opened Text
  import opened Registry
  import opened RegistryFacts
  import opened Prepare

  // ---- every route is listed by its connection ----

  predicate Listed(owned: map<Conn, seq<Key>>, c: Conn, k: Key) { c in owned && k in owned[c] }

  predicate SubsLinked(subs: map<Str, Target>, owned: map<Conn, seq<Key>>) {
    forall s :: s in subs ==> Listed(owned, subs[s].conn, Sub(s))
  }

  predicate PathsLinked(paths: map<Str, Target>, owned: map<Conn, seq<Key>>) {
    forall p :: p in paths ==> Listed(owned, paths[p].conn, Path(p))
  }

  predicate ConnsOk(t: Tables) {
    t.owned.Keys == t.clients.Keys && t.owned.Keys == t.users.Keys
  }

  /** The path list is sorted without repetition, and no route dangles. */
  predicate TablesOk(t: Tables) {
    ListOk(t.paths) && ConnsOk(t) && SubsLinked(View(t).subs, t.owned) && PathsLinked(View(t).paths, t.owned)
  }

  /** No entry of any table mentions the connection. */
  predicate Unmentioned(t: Tables, c: Conn) {
    && (forall s :: s in t.subs ==> t.subs[s].conn != c)
    && (forall i :: 0 <= i < |t.paths| ==> t.paths[i].target.conn != c)
    && c !in t.clients && c !in t.users && c !in t.owned && forall k :: k in t.ports ==> k.conn != c
  }

  lemma {:induction false} DisownOk(t: Tables, c: Conn)
    requires TablesOk(t)
    ensures var u, v := Disown(t, c), View(Disown(t, c));
      && ListOk(u.paths) && SubsLinked(v.subs, u.owned) && PathsLinked(v.paths, u.owned)
      && (forall s :: s in v.subs ==> v.subs[s].conn != c) && (forall p :: p in v.paths ==> v.paths[p].conn != c)
      && u.owned == t.owned - {c} && u.clients == t.clients && u.users == t.users && u.ports == t.ports
      && u.used == t.used
  {
    hide ListOk, PathMap, Disown;
    DisownView(t, c);
    var v := View(Disown(t, c));
    forall s | s in v.subs ensures v.subs[s].conn != c && Listed(t.owned, v.subs[s].conn, Sub(s)) {}
    forall p | p in v.paths ensures v.paths[p].conn != c && Listed(t.owned, v.paths[p].conn, Path(p)) {}
  }

  /** A route after adding inputs is an old one, or the connection's own and among its keys. */
  lemma {:induction false} PlusFrom(m: Maps, c: Conn, inputs: seq<Input>, n: nat)
    requires n <= |inputs|
    ensures var r := PlusInputs(m, c, inputs, n);
      && (forall s :: s in r.subs ==> (s in m.subs && r.subs[s] == m.subs[s]) || (r.subs[s].conn == c && Sub(s) in KeysOf(inputs, n)))
      && (forall p :: p in r.paths ==> (p in m.paths && r.paths[p] == m.paths[p]) || (r.paths[p].conn == c && Path(p) in KeysOf(inputs, n)))
  {
    hide NormalizePrefix, Lower;
    if n > 0 {
      PlusFrom(m, c, inputs, n - 1);
      KeysSnoc(inputs, n);
    }
  }

  lemma {:induction false} KeysSnoc(inputs: seq<Input>, n: nat)
    requires 0 < n <= |inputs|
    ensures forall k :: k in KeysOf(inputs, n) <==> k in KeysOf(inputs, n - 1) || k in KeysOfOne(inputs[n - 1])
    ensures inputs[n - 1].sub.Some? ==> Sub(Lower(inputs[n - 1].sub.value)) in KeysOfOne(inputs[n - 1])
    ensures inputs[n - 1].path.Some? ==> Path(NormalizePrefix(inputs[n - 1].path.value)) in KeysOfOne(inputs[n - 1])
  {
    hide NormalizePrefix, Lower;
    var i := inputs[n - 1];
    if i.sub.Some? { assert KeysOfOne(i)[0] == Sub(Lower(i.sub.value)); }
    if i.path.Some? { assert KeysOfOne(i)[|KeysOfOne(i)| - 1] == Path(NormalizePrefix(i.path.value)); }
  }

  lemma {:induction false} RegisteredOk(t: Tables, c: Conn, u: User, sender: Sender, inputs: seq<Input>)
    requires TablesOk(t)
    ensures TablesOk(Registered(t, c, u, sender, inputs))
  {
    hide ListOk, PathMap, Registered, Disown, KeysOf, PlusInputs, MinusKeys;
    RegisteredView(t, c, u, sender, inputs);
    DisownOk(t, c);
    DisownView(t, c);
    PlusFrom(View(Disown(t, c)), c, inputs, |inputs|);
  }

  /** After a connection is gone nothing mentions it, and nothing else dangles. */
  lemma {:induction false} RemovedOk(t: Tables, c: Conn)
    requires TablesOk(t)
    ensures TablesOk(Removed(t, c)) && Unmentioned(Removed(t, c), c)
  {
    hide ListOk, PathMap, Disown;
    DisownOk(t, c);
    var u := Disown(t, c);
    assert View(Removed(t, c)) == View(u);
    PathMapTargets(u.paths, c);
  }

  lemma {:induction false} PathMapTargets(paths: seq<Route>, c: Conn)
    requires forall p :: p in PathMap(paths) ==> PathMap(paths)[p].conn != c
    ensures ListOk(paths) ==> forall i :: 0 <= i < |paths| ==> paths[i].target.conn != c
  {
    hide Descending;
    PathMapIs(paths);
    if ListOk(paths) {
      forall i | 0 <= i < |paths| ensures paths[i].target.conn != c {
        assert paths[i] in paths;
        assert PathMap(paths)[paths[i].prefix] == paths[i].target;
      }
    }
  }

  /** Ports do not matter to the routes. */
  lemma {:induction false} PortsAside(t: Tables, u: Tables)
    requires TablesOk(t) && u == t.(ports := u.ports, used := u.used)
    ensures TablesOk(u) && View(u) == View(t)
  {
    hide ListOk, PathMap;
  }

  lemma {:induction false} PrepareTables(t: Tables, cfg: Config, acc: Account, rows: map<Str, Row>, c: Conn,
          defs: seq<Def>, n: nat)
    requires n <= |defs|
    ensures var u := PrepareAll(t, cfg, acc, rows, c, defs, n).tables; u == t.(ports := u.ports, used := u.used)
  {
    hide PrepareOne;
    if n > 0 { PrepareTables(t, cfg, acc, rows, c, defs, n - 1); }
  }

  // ---- namespaces ----

  predicate SlugOk(s: Str) { s != [] && forall i :: 0 <= i < |s| ==> NameChar(s[i]) }

  predicate NsOk(ns: Str) { ns == [] || ns[0] == '/' }

  /** A path below `base` stays there when it is normalised. */
  lemma {:induction false} NormalizeStays(base: Str, x: Str)
    requires base != [] && base[0] == '/' && base[|base| - 1] != '/' && !IsWhite(base[|base| - 1]) && Covers(base, x)
    ensures Covers(base, NormalizePrefix(x))
  {
    assert base <= x;
    Normalized(base, x, NormalizePrefix(x));
    Within(base, x, NormalizePrefix(x));
  }

  lemma {:induction false} Normalized(base: Str, x: Str, n: Str)
    requires base != [] && base[0] == '/' && base[|base| - 1] != '/' && !IsWhite(base[|base| - 1]) && base <= x
    requires n == NormalizePrefix(x)
    ensures base <= n <= x
  {
    hide TrimStart, TrimEnd, StripSlashes, IsWhite;
    var t := TrimEnd(x);
    NoTrim(x);
    TrimEndKeeps(base, x);
    StripKeeps(base, t);
    assert t <= x && n == StripSlashes(t);
  }

  lemma {:induction false} NoTrim(x: Str)
    requires x != [] && x[0] == '/'
    ensures TrimStart(x) == x
  {
  }

  /** Between a path and a path below it there are only paths below it. */
  lemma {:induction false} Within(base: Str, x: Str, n: Str)
    requires Covers(base, x) && base <= n <= x
    ensures Covers(base, n)
  {
    if n != base { assert n[|base|] == x[|base|] == (base + "/")[|base|]; }
  }

  lemma {:induction false} TrimEndKeeps(base: Str, x: Str)
    requires base != [] && !IsWhite(base[|base| - 1]) && base <= x
    ensures base <= TrimEnd(x)
    decreases |x|
  {
    if IsWhite(x[|x| - 1]) { TrimEndKeeps(base, x[..|x| - 1]); }
  }

  lemma {:induction false} StripKeeps(base: Str, x: Str)
    requires base != [] && base[|base| - 1] != '/' && base <= x
    ensures base <= StripSlashes(x)
    decreases |x|
  {
    if |x| > 1 && x[|x| - 1] == '/' { StripKeeps(base, x[..|x| - 1]); }
  }

  lemma {:induction false} BaseShape(ns: Str, slug: Str)
    requires NsOk(ns) && SlugOk(slug)
    ensures var b := Base(ns, slug); b != [] && b[0] == '/' && b[|b| - 1] != '/' && !IsWhite(b[|b| - 1])
  {
    var b := Base(ns, slug);
    assert b[|b| - 1] == slug[|slug| - 1];
  }

  /** The path a definition gets, as the route table stores it, lies in the user's namespace. */
  lemma {:induction false} EffPathStays(ns: Str, slug: Str, tid: Str, path: Option<Str>)
    requires NsOk(ns) && SlugOk(slug)
    ensures Covers(Base(ns, slug), NormalizePrefix(EffPath(Base(ns, slug), tid, path)))
  {
    hide NormalizePrefix, Trim;
    var b := Base(ns, slug);
    BaseShape(ns, slug);
    var x := EffPath(b, tid, path);
    assert Covers(b, x) by {
      if NonBlank(path).Some? {
        var n := NormalizePrefix(NonBlank(path).value);
        assert !Covers(b, n) ==> x == b + n && b + "/" <= x;
      } else {
        assert b + "/" <= b + "/" + tid;
      }
    }
    NormalizeStays(b, x);
  }

  /** Namespaces of different slugs have no path in common. */
  lemma {:induction false} NamespacesApart(ns: Str, a: Str, b: Str, p: Str)
    requires SlugOk(a) && SlugOk(b) && Covers(Base(ns, a), p) && Covers(Base(ns, b), p)
    ensures a == b
  {
    if |a| <= |b| { SlugPrefix(ns, a, b, p); } else { SlugPrefix(ns, b, a, p); }
  }

  lemma {:induction false} SlugPrefix(ns: Str, a: Str, b: Str, p: Str)
    requires SlugOk(a) && SlugOk(b) && Covers(Base(ns, a), p) && Covers(Base(ns, b), p) && |a| <= |b|
    ensures a == b
  {
    var k := |ns| + 1;
    var x, y := Base(ns, a), Base(ns, b);
    assert x <= p && y <= p;
    forall i | 0 <= i < |a| ensures a[i] == b[i] {
      assert x[k + i] == a[i] && y[k + i] == b[i] && p[k + i] == x[k + i] == y[k + i];
    }
    if |a| < |b| {
      NextInSlug(ns, a, b, p);
    }
    assert a == b;
  }

  lemma {:induction false} NextInSlug(ns: Str, a: Str, b: Str, p: Str)
    requires SlugOk(b) && Base(ns, b) <= p && |a| < |b|
    ensures |Base(ns, a)| < |p| && NameChar(p[|Base(ns, a)|])
  {
    assert Base(ns, b)[|Base(ns, a)|] == b[|a|];
  }

  lemma {:induction false} CoversThrough(a: Str, b: Str, p: Str)
    requires Covers(a, b) && Covers(b, p)
    ensures Covers(a, p)
  {
  }

  // ---- runs ----

  datatype Event =
    | Message(conn: Conn, sender: Sender, rows: map<Str, Row>, defs: seq<Def>)
    | Closed(conn: Conn)

  /** Which account every connection was opened for. */
  type Accounts = map<Conn, Account>

  /** Users and slugs determine each other. */
  predicate AccountsOk(who: Accounts) {
    && (forall c :: c in who ==> SlugOk(who[c].slug))
    && (forall c, d :: c in who && d in who ==> (who[c].id == who[d].id <==> who[c].slug == who[d].slug))
  }

  function Step(cfg: Config, who: Accounts, t: Tables, e: Event): Tables {
    match e
    case Message(c, sender, rows, defs) => if c in who then Handled(t, cfg, who[c], rows, c, sender, defs) else t
    case Closed(c) => Removed(t, c)
  }

  function Exec(cfg: Config, who: Accounts, es: seq<Event>): Tables {
    if es == [] then EMPTY else Step(cfg, who, Exec(cfg, who, es[..|es| - 1]), es[|es| - 1])
  }

  lemma {:induction false} RunOk(cfg: Config, who: Accounts, es: seq<Event>)
    ensures TablesOk(Exec(cfg, who, es))
    decreases |es|
  {
    hide TablesOk, Registered, PrepareAll, Routed, Removed;
    if es == [] {
      EmptyOk();
    } else {
      var t := Exec(cfg, who, es[..|es| - 1]);
      RunOk(cfg, who, es[..|es| - 1]);
      match es[|es| - 1]
      case Message(c, sender, rows, defs) =>
        if c in who {
          var r := Released(t, c);
          PortsAside(t, r);
          PrepareTables(r, cfg, who[c], rows, c, defs, |defs|);
          var b := PrepareAll(r, cfg, who[c], rows, c, defs, |defs|);
          PortsAside(r, b.tables);
          RegisteredOk(b.tables, c, who[c].id, sender, Routed(b.prepared, |b.prepared|));
        }
      case Closed(c) => RemovedOk(t, c);
    }
  }

  lemma {:induction false} EmptyOk()
    ensures TablesOk(EMPTY)
  {
  }

  /** In every run the path list has distinct prefixes in non-increasing length, every route is listed
      by its connection, and that connection is known; after a close nothing mentions it. */
  lemma {:induction false} NoDangling(cfg: Config, who: Accounts, es: seq<Event>, c: Conn)
    ensures var t := Exec(cfg, who, es);
      && Descending(t.paths) && Apart(t.paths)
      && (forall s :: s in t.subs ==>
            Listed(t.owned, t.subs[s].conn, Sub(s)) && t.subs[s].conn in t.clients && t.subs[s].conn in t.users)
      && (forall i :: 0 <= i < |t.paths| ==>
            var d := t.paths[i].target.conn; Listed(t.owned, d, Path(t.paths[i].prefix)) && d in t.clients && d in t.users)
      && Unmentioned(Exec(cfg, who, es + [Closed(c)]), c)
  {
    hide Descending, Apart, PathMap, Exec, Removed, Unmentioned;
    RunOk(cfg, who, es);
    var t := Exec(cfg, who, es);
    PathMapIs(t.paths);
    assert forall i :: 0 <= i < |t.paths| ==> t.paths[i] in t.paths;
    ExecSnoc(cfg, who, es, Closed(c));
    RemovedOk(t, c);
  }

  lemma {:induction false} ExecSnoc(cfg: Config, who: Accounts, es: seq<Event>, e: Event)
    ensures Exec(cfg, who, es + [e]) == Step(cfg, who, Exec(cfg, who, es), e)
  {
    hide Step;
    assert (es + [e])[..|es|] == es;
  }

  /** At most one route is the longest match, so `lookup` has one answer. */
  lemma {:induction false} OneLongest(paths: seq<Route>, path: Str, a: Route, b: Route)
    requires Apart(paths) && LongestMatch(paths, path, a) && LongestMatch(paths, path, b)
    ensures a == b && if path == a.prefix then Rest(a.prefix, path) == "/" else a.prefix + Rest(a.prefix, path) == path
  {
    var i :| 0 <= i < |paths| && paths[i] == a;
    var j :| 0 <= j < |paths| && paths[j] == b;
    assert a.prefix == path[..|a.prefix|] && b.prefix == path[..|b.prefix|];
  }

  // ---- every user stays in its namespace ----

  /** The user whose account the connection was opened for, with a key in that user's namespace. */
  predicate OwnPath(ns: Str, who: Accounts, c: Conn, p: Str) { c in who && Covers(Base(ns, who[c].slug), p) }

  predicate OwnKey(ns: Str, who: Accounts, c: Conn, k: Key) { k.Path? ==> OwnPath(ns, who, c, k.prefix) }

  ghost predicate KeysInNs(ns: Str, who: Accounts, owned: map<Conn, seq<Key>>) {
    forall c, k :: Listed(owned, c, k) ==> OwnKey(ns, who, c, k)
  }

  predicate UsersOk(who: Accounts, paths: map<Str, Target>) {
    forall p :: p in paths ==> paths[p].conn in who && paths[p].user == who[paths[p].conn].id
  }

  predicate AllInNs(ns: Str, acc: Account, ps: seq<Prepared>) {
    forall i :: 0 <= i < |ps| ==> InputInNs(ns, acc, ps[i].input)
  }

  lemma {:induction false} PreparedInNs(t: Tables, cfg: Config, acc: Account, rows: map<Str, Row>, c: Conn,
          defs: seq<Def>, n: nat)
    requires n <= |defs| && NsOk(cfg.pathNs) && SlugOk(acc.slug)
    ensures AllInNs(cfg.pathNs, acc, PrepareAll(t, cfg, acc, rows, c, defs, n).prepared)
  {
    hide PrepareOne, BoundBy, InputInNs;
    if n > 0 {
      PreparedInNs(t, cfg, acc, rows, c, defs, n - 1);
      OneInNs(PrepareAll(t, cfg, acc, rows, c, defs, n - 1).tables.used, cfg, acc, rows, defs[n - 1]);
    }
  }

  predicate InputInNs(ns: Str, acc: Account, i: Input) {
    i.user == acc.id && (i.path.Some? ==> Covers(Base(ns, acc.slug), NormalizePrefix(i.path.value)))
  }

  lemma {:induction false} OneInNs(used: set<nat>, cfg: Config, acc: Account, rows: map<Str, Row>, def: Def)
    requires NsOk(cfg.pathNs) && SlugOk(acc.slug)
    ensures var o := PrepareOne(used, cfg, acc, rows, def); o.Ready? ==> InputInNs(cfg.pathNs, acc, o.prepared.input)
  {
    hide NormalizePrefix, Covers, Trim, EffPath, FindFree, DecimalText, SanitizeName;
    EffPathStays(cfg.pathNs, acc.slug, Trim(def.tunnelId), def.pathPrefix);
  }

  lemma {:induction false} RoutedFrom(ps: seq<Prepared>, n: nat, ns: Str, acc: Account)
    requires n <= |ps| && AllInNs(ns, acc, ps)
    ensures forall i :: 0 <= i < |Routed(ps, n)| ==> InputInNs(ns, acc, Routed(ps, n)[i])
  {
    hide InputInNs;
    if n > 0 { RoutedFrom(ps, n - 1, ns, acc); }
  }

  lemma {:induction false} KeysFrom(inputs: seq<Input>, n: nat, ns: Str, who: Accounts, c: Conn)
    requires n <= |inputs| && c in who && forall i :: 0 <= i < |inputs| ==> InputInNs(ns, who[c], inputs[i])
    ensures forall k :: k in KeysOf(inputs, n) ==> OwnKey(ns, who, c, k)
  {
    hide NormalizePrefix, Covers, Lower;
    if n > 0 {
      KeysFrom(inputs, n - 1, ns, who, c);
      KeysSnoc(inputs, n);
    }
  }

  lemma {:induction false} PlusUsers(m: Maps, c: Conn, inputs: seq<Input>, n: nat, who: Accounts, ns: Str)
    requires n <= |inputs| && c in who && forall i :: 0 <= i < |inputs| ==> InputInNs(ns, who[c], inputs[i])
    requires UsersOk(who, m.paths)
    ensures UsersOk(who, PlusInputs(m, c, inputs, n).paths)
    ensures forall p :: !Covers(Base(ns, who[c].slug), p) ==>
      (p in PlusInputs(m, c, inputs, n).paths <==> p in m.paths)
      && (p in m.paths ==> PlusInputs(m, c, inputs, n).paths[p] == m.paths[p])
  {
    hide NormalizePrefix, Covers, Lower;
    if n > 0 { PlusUsers(m, c, inputs, n - 1, who, ns); }
  }

  ghost predicate IsoOk(ns: Str, who: Accounts, t: Tables) {
    TablesOk(t) && KeysInNs(ns, who, t.owned) && UsersOk(who, View(t).paths)
  }

  /** Paths outside the namespace are routed as before. */
  ghost predicate SameOutside(base: Str, before: map<Str, Target>, after: map<Str, Target>) {
    forall p :: !Covers(base, p) ==> (p in after <==> p in before) && (p in before ==> after[p] == before[p])
  }

  lemma {:induction false} DisownIso(ns: Str, who: Accounts, t: Tables, c: Conn)
    requires IsoOk(ns, who, t)
    ensures var u := Disown(t, c);
      && KeysInNs(ns, who, u.owned) && UsersOk(who, View(u).paths)
      && (c in who ==> SameOutside(Base(ns, who[c].slug), View(t).paths, View(u).paths))
      && (c !in who ==> View(u).paths == View(t).paths)
  {
    hide ListOk, PathMap, Disown, Covers, ConnsOk, SubsLinked, PathsLinked;
    DisownView(t, c);
    var keys := OwnedBy(t, c);
    forall k | k in keys ensures OwnKey(ns, who, c, k) { assert Listed(t.owned, c, k); }
  }

  lemma {:induction false} RegisterIso(ns: Str, who: Accounts, t: Tables, c: Conn, sender: Sender, inputs: seq<Input>)
    requires IsoOk(ns, who, t) && c in who && forall i :: 0 <= i < |inputs| ==> InputInNs(ns, who[c], inputs[i])
    ensures var u := Registered(t, c, who[c].id, sender, inputs);
      IsoOk(ns, who, u) && SameOutside(Base(ns, who[c].slug), View(t).paths, View(u).paths)
  {
    hide ListOk, PathMap, Disown, Covers, Registered, KeysOf, PlusInputs, MinusKeys, TablesOk, InputInNs;
    assert ListOk(t.paths) by { ListsOk(t); }
    RegisteredOk(t, c, who[c].id, sender, inputs);
    RegisteredView(t, c, who[c].id, sender, inputs);
    DisownIso(ns, who, t, c);
    DisownView(t, c);
    KeysFrom(inputs, |inputs|, ns, who, c);
    PlusUsers(View(Disown(t, c)), c, inputs, |inputs|, who, ns);
  }

  lemma {:induction false} ListsOk(t: Tables)
    requires TablesOk(t)
    ensures ListOk(t.paths)
  {
  }

  lemma {:induction false} StepIso(cfg: Config, who: Accounts, t: Tables, e: Event)
    requires IsoOk(cfg.pathNs, who, t) && NsOk(cfg.pathNs) && AccountsOk(who)
    ensures var u := Step(cfg, who, t, e);
      && IsoOk(cfg.pathNs, who, u)
      && (e.conn in who ==> SameOutside(Base(cfg.pathNs, who[e.conn].slug), View(t).paths, View(u).paths))
      && (e.conn !in who ==> View(u).paths == View(t).paths)
  {
    hide TablesOk, PathMap, Registered, PrepareAll, Routed, KeysInNs, UsersOk, Covers, Disown, InputInNs;
    match e
    case Message(c, sender, rows, defs) =>
      if c in who && |defs| <= who[c].maxTunnels {
        var r := Released(t, c);
        PortsAside(t, r);
        PrepareTables(r, cfg, who[c], rows, c, defs, |defs|);
        PreparedInNs(r, cfg, who[c], rows, c, defs, |defs|);
        var b := PrepareAll(r, cfg, who[c], rows, c, defs, |defs|);
        PortsAside(r, b.tables);
        RoutedFrom(b.prepared, |b.prepared|, cfg.pathNs, who[c]);
        RegisterIso(cfg.pathNs, who, b.tables, c, sender, Routed(b.prepared, |b.prepared|));
      }
    case Closed(c) =>
      RemovedOk(t, c);
      DisownIso(cfg.pathNs, who, t, c);
      assert View(Removed(t, c)) == View(Disown(t, c)) && Removed(t, c).owned == Disown(t, c).owned;
  }

  lemma {:induction false} RunIso(cfg: Config, who: Accounts, es: seq<Event>)
    requires NsOk(cfg.pathNs) && AccountsOk(who)
    ensures IsoOk(cfg.pathNs, who, Exec(cfg, who, es))
    decreases |es|
  {
    hide IsoOk, Step;
    if es == [] {
      EmptyIso(cfg.pathNs, who);
    } else {
      RunIso(cfg, who, es[..|es| - 1]);
      StepIso(cfg, who, Exec(cfg, who, es[..|es| - 1]), es[|es| - 1]);
    }
  }

  lemma {:induction false} EmptyIso(ns: Str, who: Accounts)
    ensures IsoOk(ns, who, EMPTY)
  {
  }

  lemma {:induction false} RouteInNs(ns: Str, who: Accounts, t: Tables, r: Route)
    requires IsoOk(ns, who, t) && r in t.paths
    ensures OwnPath(ns, who, r.target.conn, r.prefix) && r.target.user == who[r.target.conn].id
  {
    hide Descending, ConnsOk, SubsLinked, Covers;
    PathMapIs(t.paths);
    assert Listed(t.owned, r.target.conn, Path(r.prefix));
  }

  /** In every run, every path route lies in the namespace of the user it belongs to, and a request
      below a user's namespace is never answered by another user's route. */
  lemma {:induction false} Isolation(cfg: Config, who: Accounts, es: seq<Event>, r: Route)
    requires NsOk(cfg.pathNs) && AccountsOk(who) && r in Exec(cfg, who, es).paths
    ensures OwnPath(cfg.pathNs, who, r.target.conn, r.prefix) && r.target.user == who[r.target.conn].id
    ensures forall d, path ::
      d in who && Covers(Base(cfg.pathNs, who[d].slug), path) && LongestMatch(Exec(cfg, who, es).paths, path, r)
      ==> r.target.user == who[d].id
  {
    hide Exec, Covers, SlugOk;
    RunIso(cfg, who, es);
    RouteInNs(cfg.pathNs, who, Exec(cfg, who, es), r);
    var c := r.target.conn;
    forall d, path | d in who && Covers(Base(cfg.pathNs, who[d].slug), path) && LongestMatch(Exec(cfg, who, es).paths, path, r)
      ensures r.target.user == who[d].id
    {
      CoversThrough(Base(cfg.pathNs, who[c].slug), r.prefix, path);
      NamespacesApart(cfg.pathNs, who[c].slug, who[d].slug, path);
    }
  }

  /** In every run, whatever one user's connection does, the path routes of other users stay as they are. */
  lemma {:induction false} OthersUntouched(cfg: Config, who: Accounts, es: seq<Event>, e: Event, r: Route)
    requires NsOk(cfg.pathNs) && AccountsOk(who) && e.conn in who && r.target.user != who[e.conn].id
    ensures r in Exec(cfg, who, es).paths <==> r in Exec(cfg, who, es + [e]).paths
  {
    hide Exec, Covers, SlugOk, Step, PathMap;
    var t, u := Exec(cfg, who, es), Exec(cfg, who, es + [e]);
    ExecSnoc(cfg, who, es, e);
    RunIso(cfg, who, es);
    StepIso(cfg, who, t, e);
    PathMapIs(t.paths);
    PathMapIs(u.paths);
    if r in t.paths || r in u.paths {
      if r in t.paths { RouteInNs(cfg.pathNs, who, t, r); } else { RouteInNs(cfg.pathNs, who, u, r); }
      if Covers(Base(cfg.pathNs, who[e.conn].slug), r.prefix) {
        NamespacesApart(cfg.pathNs, who[e.conn].slug, who[r.target.conn].slug, r.prefix);
      }
    }
  }
}
