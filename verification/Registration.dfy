/** What a register message does to the routes, definition by definition, in terms of what the user
    asked for and what the database remembers. */
module Registration {
  import opened Bytes
  import opened Text
  import opened Registry
  import opened RegistryFacts
  import opened Prepare
  import opened RegistryRuns

  // ---- what a definition asks for ----

  predicate HasSubName(d: Def) { d.subdomain.Some? && SanitizeName(d.subdomain.value) != "" }

  /** The path that the definition gets: the one it names if that lies in the user's part of the path
      space, else moved there; the tunnel's name there if it names none. */
  function PathFor(cfg: Config, acc: Account, d: Def): Str {
    var base := cfg.pathNs + "/" + acc.slug;
    if d.pathPrefix == None || Trim(d.pathPrefix.value) == "" then base + "/" + Trim(d.tunnelId)
    else
      var p := NormalizePrefix(Trim(d.pathPrefix.value));
      if p == base || base + "/" <= p then p else base + p
  }

  /** An HTTP-like tunnel that is named and not disabled. */
  predicate Routable(rows: map<Str, Row>, d: Def) {
    && Trim(d.tunnelId) != "" && d.proto != Some("tcp")
    && (Trim(d.tunnelId) in rows ==> !rows[Trim(d.tunnelId)].disabled)
  }

  /** The definition asks for the key: a subdomain if it names one, which only plain HTTP tunnels
      get, and a path otherwise. */
  predicate AsksFor(cfg: Config, acc: Account, rows: map<Str, Row>, d: Def, k: Key) {
    Routable(rows, d) &&
    match k
    case Sub(s) =>
      HasSubName(d) && (d.proto == None || d.proto == Some("http"))
      && s == Lower(acc.slug + "-" + SanitizeName(d.subdomain.value))
    case Path(p) => !HasSubName(d) && p == NormalizePrefix(PathFor(cfg, acc, d))
  }

  /** `t` is the target the definition asks for under the key. */
  predicate IsTarget(t: Target, c: Conn, acc: Account, rows: map<Str, Row>, d: Def, k: Key) {
    var tid := Trim(d.tunnelId);
    && t.conn == c && t.user == acc.id && t.slug == acc.slug && t.tunnelId == tid
    && t.proto == (if d.proto.Some? then d.proto.value else "http")
    && t.visitorAuth == (if tid in rows then rows[tid].visitorAuth else None)
    && t.stripPrefix == (if k.Path? then Some(k.prefix) else None)
  }

  /** Where a key is routed to. */
  function At(m: Maps, k: Key): Option<Target> {
    match k
    case Sub(s) => if s in m.subs then Some(m.subs[s]) else None
    case Path(p) => if p in m.paths then Some(m.paths[p]) else None
  }

  /** The `i`-th of the first `n` definitions is the last one that asks for the key. */
  predicate LastToAsk(cfg: Config, acc: Account, rows: map<Str, Row>, defs: seq<Def>, n: nat, k: Key, i: nat)
    requires n <= |defs|
  {
    i < n && AsksFor(cfg, acc, rows, defs[i], k) && forall j :: i < j < n ==> !AsksFor(cfg, acc, rows, defs[j], k)
  }

  predicate Asked(cfg: Config, acc: Account, rows: map<Str, Row>, defs: seq<Def>, n: nat, k: Key)
    requires n <= |defs|
  {
    exists i :: 0 <= i < n && AsksFor(cfg, acc, rows, defs[i], k)
  }

  // ---- one definition ----

  /** The inputs that the first `n` definitions give. */
  function InputsOf(t: Tables, cfg: Config, acc: Account, rows: map<Str, Row>, c: Conn, defs: seq<Def>, n: nat): seq<Input>
    requires n <= |defs|
  {
    var ps := PrepareAll(t, cfg, acc, rows, c, defs, n).prepared; Routed(ps, |ps|)
  }

  lemma {:induction false} RoutedPrefix(a: seq<Prepared>, b: seq<Prepared>, n: nat)
    requires n <= |a| && a <= b
    ensures Routed(b, n) == Routed(a, n)
  {
    if n > 0 { RoutedPrefix(a, b, n - 1); }
  }

  lemma {:induction false} InputsSnoc(t: Tables, cfg: Config, acc: Account, rows: map<Str, Row>, c: Conn, defs: seq<Def>, n: nat)
    requires n < |defs|
    ensures var used := PrepareAll(t, cfg, acc, rows, c, defs, n).tables.used;
      var o := PrepareOne(used, cfg, acc, rows, defs[n]);
      InputsOf(t, cfg, acc, rows, c, defs, n + 1) ==
        InputsOf(t, cfg, acc, rows, c, defs, n) + if o.Ready? && !o.prepared.disabled then [o.prepared.input] else []
  {
    hide PrepareOne, BoundBy;
    var b := PrepareAll(t, cfg, acc, rows, c, defs, n);
    var o := PrepareOne(b.tables.used, cfg, acc, rows, defs[n]);
    if o.Ready? { RoutedPrefix(b.prepared, b.prepared + [o.prepared], |b.prepared|); }
  }

  /** What one definition comes to: an input under the keys it asks for, with the target it asks for. */
  lemma {:induction false} OneAsks(used: set<nat>, cfg: Config, acc: Account, rows: map<Str, Row>, c: Conn, d: Def, k: Key)
    ensures var o := PrepareOne(used, cfg, acc, rows, d);
      if o.Ready? && !o.prepared.disabled then
        && (k in KeysOfOne(o.prepared.input) <==> AsksFor(cfg, acc, rows, d, k))
        && (AsksFor(cfg, acc, rows, d, k) ==> IsTarget(TargetOf(c, o.prepared.input), c, acc, rows, d, k))
      else !AsksFor(cfg, acc, rows, d, k)
  {
    hide SanitizeName, Trim, NormalizePrefix, Lower, FindFree, DecimalText;
    var o := PrepareOne(used, cfg, acc, rows, d);
    if o.Ready? { OneKeys(o.prepared.input, k); }
  }

  lemma {:induction false} OneKeys(i: Input, k: Key)
    ensures k in KeysOfOne(i) <==>
      (i.sub.Some? && k == Sub(Lower(i.sub.value))) || (i.path.Some? && k == Path(NormalizePrefix(i.path.value)))
  {
    hide NormalizePrefix, Lower;
    if i.sub.Some? { assert KeysOfOne(i)[0] == Sub(Lower(i.sub.value)); }
    if i.path.Some? { assert KeysOfOne(i)[|KeysOfOne(i)| - 1] == Path(NormalizePrefix(i.path.value)); }
  }

  // ---- all definitions ----

  lemma {:induction false} PlusPrefix(m: Maps, c: Conn, a: seq<Input>, b: seq<Input>, n: nat)
    requires n <= |a| && a <= b
    ensures PlusInputs(m, c, b, n) == PlusInputs(m, c, a, n) && KeysOf(b, n) == KeysOf(a, n)
  {
    hide PlusInput, KeysOfOne;
    if n > 0 { PlusPrefix(m, c, a, b, n - 1); }
  }

  /** One more input: its keys go to its target, the others stay. */
  lemma {:induction false} PlusAt(m: Maps, c: Conn, i: Input, k: Key)
    ensures At(PlusInput(m, c, i), k) == if k in KeysOfOne(i) then Some(TargetOf(c, i)) else At(m, k)
  {
    hide NormalizePrefix, Lower, TargetOf, KeysOfOne;
    OneKeys(i, k);
  }

  /** The last of the first `n` definitions that asks for the key. */
  function Winner(cfg: Config, acc: Account, rows: map<Str, Row>, defs: seq<Def>, n: nat, k: Key): (r: Option<nat>)
    requires n <= |defs|
    ensures r.Some? ==> r.value < n
  {
    if n == 0 then None
    else if AsksFor(cfg, acc, rows, defs[n - 1], k) then Some(n - 1)
    else Winner(cfg, acc, rows, defs, n - 1, k)
  }

  lemma {:induction false} WinnerIs(cfg: Config, acc: Account, rows: map<Str, Row>, defs: seq<Def>, n: nat, k: Key, i: nat)
    requires n <= |defs|
    ensures Asked(cfg, acc, rows, defs, n, k) <==> Winner(cfg, acc, rows, defs, n, k).Some?
    ensures LastToAsk(cfg, acc, rows, defs, n, k, i) ==> Winner(cfg, acc, rows, defs, n, k) == Some(i)
    decreases n
  {
    hide AsksFor;
    if n > 0 { WinnerIs(cfg, acc, rows, defs, n - 1, k, i); }
  }

  lemma {:induction false} MessageAt(t: Tables, cfg: Config, acc: Account, rows: map<Str, Row>, c: Conn, defs: seq<Def>,
        m: Maps, k: Key, n: nat)
    requires n <= |defs|
    ensures var xs := InputsOf(t, cfg, acc, rows, c, defs, n);
      var r, w := At(PlusInputs(m, c, xs, |xs|), k), Winner(cfg, acc, rows, defs, n, k);
      && (k in KeysOf(xs, |xs|) <==> w.Some?)
      && if w.None? then r == At(m, k) else r.Some? && IsTarget(r.value, c, acc, rows, defs[w.value], k)
  {
    hide PrepareOne, PrepareAll, AsksFor, IsTarget, At, PlusInput, KeysOfOne, TargetOf, Routed, InputsOf;
    var xs := InputsOf(t, cfg, acc, rows, c, defs, n);
    if n == 0 {
      NoInputs(t, cfg, acc, rows, c, defs);
    } else {
      var js := InputsOf(t, cfg, acc, rows, c, defs, n - 1);
      MessageAt(t, cfg, acc, rows, c, defs, m, k, n - 1);
      InputsSnoc(t, cfg, acc, rows, c, defs, n - 1);
      var used := PrepareAll(t, cfg, acc, rows, c, defs, n - 1).tables.used;
      OneAsks(used, cfg, acc, rows, c, defs[n - 1], k);
      PlusPrefix(m, c, js, xs, |js|);
      if |xs| > |js| { PlusAt(PlusInputs(m, c, js, |js|), c, xs[|js|], k); }
    }
  }

  lemma {:induction false} NoInputs(t: Tables, cfg: Config, acc: Account, rows: map<Str, Row>, c: Conn, defs: seq<Def>)
    ensures InputsOf(t, cfg, acc, rows, c, defs, 0) == []
  {
  }

  // ---- a whole message ----

  /** A register message that is within the quota, on any tables that a run reaches. The connection
      then lists exactly the keys that a definition asks for, each of them is routed to the target
      that the last definition asks for, its other keys are gone, and all other keys are routed
      as before. A message above the quota changes nothing. */
  lemma {:induction false} MessageRoutes(t: Tables, cfg: Config, acc: Account, rows: map<Str, Row>, c: Conn, sender: Sender,
        defs: seq<Def>, k: Key)
    requires TablesOk(t)
    ensures var u := Handled(t, cfg, acc, rows, c, sender, defs);
      if |defs| > acc.maxTunnels then u == t
      else
        && (Listed(u.owned, c, k) <==> Asked(cfg, acc, rows, defs, |defs|, k))
        && (forall i: nat :: LastToAsk(cfg, acc, rows, defs, |defs|, k, i) ==>
              At(View(u), k).Some? && IsTarget(At(View(u), k).value, c, acc, rows, defs[i], k))
        && (!Asked(cfg, acc, rows, defs, |defs|, k) ==> At(View(u), k) == if Listed(t.owned, c, k) then None else At(View(t), k))
  {
    hide PrepareAll, AsksFor, IsTarget, Registered, ListOk, PathMap, KeysOf, PlusInputs, Routed, MinusKeys, At, Winner, LastToAsk, Asked;
    if |defs| <= acc.maxTunnels {
      var r := Released(t, c);
      PrepareTables(r, cfg, acc, rows, c, defs, |defs|);
      var b := PrepareAll(r, cfg, acc, rows, c, defs, |defs|);
      PortsAside(t, r);
      PortsAside(r, b.tables);
      var xs := Routed(b.prepared, |b.prepared|);
      RegisteredView(b.tables, c, acc.id, sender, xs);
      var m := MinusKeys(View(t), OwnedBy(t, c));
      assert OwnedBy(b.tables, c) == OwnedBy(t, c);
      MessageAt(r, cfg, acc, rows, c, defs, m, k, |defs|);
      forall i: nat ensures LastToAsk(cfg, acc, rows, defs, |defs|, k, i) ==> Winner(cfg, acc, rows, defs, |defs|, k) == Some(i) {
        WinnerIs(cfg, acc, rows, defs, |defs|, k, i);
      }
      WinnerIs(cfg, acc, rows, defs, |defs|, k, 0);
      MinusAt(View(t), OwnedBy(t, c), k);
    }
  }

  lemma {:induction false} MinusAt(m: Maps, keys: seq<Key>, k: Key)
    ensures At(MinusKeys(m, keys), k) == if k in keys then None else At(m, k)
  {
  }

  // ---- over runs ----

  /** At the end of every run, whatever came before the message. */
  lemma {:induction false} RunRoutes(cfg: Config, who: Accounts, es: seq<Event>, e: Event, k: Key, i: nat)
    requires e.Message? && e.conn in who && |e.defs| <= who[e.conn].maxTunnels
    requires LastToAsk(cfg, who[e.conn], e.rows, e.defs, |e.defs|, k, i)
    ensures var u := Exec(cfg, who, es + [e]);
      && Listed(u.owned, e.conn, k) && At(View(u), k).Some?
      && IsTarget(At(View(u), k).value, e.conn, who[e.conn], e.rows, e.defs[i], k)
  {
    hide TablesOk, AsksFor, IsTarget, Handled, View, At, Exec;
    assert Asked(cfg, who[e.conn], e.rows, e.defs, |e.defs|, k);
    RunOk(cfg, who, es);
    ExecSnoc(cfg, who, es, e);
    MessageRoutes(Exec(cfg, who, es), cfg, who[e.conn], e.rows, e.conn, e.sender, e.defs, k);
  }

  // ---- the address that the user is told ----

  lemma {:induction false} LowerParts(a: Str, b: Str)
    ensures Lower(a + b) == Lower(a) + Lower(b)
  {
  }

  predicate NameText(s: Str) { forall i :: 0 <= i < |s| ==> NameChar(s[i]) }

  lemma {:induction false} LowerName(s: Str)
    requires NameText(s)
    ensures Lower(s) == s && ':' !in s && '.' !in s
  {
  }

  lemma {:induction false} BeforeNone(s: Str, c: char)
    requires c !in s
    ensures Before(s, c) == s
  {
  }

  /** A host below the base domain, whose first part has no dot, names that part. */
  lemma {:induction false} SubOfHost(name: Str, base: Str)
    requires NameText(name) && ':' !in base
    ensures SubOf(name + "." + base, base) == Some(name)
  {
    hide Lower;
    var host, suffix := name + "." + base, "." + Lower(base);
    BeforeNone(host, ':') by { LowerName(name); }
    LowerParts(name, "." + base);
    LowerParts(".", base);
    LowerName(name);
    DotLower();
    assert host == name + ("." + base);
    var h := HostName(host);
    assert h == name + suffix;
    assert h[|h| - |suffix|..] == suffix && h[..|h| - |suffix|] == name;
    StripOnce(name, suffix);
  }

  lemma {:induction false} StripOnce(name: Str, suffix: Str)
    requires suffix != [] && suffix[0] == '.' && '.' !in name
    ensures StripAll(name + suffix, suffix) == name
  {
    assert |suffix| <= |name| ==> name[|name| - |suffix|..][0] == name[|name| - |suffix|] != '.';
    var h := name + suffix;
    assert h[|h| - |suffix|..] == suffix && h[..|h| - |suffix|] == name;
  }

  lemma {:induction false} DotLower()
    ensures Lower(".") == "."
  {
  }

  /** The tables send a request to the target, which sees `rest` as the path. */
  ghost predicate Reaches(t: Tables, host: Str, path: Str, base: Str, target: Target, rest: Str) {
    forall r :: Answers(t, host, path, base, r) ==> r == Some((target, rest))
  }

  /** The letters are the same but for their case. */
  predicate SameLetter(a: char, b: char) {
    a == b || ('A' <= a <= 'Z' && b == a - 'A' + 'a') || ('A' <= b <= 'Z' && a == b - 'A' + 'a')
  }

  /** A `Host` header for a host name: in any case, with or without a port. */
  predicate AsksHost(host: Str, name: Str) {
    && |name| <= |host| && (|host| > |name| ==> host[|name|] == ':')
    && forall i :: 0 <= i < |name| ==> SameLetter(host[i], name[i])
  }

  lemma {:induction false} HostAsked(host: Str, name: Str)
    requires AsksHost(host, name) && ':' !in name
    ensures HostName(host) == HostName(name) == Lower(name)
  {
    var k := |name|;
    assert forall i :: 0 <= i < k ==> host[i] != ':';
    BeforeAt(host, ':', k);
    BeforeNone(name, ':');
    var h := host[..k];
    forall i | 0 <= i < k ensures Lower(h)[i] == Lower(name)[i] { assert SameLetter(host[i], name[i]); }
  }

  lemma {:induction false} BeforeAt(s: Str, c: char, k: nat)
    requires k <= |s| && (k < |s| ==> s[k] == c) && forall i :: 0 <= i < k ==> s[i] != c
    ensures Before(s, c) == s[..k]
    decreases k
  {
    if k > 0 {
      BeforeAt(s[1..], c, k - 1);
      assert s[..k] == [s[0]] + s[1..][..k - 1];
    }
  }

  lemma {:induction false} SubReaches(t: Tables, name: Str, base: Str, host: Str, path: Str)
    requires NameText(name) && ':' !in base && At(View(t), Sub(name)).Some? && AsksHost(host, name + "." + base)
    ensures Reaches(t, host, path, base, At(View(t), Sub(name)).value, path)
  {
    hide HostName, Covers, LongestMatch, Lower, AsksHost, NameText;
    SubOfHost(name, base);
    LowerName(name);
    HostAsked(host, name + "." + base);
    assert SubOf(host, base) == SubOf(name + "." + base, base);
  }

  lemma {:induction false} PathReaches(t: Tables, base: Str, host: Str, p: Str)
    requires ListOk(t.paths) && ':' !in base && At(View(t), Path(p)).Some? && AsksHost(host, base)
    ensures Reaches(t, host, p, base, At(View(t), Path(p)).value, "/")
  {
    hide Lower, ByteLen, PathMap, Descending, AsksHost;
    HostAsked(host, base);
    PathMapIs(t.paths);
    var target := PathMap(t.paths)[p];
    assert Route(p, target) in t.paths;
    forall r | Answers(t, host, p, base, r) ensures r == Some((target, "/")) {
      Covered(t.paths, p, target);
      if r.Some? {
        var m :| LongestMatch(t.paths, p, m) && r == Some((m.target, Rest(m.prefix, p)));
        WholePath(t.paths, p, m, target);
      }
    }
  }

  lemma {:induction false} Covered(paths: seq<Route>, p: Str, target: Target)
    requires Route(p, target) in paths
    ensures exists i :: 0 <= i < |paths| && Covers(paths[i].prefix, p)
  {
    var i :| 0 <= i < |paths| && paths[i] == Route(p, target);
    assert Covers(paths[i].prefix, p);
  }

  lemma {:induction false} WholePath(paths: seq<Route>, p: Str, m: Route, target: Target)
    requires LongestMatch(paths, p, m) && Route(p, target) in paths && Apart(paths)
    ensures m == Route(p, target)
  {
    var i :| 0 <= i < |paths| && paths[i] == Route(p, target);
    var j :| 0 <= j < |paths| && paths[j] == m;
    assert Covers(paths[i].prefix, p);
    assert |m.prefix| >= |p|;
  }

  /** The address that the user is told for a tunnel. */
  predicate TellsAddress(p: Prepared, cfg: Config, acc: Account, d: Def) {
    if p.port.Some? then p.url == cfg.relayHost + ":" + DecimalText(p.port.value)
    else if HasSubName(d) then p.url == "https://" + acc.slug + "-" + SanitizeName(d.subdomain.value) + "." + cfg.baseDomain
    else p.url == "https://" + cfg.baseDomain + PathFor(cfg, acc, d)
  }

  lemma {:induction false} UrlIs(used: set<nat>, cfg: Config, acc: Account, rows: map<Str, Row>, d: Def)
    ensures var o := PrepareOne(used, cfg, acc, rows, d);
      o.Ready? ==> TellsAddress(o.prepared, cfg, acc, d)
  {
    hide SanitizeName, Trim, NormalizePrefix, FindFree, DecimalText;
  }

  /** When a definition is refused, and why: it has no name, it is a TCP tunnel on a server that relays
      none, or every port of the range is taken. Any other is told of, TCP tunnels with a free port. */
  lemma {:induction false} RefusedIff(used: set<nat>, cfg: Config, acc: Account, rows: map<Str, Row>, d: Def)
    ensures var o, tid := PrepareOne(used, cfg, acc, rows, d), Trim(d.tunnelId);
      var tcp := d.proto == Some("tcp");
      && (o == Refused(EmptyId) <==> tid == "")
      && (o == Refused(NotRelay(tid)) <==> tid != "" && tcp && !cfg.relay)
      && (o == Refused(PoolFull(tid)) <==> tid != "" && tcp && cfg.relay && forall p: nat :: cfg.portStart <= p <= cfg.portEnd ==> p in used)
      && (o.Refused? ==> o.problem in {EmptyId, NotRelay(tid), PoolFull(tid)})
      && (o.Ready? ==>
        && o.prepared.input.tunnelId == tid && o.prepared.disabled == (tid in rows && rows[tid].disabled)
        && (o.prepared.port.Some? <==> tcp) && (tcp ==> cfg.portStart <= o.prepared.port.value <= cfg.portEnd && o.prepared.port.value !in used))
  {
    hide SanitizeName, Trim, NormalizePrefix, DecimalText, EffPath, SubName;
    FreeIs(used, cfg.portStart, cfg.portEnd);
  }

  lemma {:induction false} FreeIs(used: set<nat>, start: nat, end: nat)
    ensures var r := FindFree(used, start, end);
      && (r.Some? ==> start <= r.value <= end && r.value !in used)
      && (r.None? <==> forall p: nat :: start <= p <= end ==> p in used)
  {
  }

  predicate Rising(at: seq<nat>, n: nat) {
    (forall k :: 0 <= k < |at| ==> at[k] < n) && forall j, k :: 0 <= j < k < |at| ==> at[j] < at[k]
  }

  /** What is told of tunnels, as the tunnels `told`. */
  predicate TellsOf(ps: seq<Prepared>, cfg: Config, acc: Account, defs: seq<Def>, told: seq<nat>) {
    |told| == |ps| && forall k :: 0 <= k < |ps| ==>
      told[k] < |defs| && ps[k].input.tunnelId == Trim(defs[told[k]].tunnelId) && TellsAddress(ps[k], cfg, acc, defs[told[k]])
  }

  /** The acknowledgement of a message names every definition once, in order, either with its address
      or among the problems. */
  lemma {:induction false} EachIsTold(t: Tables, cfg: Config, acc: Account, rows: map<Str, Row>, c: Conn, defs: seq<Def>, n: nat)
    returns (told: seq<nat>, refused: seq<nat>)
    requires n <= |defs|
    ensures var b := PrepareAll(t, cfg, acc, rows, c, defs, n);
      TellsOf(b.prepared, cfg, acc, defs, told) && |refused| == |b.problems|
    ensures Rising(told, n) && Rising(refused, n) && forall i :: 0 <= i < n ==> (i in told <==> i !in refused)
  {
    hide PrepareOne, TellsAddress, BoundBy, Trim;
    told, refused := [], [];
    if n > 0 {
      told, refused := EachIsTold(t, cfg, acc, rows, c, defs, n - 1);
      var used := PrepareAll(t, cfg, acc, rows, c, defs, n - 1).tables.used;
      UrlIs(used, cfg, acc, rows, defs[n - 1]);
      RefusedIff(used, cfg, acc, rows, defs[n - 1]);
      if PrepareOne(used, cfg, acc, rows, defs[n - 1]).Ready? { told := told + [n - 1]; } else { refused := refused + [n - 1]; }
    }
  }

  /** In every run, right after the message: a visitor who asks the host that the user was told for a
      subdomain gets that tunnel, with the path as it is, whatever the path; and one who asks the
      base domain for the path that the tunnel is registered under gets that tunnel's root. */
  lemma {:induction false} AddressReaches(cfg: Config, who: Accounts, es: seq<Event>, e: Event, k: Key, i: nat, host: Str,
      path: Str)
    requires e.Message? && e.conn in who && |e.defs| <= who[e.conn].maxTunnels
    requires LastToAsk(cfg, who[e.conn], e.rows, e.defs, |e.defs|, k, i) && SlugOk(who[e.conn].slug) && ':' !in cfg.baseDomain
    ensures var u := Exec(cfg, who, es + [e]); var t := At(View(u), k);
      && t.Some? && IsTarget(t.value, e.conn, who[e.conn], e.rows, e.defs[i], k)
      && match k
         case Sub(_) =>
           var name := who[e.conn].slug + "-" + SanitizeName(e.defs[i].subdomain.value);
           AsksHost(host, name + "." + cfg.baseDomain) ==> Reaches(u, host, path, cfg.baseDomain, t.value, path)
         case Path(p) => AsksHost(host, cfg.baseDomain) ==> Reaches(u, host, p, cfg.baseDomain, t.value, "/")
  {
    hide IsTarget, View, Exec, Reaches, AsksHost, At, SanitizeName, SubsLinked, PathsLinked, ConnsOk, Descending, Apart, Lower, NormalizePrefix, PathFor;
    RunRoutes(cfg, who, es, e, k, i);
    RunOk(cfg, who, es + [e]);
    var u := Exec(cfg, who, es + [e]);
    match k
    case Sub(s) =>
      var name := SanitizeName(e.defs[i].subdomain.value);
      SanitizedIs(e.defs[i].subdomain.value);
      var eff := who[e.conn].slug + "-" + name;
      JoinedName(who[e.conn].slug, name);
      LowerName(eff);
      if AsksHost(host, eff + "." + cfg.baseDomain) { SubReaches(u, eff, cfg.baseDomain, host, path); }
    case Path(p) =>
      if AsksHost(host, cfg.baseDomain) { PathReaches(u, cfg.baseDomain, host, p); }
  }

  lemma {:induction false} JoinedName(a: Str, b: Str)
    requires NameText(a) && NameText(b)
    ensures NameText(a + "-" + b)
  {
  }
}
