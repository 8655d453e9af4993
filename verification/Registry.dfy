/** The server's tables: routes by subdomain and by path, connections, and the TCP port pool. */
module Registry {
  import opened Bytes
  import opened Text

  type Conn = nat
  type User = int
  type Sender = nat

  datatype Target = Target(conn: Conn, user: User, slug: Str, tunnelId: Str, proto: Str,
                           stripPrefix: Option<Str>, visitorAuth: Option<Str>)

  datatype Key = Sub(name: Str) | Path(prefix: Str)

  datatype Route = Route(prefix: Str, target: Target)

  datatype Input = Input(user: User, slug: Str, tunnelId: Str, proto: Str,
                         sub: Option<Str>, path: Option<Str>, visitorAuth: Option<Str>)

  datatype PortKey = PortKey(conn: Conn, tunnelId: Str)

  datatype Tables = Tables(subs: map<Str, Target>, paths: seq<Route>,
                           clients: map<Conn, Sender>, users: map<Conn, User>,
                           owned: map<Conn, seq<Key>>, ports: map<PortKey, nat>, used: set<nat>)

  const EMPTY := Tables(map[], [], map[], map[], map[], map[], {})

  // ---- what the operations mean ----

  function Without(paths: seq<Route>, p: Str): (r: seq<Route>)
    ensures |r| <= |paths|
  {
    if paths == [] then []
    else
      var last := paths[|paths| - 1];
      Without(paths[..|paths| - 1], p) + if last.prefix != p then [last] else []
  }

  function DropKey(t: Tables, k: Key): Tables {
    match k
    case Sub(s) => t.(subs := t.subs - {s})
    case Path(p) => t.(paths := Without(t.paths, p))
  }

  function DropKeys(t: Tables, keys: seq<Key>, n: nat): Tables
    requires n <= |keys|
  {
    if n == 0 then t else DropKey(DropKeys(t, keys, n - 1), keys[n - 1])
  }

  /** The connection's routes go, by key. */
  function Disown(t: Tables, c: Conn): Tables {
    if c in t.owned then DropKeys(t, t.owned[c], |t.owned[c]|).(owned := t.owned - {c}) else t
  }

  function TargetOf(c: Conn, i: Input): Target {
    Target(c, i.user, i.slug, i.tunnelId, i.proto,
           match i.path case Some(p) => Some(NormalizePrefix(p)) case None => None, i.visitorAuth)
  }

  function AddSub(t: Tables, c: Conn, i: Input): Tables {
    if i.sub.Some? then t.(subs := t.subs[Lower(i.sub.value) := TargetOf(c, i)]) else t
  }

  function AddPath(t: Tables, c: Conn, i: Input): Tables {
    if i.path.Some? then
      var p := NormalizePrefix(i.path.value);
      t.(paths := Without(t.paths, p) + [Route(p, TargetOf(c, i))])
    else t
  }

  function AddInputs(t: Tables, c: Conn, inputs: seq<Input>, n: nat): Tables
    requires n <= |inputs|
  {
    if n == 0 then t else AddPath(AddSub(AddInputs(t, c, inputs, n - 1), c, inputs[n - 1]), c, inputs[n - 1])
  }

  function KeysOfOne(i: Input): seq<Key> {
    (if i.sub.Some? then [Sub(Lower(i.sub.value))] else [])
    + if i.path.Some? then [Path(NormalizePrefix(i.path.value))] else []
  }

  function KeysOf(inputs: seq<Input>, n: nat): seq<Key>
    requires n <= |inputs|
  {
    if n == 0 then [] else KeysOf(inputs, n - 1) + KeysOfOne(inputs[n - 1])
  }

  /** Into a list in non-increasing length, behind everything at least as long. */
  function Place(paths: seq<Route>, r: Route): (q: seq<Route>)
    ensures |q| == |paths| + 1
  {
    if paths != [] && ByteLen(paths[|paths| - 1].prefix) < ByteLen(r.prefix) then
      Place(paths[..|paths| - 1], r) + [paths[|paths| - 1]]
    else paths + [r]
  }

  /** The stable sort by decreasing length. */
  function Sorted(paths: seq<Route>): (q: seq<Route>)
    ensures |q| == |paths|
  {
    if paths == [] then [] else Place(Sorted(paths[..|paths| - 1]), paths[|paths| - 1])
  }

  function Registered(t: Tables, c: Conn, u: User, sender: Sender, inputs: seq<Input>): Tables {
    var t1 := Disown(t, c);
    var t2 := AddInputs(t1.(clients := t1.clients[c := sender], users := t1.users[c := u]), c, inputs, |inputs|);
    t2.(paths := Sorted(t2.paths), owned := t2.owned[c := KeysOf(inputs, |inputs|)])
  }

  /** The bindings of a connection go, and their ports are free again. */
  function Released(t: Tables, c: Conn): Tables {
    t.(ports := map k | k in t.ports && k.conn != c :: t.ports[k],
       used := t.used - set k | k in t.ports && k.conn == c :: t.ports[k])
  }

  function Removed(t: Tables, c: Conn): Tables {
    var t1 := Released(Disown(t, c), c);
    t1.(clients := t1.clients - {c}, users := t1.users - {c})
  }

  /** `p` is the least free port from `start` to `end`. */
  predicate LeastFree(used: set<nat>, start: nat, end: nat, p: nat) {
    start <= p <= end && p !in used && forall q :: start <= q < p ==> q in used
  }

  /** The search from `start` to `end`. */
  function FindFree(used: set<nat>, start: nat, end: nat): (r: Option<nat>)
    ensures match r
      case Some(p) => LeastFree(used, start, end, p)
      case None => forall p :: start <= p <= end ==> p in used
    decreases end + 1 - start
  {
    if start > end then None else if start !in used then Some(start) else FindFree(used, start + 1, end)
  }

  function Allocated(t: Tables, c: Conn, tid: Str, p: nat): Tables {
    t.(used := t.used + {p}, ports := t.ports[PortKey(c, tid) := p])
  }

  // ---- lookup, by the longest prefix ----

  /** The prefix covers the path, on a segment boundary. */
  predicate Covers(prefix: Str, path: Str) { path == prefix || prefix + "/" <= path }

  /** What is left of the path behind the prefix. */
  function Rest(prefix: Str, path: Str): Str
    requires prefix <= path
  {
    if path == prefix then "/" else path[|prefix|..]
  }

  /** `r` covers the path and no longer prefix in the table does. */
  predicate LongestMatch(paths: seq<Route>, path: Str, r: Route) {
    r in paths && Covers(r.prefix, path)
    && forall i :: 0 <= i < |paths| && Covers(paths[i].prefix, path) ==> |paths[i].prefix| <= |r.prefix|
  }

  predicate Descending(paths: seq<Route>) {
    forall i, j :: 0 <= i < j < |paths| ==> ByteLen(paths[j].prefix) <= ByteLen(paths[i].prefix)
  }

  predicate Apart(paths: seq<Route>) {
    forall i, j :: 0 <= i < j < |paths| ==> paths[i].prefix != paths[j].prefix
  }

  function HostName(host: Str): Str { Lower(Before(host, ':')) }

  /** Which subdomain the host names, if it lies under the base domain. */
  function SubOf(host: Str, base: Str): Option<Str> {
    var h, suffix := HostName(host), "." + Lower(base);
    if h != Lower(base) && EndsWith(h, suffix) then Some(StripAll(h, suffix)) else None
  }

  /** What a request for `path` on `host` is answered with. */
  ghost predicate Answers(t: Tables, host: Str, path: Str, base: Str, r: Option<(Target, Str)>) {
    match SubOf(host, base)
    case Some(sub) => r == if sub in t.subs then Some((t.subs[sub], path)) else None
    case None =>
      if HostName(host) != Lower(base) then r == None
      else if r.None? then forall i :: 0 <= i < |t.paths| ==> !Covers(t.paths[i].prefix, path)
      else exists m :: LongestMatch(t.paths, path, m) && r == Some((m.target, Rest(m.prefix, path)))
  }

  lemma {:induction false} OfConn(ports: map<PortKey, nat>, c: Conn, keys: set<PortKey>)
    requires keys == set k | k in ports && k.conn == c
    ensures ports - keys == map k | k in ports && k.conn != c :: ports[k]
    ensures (set k | k in keys :: ports[k]) == set k | k in ports && k.conn == c :: ports[k]
  {
  }


  class Registry {
    var bySubdomain: map<Str, Target>
    var byPath: seq<Route>
    var clients: map<Conn, Sender>
    var connUser: map<Conn, User>
    var owned: map<Conn, seq<Key>>
    var tcpPorts: map<PortKey, nat>
    var usedPorts: set<nat>
    var nextConnId: nat

    function State(): Tables
      reads this
    {
      Tables(bySubdomain, byPath, clients, connUser, owned, tcpPorts, usedPorts)
    }

    constructor ()
      ensures State() == EMPTY && nextConnId == 0
    {
      bySubdomain, byPath, clients, connUser, owned, tcpPorts, usedPorts := map[], [], map[], map[], map[], map[], {};
      nextConnId := 0;
    }

    method NewConnId() returns (c: Conn)
      modifies this
      ensures State() == old(State()) && c == nextConnId == old(nextConnId) + 1
    {
      nextConnId := nextConnId + 1;
      return nextConnId;
    }

    /** `by_path.retain(…)`. */
    method Retain(p: Str)
      modifies this
      ensures State() == old(State()).(paths := Without(old(byPath), p)) && nextConnId == old(nextConnId)
    {
      var kept: seq<Route> := [];
      for i := 0 to |byPath|
        invariant State() == old(State()) && nextConnId == old(nextConnId)
        invariant kept == Without(byPath[..i], p)
      {
        assert byPath[..i + 1][..i] == byPath[..i];
        if byPath[i].prefix != p { kept := kept + [byPath[i]]; }
      }
      assert byPath[..|byPath|] == byPath;
      byPath := kept;
    }

    method ClearRoutes(c: Conn)
      modifies this
      ensures State() == Disown(old(State()), c) && nextConnId == old(nextConnId)
    {
      if c in owned {
        var keys := owned[c];
        owned := owned - {c};
        ghost var t := State();
        DropKeysOwned(old(State()), keys, |keys|, owned);
        for i := 0 to |keys|
          invariant State() == DropKeys(t, keys, i) && nextConnId == old(nextConnId)
        {
          match keys[i] {
            case Sub(s) => bySubdomain := bySubdomain - {s};
            case Path(p) => Retain(p);
          }
        }
      }
    }

    method AddInput(c: Conn, input: Input) returns (keys: seq<Key>)
      modifies this
      ensures State() == AddPath(AddSub(old(State()), c, input), c, input) && nextConnId == old(nextConnId)
      ensures keys == KeysOfOne(input)
    {
      hide NormalizePrefix, Lower, TargetOf;
      var target := TargetOf(c, input);
      keys := [];
      if input.sub.Some? {
        var sub := Lower(input.sub.value);
        bySubdomain := bySubdomain[sub := target];
        keys := keys + [Sub(sub)];
      }
      if input.path.Some? {
        var p := Normalize(input.path.value);
        Retain(p);
        byPath := byPath + [Route(p, target)];
        keys := keys + [Path(p)];
      }
    }

    method RegisterClient(c: Conn, user: User, sender: Sender, inputs: seq<Input>) returns (keys: seq<Key>)
      modifies this
      ensures State() == Registered(old(State()), c, user, sender, inputs) && nextConnId == old(nextConnId)
      ensures keys == KeysOf(inputs, |inputs|)
    {
      hide Sorted, AddPath, AddSub, KeysOfOne;
      ClearRoutes(c);
      clients := clients[c := sender];
      connUser := connUser[c := user];
      ghost var t := State();
      keys := [];
      for i := 0 to |inputs|
        invariant State() == AddInputs(t, c, inputs, i) && keys == KeysOf(inputs, i) && nextConnId == old(nextConnId)
      {
        var more := AddInput(c, inputs[i]);
        keys := keys + more;
      }
      SortByLength();
      owned := owned[c := keys];
    }

    /** `sort_by` on decreasing byte length: insertion, equal lengths in their order. */
    method SortByLength()
      modifies this
      ensures State() == old(State()).(paths := Sorted(old(byPath))) && nextConnId == old(nextConnId)
    {
      var out: seq<Route> := [];
      for i := 0 to |byPath|
        invariant State() == old(State()) && nextConnId == old(nextConnId)
        invariant out == Sorted(byPath[..i])
      {
        assert byPath[..i + 1][..i] == byPath[..i];
        out := Place(out, byPath[i]);
      }
      assert byPath[..|byPath|] == byPath;
      byPath := out;
    }

    method RemoveClient(c: Conn)
      modifies this
      ensures State() == Removed(old(State()), c) && nextConnId == old(nextConnId)
    {
      ClearRoutes(c);
      ReleasePorts(c);
      clients := clients - {c};
      connUser := connUser - {c};
    }

    method AllocatePort(c: Conn, tid: Str, start: nat, end: nat) returns (r: Option<nat>)
      modifies this
      ensures nextConnId == old(nextConnId) && r == FindFree(old(usedPorts), start, end)
      ensures State() == match r case Some(p) => Allocated(old(State()), c, tid, p) case None => old(State())
    {
      var p := start;
      while p <= end
        invariant start <= p && State() == old(State()) && nextConnId == old(nextConnId)
        invariant FindFree(usedPorts, p, end) == FindFree(usedPorts, start, end)
        decreases end + 1 - p
      {
        if p !in usedPorts {
          usedPorts := usedPorts + {p};
          tcpPorts := tcpPorts[PortKey(c, tid) := p];
          return Some(p);
        }
        p := p + 1;
      }
      return None;
    }

    method ReleasePorts(c: Conn)
      modifies this
      ensures State() == Released(old(State()), c) && nextConnId == old(nextConnId)
    {
      var keys := set k | k in tcpPorts && k.conn == c;
      ghost var all := keys;
      ghost var gone: set<nat> := {};
      while keys != {}
        invariant keys <= all && State() == old(State()).(ports := tcpPorts, used := usedPorts)
            && nextConnId == old(nextConnId)
        invariant tcpPorts == old(tcpPorts) - (all - keys)
        invariant gone == set k | k in all - keys :: old(tcpPorts)[k]
        invariant usedPorts == old(usedPorts) - gone
        decreases |keys|
      {
        var k :| k in keys;
        var p := tcpPorts[k];
        tcpPorts := tcpPorts - {k};
        usedPorts := usedPorts - {p};
        gone := gone + {p};
        keys := keys - {k};
      }
      OfConn(old(tcpPorts), c, all);
    }

    /** The route for a request, with the path that the tunnel sees. */
    method Lookup(host: Str, path: Str, baseDomain: Str) returns (r: Option<(Target, Str)>)
      requires Descending(byPath)
      ensures Answers(State(), host, path, baseDomain, r)
    {
      hide Lower, StripAll, EndsWith;
      var h := HostName(host);
      var base := Lower(baseDomain);
      if h != base && EndsWith(h, "." + base) {
        var sub := StripAll(h, "." + base);
        if sub in bySubdomain { return Some((bySubdomain[sub], path)); }
        return None;
      }
      if h == base { r := FirstMatch(path); } else { r := None; }
    }

    /** The scan: the first match is the longest. */
    method FirstMatch(path: Str) returns (r: Option<(Target, Str)>)
      requires Descending(byPath)
      ensures match r
        case None => forall i :: 0 <= i < |byPath| ==> !Covers(byPath[i].prefix, path)
        case Some(_) => exists m :: LongestMatch(byPath, path, m) && r == Some((m.target, Rest(m.prefix, path)))
    {
      for i := 0 to |byPath|
        invariant forall j :: 0 <= j < i ==> !Covers(byPath[j].prefix, path)
      {
        var prefix := byPath[i].prefix;
        if path == prefix || prefix + "/" <= path {
          FirstIsLongest(byPath, path, i);
          var rest := path[|prefix|..];
          if rest == [] { rest := "/"; }
          assert LongestMatch(byPath, path, byPath[i]);
          return Some((byPath[i].target, rest));
        }
      }
      return None;
    }
  }

  lemma {:induction false} DropKeysOwned(t: Tables, keys: seq<Key>, n: nat, owned: map<Conn, seq<Key>>)
    requires n <= |keys|
    ensures DropKeys(t.(owned := owned), keys, n) == DropKeys(t, keys, n).(owned := owned)
  {
    if n > 0 { DropKeysOwned(t, keys, n - 1, owned); }
  }

  lemma {:induction false} FirstIsLongest(paths: seq<Route>, path: Str, i: nat)
    requires Descending(paths) && i < |paths| && Covers(paths[i].prefix, path)
    requires forall j :: 0 <= j < i ==> !Covers(paths[j].prefix, path)
    ensures LongestMatch(paths, path, paths[i])
  {
    forall k | 0 <= k < |paths| && Covers(paths[k].prefix, path) ensures |paths[k].prefix| <= |paths[i].prefix| {
      var a, b := paths[i].prefix, paths[k].prefix;
      if |a| < |b| {
        assert a == path[..|a|] && b == path[..|b|];
        ByteLenPrefix(a, b);
      }
    }
  }
}
