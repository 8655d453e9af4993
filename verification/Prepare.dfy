/** Turning a user's tunnel definitions into routes: namespaces, subdomain names, TCP ports. */
module Prepare {
  import opened Bytes
  import opened Text
  import opened Registry

  datatype Account = Account(id: User, slug: Str, maxTunnels: int)

  datatype Def = Def(tunnelId: Str, proto: Option<Str>, subdomain: Option<Str>, pathPrefix: Option<Str>)

  /** What the database remembers of a tunnel. */
  datatype Row = Row(disabled: bool, visitorAuth: Option<Str>)

  datatype Config = Config(relay: bool, relayHost: Str, baseDomain: Str, pathNs: Str, portStart: nat, portEnd: nat)

  datatype Prepared = Prepared(input: Input, url: Str, port: Option<nat>, disabled: bool)

  datatype Problem = EmptyId | NotRelay(tunnelId: Str) | PoolFull(tunnelId: Str)

  // ---- subdomain names ----

  predicate IsAlnum(c: char) { 'a' <= c <= 'z' || 'A' <= c <= 'Z' || '0' <= c <= '9' }

  predicate NameChar(c: char) { 'a' <= c <= 'z' || '0' <= c <= '9' || c == '-' }

  function CleanChar(c: char): Str {
    var l := ToLower(c);
    if IsAlnum(l) || l == '-' then [l] else if l == '_' || l == '.' then "-" else ""
  }

  function Clean(s: Str): Str { if s == [] then [] else Clean(s[..|s| - 1]) + CleanChar(s[|s| - 1]) }

  function TrimDashesStart(s: Str): (r: Str)
    ensures |r| <= |s| && r == s[|s| - |r|..] && (r != [] ==> r[0] != '-')
  {
    if s != [] && s[0] == '-' then TrimDashesStart(s[1..]) else s
  }

  function TrimDashesEnd(s: Str): (r: Str)
    ensures r <= s && (r != [] ==> r[|r| - 1] != '-')
  {
    if s != [] && s[|s| - 1] == '-' then TrimDashesEnd(s[..|s| - 1]) else s
  }

  function TrimDashes(s: Str): Str { TrimDashesEnd(TrimDashesStart(s)) }

  function SanitizeName(s: Str): Str { TrimDashes(Clean(s)) }

  method Sanitize(s: Str) returns (r: Str)
    ensures r == SanitizeName(s)
  {
    var out: Str := [];
    for i := 0 to |s|
      invariant out == Clean(s[..i])
    {
      assert s[..i + 1][..i] == s[..i];
      var c := ToLower(s[i]);
      if IsAlnum(c) || c == '-' { out := out + [c]; }
      else if c == '_' || c == '.' { out := out + ['-']; }
    }
    assert s[..|s|] == s;
    return TrimDashes(out);
  }

  /** A sanitized name is made of letters, digits and inner dashes. */
  lemma {:induction false} SanitizedIs(s: Str)
    ensures var r := SanitizeName(s);
      (forall i :: 0 <= i < |r| ==> NameChar(r[i])) && (r != [] ==> r[0] != '-' && r[|r| - 1] != '-')
  {
    CleanIs(s);
    var a := TrimDashesStart(Clean(s));
    var r := TrimDashesEnd(a);
    assert r != [] ==> r[0] == a[0];
  }

  lemma {:induction false} CleanIs(s: Str)
    ensures forall i :: 0 <= i < |Clean(s)| ==> NameChar(Clean(s)[i])
    decreases |s|
  {
    if s != [] { CleanIs(s[..|s| - 1]); }
  }

  /** The dashes at the ends. */
  function Dashes(n: nat): Str { seq(n, i requires 0 <= i < n => '-') }

  lemma {:induction false} CleanAppend(a: Str, b: Str)
    ensures Clean(a + b) == Clean(a) + Clean(b)
    decreases |b|
  {
    hide CleanChar;
    if b == [] {
      assert a + b == a && Clean(a) + [] == Clean(a);
    } else {
      var k := |b| - 1;
      CleanAppend(a, b[..k]);
      assert (a + b)[..|a| + k] == a + b[..k];
    }
  }

  /** Capitals become small, `_` and `.` become dashes, letters, digits and dashes stay, all else goes. */
  lemma {:induction false} CleanMeans(a: Str, c: char, b: Str)
    ensures Clean(a + [c] + b) ==
      Clean(a)
      + (if 'A' <= c <= 'Z' then [c - 'A' + 'a']
         else if 'a' <= c <= 'z' || '0' <= c <= '9' || c == '-' then [c]
         else if c == '_' || c == '.' then ['-']
         else [])
      + Clean(b)
    ensures Clean([]) == []
  {
    CleanAppend(a + [c], b);
    CleanAppend(a, [c]);
    assert [c][..0] == [] && [] + CleanChar(c) == CleanChar(c);
  }

  lemma {:induction false} TrimStartDashes(s: Str)
    ensures s == Dashes(|s| - |TrimDashesStart(s)|) + TrimDashesStart(s)
    decreases |s|
  {
    if s != [] && s[0] == '-' { TrimStartDashes(s[1..]); }
  }

  lemma {:induction false} TrimEndDashes(s: Str)
    ensures s == TrimDashesEnd(s) + Dashes(|s| - |TrimDashesEnd(s)|)
    decreases |s|
  {
    if s != [] && s[|s| - 1] == '-' { TrimEndDashes(s[..|s| - 1]); }
  }

  /** A name loses nothing but the dashes at its ends when it is clean. */
  lemma {:induction false} SanitizedMeans(s: Str) returns (i: nat, j: nat)
    ensures Clean(s) == Dashes(i) + SanitizeName(s) + Dashes(j)
  {
    hide Clean, TrimDashesStart, TrimDashesEnd;
    var c := Clean(s);
    var a := TrimDashesStart(c);
    TrimStartDashes(c);
    TrimEndDashes(a);
    i, j := |c| - |a|, |a| - |TrimDashesEnd(a)|;
    assert c == Dashes(i) + (TrimDashesEnd(a) + Dashes(j));
  }

  // ---- one definition ----

  /** The user's part of the path space. */
  function Base(ns: Str, slug: Str): Str { ns + "/" + slug }

  function NonBlank(o: Option<Str>): Option<Str> {
    if o.Some? && Trim(o.value) != [] then Some(Trim(o.value)) else None
  }

  function EffPath(base: Str, tid: Str, path: Option<Str>): Str {
    match NonBlank(path)
    case Some(p) => var n := NormalizePrefix(p); if Covers(base, n) then n else base + n
    case None => base + "/" + tid
  }

  function SubName(def: Def): Option<Str> {
    if def.subdomain.Some? && SanitizeName(def.subdomain.value) != [] then Some(SanitizeName(def.subdomain.value)) else None
  }

  function DecimalText(n: nat): Str {
    if n < 10 then [('0' as int + n) as char] else DecimalText(n / 10) + [('0' as int + n % 10) as char]
  }

  function TextValue(s: Str): nat
    requires forall i :: 0 <= i < |s| ==> '0' <= s[i] <= '9'
  {
    if s == [] then 0 else 10 * TextValue(s[..|s| - 1]) + (s[|s| - 1] as int - '0' as int)
  }

  /** Decimal digits without a leading zero, with the number as their value. */
  lemma {:induction false} DecimalTextIs(n: nat)
    ensures var s := DecimalText(n);
      && (forall i :: 0 <= i < |s| ==> '0' <= s[i] <= '9') && TextValue(s) == n && s != [] && (n > 0 ==> s[0] != '0')
  {
    if n < 10 {
      assert DecimalText(n)[..0] == [];
    } else {
      DecimalTextIs(n / 10);
      assert DecimalText(n)[..|DecimalText(n)| - 1] == DecimalText(n / 10);
    }
  }

  function RowOf(rows: map<Str, Row>, tid: Str): Row { if tid in rows then rows[tid] else Row(false, None) }

  datatype Outcome = Ready(prepared: Prepared) | Refused(problem: Problem)

  function PrepareTcp(used: set<nat>, cfg: Config, acc: Account, row: Row, tid: Str): Outcome {
    match FindFree(used, cfg.portStart, cfg.portEnd)
    case None => Refused(PoolFull(tid))
    case Some(p) =>
      Ready(Prepared(Input(acc.id, acc.slug, tid, "tcp", None, None, row.visitorAuth),
                     cfg.relayHost + ":" + DecimalText(p), Some(p), row.disabled))
  }

  function PrepareWeb(cfg: Config, acc: Account, row: Row, tid: Str, proto: Str, def: Def): Prepared {
    match SubName(def)
    case Some(sub) =>
      var eff := acc.slug + "-" + sub;
      Prepared(Input(acc.id, acc.slug, tid, proto, if proto == "http" then Some(eff) else None, None, row.visitorAuth),
               "https://" + eff + "." + cfg.baseDomain, None, row.disabled)
    case None =>
      var eff := EffPath(Base(cfg.pathNs, acc.slug), tid, def.pathPrefix);
      Prepared(Input(acc.id, acc.slug, tid, proto, None, Some(eff), row.visitorAuth),
               "https://" + cfg.baseDomain + eff, None, row.disabled)
  }

  function ProtoOf(def: Def): Str { def.proto.GetOr("http") }

  function PrepareOne(used: set<nat>, cfg: Config, acc: Account, rows: map<Str, Row>, def: Def): Outcome {
    var tid := Trim(def.tunnelId);
    if tid == [] then Refused(EmptyId)
    else if ProtoOf(def) == "tcp" then
      if !cfg.relay then Refused(NotRelay(tid)) else PrepareTcp(used, cfg, acc, RowOf(rows, tid), tid)
    else Ready(PrepareWeb(cfg, acc, RowOf(rows, tid), tid, ProtoOf(def), def))
  }

  /** The tables after one definition: a port may have been bound. */
  function BoundBy(t: Tables, c: Conn, o: Outcome): Tables {
    if o.Ready? && o.prepared.port.Some? then Allocated(t, c, o.prepared.input.tunnelId, o.prepared.port.value) else t
  }

  // ---- a whole message ----

  datatype Batch = Batch(tables: Tables, prepared: seq<Prepared>, problems: seq<Problem>)

  function PrepareAll(t: Tables, cfg: Config, acc: Account, rows: map<Str, Row>, c: Conn, defs: seq<Def>, n: nat): Batch
    requires n <= |defs|
  {
    if n == 0 then Batch(t, [], [])
    else
      var b := PrepareAll(t, cfg, acc, rows, c, defs, n - 1);
      var o := PrepareOne(b.tables.used, cfg, acc, rows, defs[n - 1]);
      match o
      case Ready(p) => Batch(BoundBy(b.tables, c, o), b.prepared + [p], b.problems)
      case Refused(q) => b.(problems := b.problems + [q])
  }

  /** The inputs that are routed: those whose tunnel is not disabled. */
  function Routed(prepared: seq<Prepared>, n: nat): seq<Input>
    requires n <= |prepared|
  {
    if n == 0 then []
    else Routed(prepared, n - 1) + if prepared[n - 1].disabled then [] else [prepared[n - 1].input]
  }

  datatype Ack = TooMany | Ack(ok: bool, prepared: seq<Prepared>, problems: seq<Problem>)

  function Handled(t: Tables, cfg: Config, acc: Account, rows: map<Str, Row>, c: Conn, sender: Sender,
          defs: seq<Def>): Tables {
    if |defs| > acc.maxTunnels then t
    else
      var b := PrepareAll(Released(t, c), cfg, acc, rows, c, defs, |defs|);
      Registered(b.tables, c, acc.id, sender, Routed(b.prepared, |b.prepared|))
  }

  method PrepareDef(reg: Registry, cfg: Config, acc: Account, rows: map<Str, Row>, c: Conn,
          def: Def) returns (o: Outcome)
    modifies reg
    ensures o == PrepareOne(old(reg.usedPorts), cfg, acc, rows, def)
    ensures reg.State() == BoundBy(old(reg.State()), c, o) && reg.nextConnId == old(reg.nextConnId)
  {
    hide FindFree, SanitizeName, NormalizePrefix, Trim, DecimalText, Allocated;
    var proto := ProtoOf(def);
    var tid := Trim(def.tunnelId);
    if tid == [] { return Refused(EmptyId); }
    var row := RowOf(rows, tid);
    if proto == "tcp" {
      if !cfg.relay { return Refused(NotRelay(tid)); }
      var port := reg.AllocatePort(c, tid, cfg.portStart, cfg.portEnd);
      if port.None? { return Refused(PoolFull(tid)); }
      var url := cfg.relayHost + ":" + DecimalText(port.value);
      return Ready(Prepared(Input(acc.id, acc.slug, tid, proto, None, None, row.visitorAuth), url, port, row.disabled));
    }
    var name: Str := [];
    if def.subdomain.Some? { name := Sanitize(def.subdomain.value); }
    if name != [] {
      var eff := acc.slug + "-" + name;
      var sub := if proto == "http" then Some(eff) else None;
      return Ready(Prepared(Input(acc.id, acc.slug, tid, proto, sub, None, row.visitorAuth),
                            "https://" + eff + "." + cfg.baseDomain, None, row.disabled));
    }
    var eff := EffectivePath(Base(cfg.pathNs, acc.slug), tid, def.pathPrefix);
    return Ready(Prepared(Input(acc.id, acc.slug, tid, proto, None, Some(eff), row.visitorAuth),
                          "https://" + cfg.baseDomain + eff, None, row.disabled));
  }

  method EffectivePath(base: Str, tid: Str, path: Option<Str>) returns (eff: Str)
    ensures eff == EffPath(base, tid, path)
  {
    hide NormalizePrefix, Trim;
    if path.Some? && Trim(path.value) != [] {
      var p := Normalize(Trim(path.value));
      if p == base || base + "/" <= p { eff := p; } else { eff := base + p; }
    } else {
      eff := base + "/" + tid;
    }
  }

  method PrepareDefs(reg: Registry, cfg: Config, acc: Account, rows: map<Str, Row>, c: Conn, defs: seq<Def>)
    returns (prepared: seq<Prepared>, problems: seq<Problem>)
    modifies reg
    ensures Batch(reg.State(), prepared, problems) == PrepareAll(old(reg.State()), cfg, acc, rows, c, defs, |defs|)
    ensures reg.nextConnId == old(reg.nextConnId)
  {
    hide PrepareOne, BoundBy;
    prepared, problems := [], [];
    for i := 0 to |defs|
      invariant Batch(reg.State(), prepared, problems) == PrepareAll(old(reg.State()), cfg, acc, rows, c, defs, i)
      invariant reg.nextConnId == old(reg.nextConnId)
    {
      var o := PrepareDef(reg, cfg, acc, rows, c, defs[i]);
      NothingBound(reg.State(), c, o);
      match o {
        case Ready(p) => prepared := prepared + [p];
        case Refused(q) => problems := problems + [q];
      }
    }
  }

  lemma {:induction false} NothingBound(t: Tables, c: Conn, o: Outcome)
    ensures o.Refused? ==> forall s :: BoundBy(s, c, o) == s
  {
  }

  /** A register message on a connection. */
  method HandleRegister(reg: Registry, cfg: Config, acc: Account, rows: map<Str, Row>, c: Conn, sender: Sender,
          defs: seq<Def>)
    returns (ack: Ack)
    modifies reg
    ensures reg.State() == Handled(old(reg.State()), cfg, acc, rows, c, sender, defs)
        && reg.nextConnId == old(reg.nextConnId)
    ensures |defs| > acc.maxTunnels <==> ack.TooMany?
    ensures ack.Ack? ==>
      var b := PrepareAll(Released(old(reg.State()), c), cfg, acc, rows, c, defs, |defs|);
      ack == Ack(b.problems == [] || b.prepared != [], b.prepared, b.problems)
  {
    hide PrepareAll, Registered, Released;
    if |defs| > acc.maxTunnels { return TooMany; }
    reg.ReleasePorts(c);
    var prepared, problems := PrepareDefs(reg, cfg, acc, rows, c, defs);
    var inputs: seq<Input> := [];
    for i := 0 to |prepared|
      invariant inputs == Routed(prepared, i)
    {
      if !prepared[i].disabled { inputs := inputs + [prepared[i].input]; }
    }
    var _ := reg.RegisterClient(c, acc.id, sender, inputs);
    return Ack(problems == [] || prepared != [], prepared, problems);
  }
}
