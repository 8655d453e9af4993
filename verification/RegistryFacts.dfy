/** What register, remove and the port pool keep, and the simple tables they stand for. */
module RegistryFacts {
  import opened Bytes
  import opened Text
  import opened Registry

  // ---- the path list as a map ----

  /** The routes by prefix; were a prefix there twice, the last would count. */
  function PathMap(paths: seq<Route>): map<Str, Target> {
    if paths == [] then map[]
    else PathMap(paths[..|paths| - 1])[paths[|paths| - 1].prefix := paths[|paths| - 1].target]
  }

  lemma {:induction false} PathMapIs(paths: seq<Route>)
    ensures forall p :: p in PathMap(paths) ==> Route(p, PathMap(paths)[p]) in paths
    ensures forall r :: r in paths ==> r.prefix in PathMap(paths)
    ensures Apart(paths) ==> forall r :: r in paths ==> PathMap(paths)[r.prefix] == r.target
    decreases |paths|
  {
    if paths != [] {
      var front, last := paths[..|paths| - 1], paths[|paths| - 1];
      PathMapIs(front);
      assert paths == front + [last];
    }
  }

  lemma {:induction false} ApartSnoc(paths: seq<Route>, r: Route)
    ensures Apart(paths + [r]) <==> Apart(paths) && forall x :: x in paths ==> x.prefix != r.prefix
  {
    var q := paths + [r];
    if Apart(q) {
      forall x | x in paths ensures x.prefix != r.prefix {
        var k :| 0 <= k < |paths| && paths[k] == x;
        assert q[k].prefix != q[|paths|].prefix;
      }
      forall i, j | 0 <= i < j < |paths| ensures paths[i].prefix != paths[j].prefix { assert q[i].prefix != q[j].prefix; }
    }
  }

  lemma {:induction false} DescendingSnoc(paths: seq<Route>, r: Route)
    ensures Descending(paths + [r]) <==> Descending(paths) && forall x :: x in paths ==> ByteLen(r.prefix) <= ByteLen(x.prefix)
  {
    hide ByteLen;
    var q := paths + [r];
    if Descending(q) {
      forall x | x in paths ensures ByteLen(r.prefix) <= ByteLen(x.prefix) {
        var k :| 0 <= k < |paths| && paths[k] == x;
        assert ByteLen(q[|paths|].prefix) <= ByteLen(q[k].prefix);
      }
      forall i, j | 0 <= i < j < |paths| ensures ByteLen(paths[j].prefix) <= ByteLen(paths[i].prefix) {
        assert ByteLen(q[j].prefix) <= ByteLen(q[i].prefix);
      }
    }
  }

  lemma {:induction false} WithoutSnoc(front: seq<Route>, last: Route, p: Str)
    ensures Without(front + [last], p) == if last.prefix != p then Without(front, p) + [last] else Without(front, p)
  {
    assert (front + [last])[..|front|] == front;
  }

  lemma {:induction false} WithoutIs(paths: seq<Route>, p: Str)
    ensures forall r :: r in Without(paths, p) <==> r in paths && r.prefix != p
    ensures Apart(paths) ==> Apart(Without(paths, p))
    ensures Descending(paths) ==> Descending(Without(paths, p))
    decreases |paths|
  {
    if paths != [] {
      hide Without, Apart, Descending, ByteLen;
      var front, last := paths[..|paths| - 1], paths[|paths| - 1];
      WithoutIs(front, p);
      assert paths == front + [last];
      WithoutSnoc(front, last, p);
      ApartSnoc(front, last);
      DescendingSnoc(front, last);
      ApartSnoc(Without(front, p), last);
      DescendingSnoc(Without(front, p), last);
    }
  }

  /** `retain` takes one prefix out of the map. */
  lemma {:induction false} WithoutMap(paths: seq<Route>, p: Str)
    ensures PathMap(Without(paths, p)) == PathMap(paths) - {p}
    decreases |paths|
  {
    hide Without, PathMap;
    NoPaths(p);
    if paths != [] {
      var front, last := paths[..|paths| - 1], paths[|paths| - 1];
      WithoutMap(front, p);
      assert paths == front + [last];
      WithoutSnoc(front, last, p);
      MapSnoc(front, last);
      MapSnoc(Without(front, p), last);
      MinusSnoc(PathMap(front), last.prefix, last.target, p);
    }
  }

  lemma {:induction false} NoPaths(p: Str)
    ensures Without([], p) == [] && PathMap([]) == map[]
  {
  }

  lemma {:induction false} MinusSnoc(m: map<Str, Target>, k: Str, v: Target, p: Str)
    ensures m[k := v] - {p} == if k == p then m - {p} else (m - {p})[k := v]
  {
  }

  lemma {:induction false} MapSnoc(paths: seq<Route>, r: Route)
    ensures PathMap(paths + [r]) == PathMap(paths)[r.prefix := r.target]
  {
    assert (paths + [r])[..|paths|] == paths;
  }

  // ---- sorting ----

  lemma {:induction false} PlaceIs(paths: seq<Route>, r: Route)
    requires Descending(paths)
    ensures Descending(Place(paths, r))
    ensures multiset(Place(paths, r)) == multiset(paths) + multiset{r}
    decreases |paths|
  {
    hide ByteLen;
    var q := Place(paths, r);
    if paths != [] && ByteLen(paths[|paths| - 1].prefix) < ByteLen(r.prefix) {
      var front, last := paths[..|paths| - 1], paths[|paths| - 1];
      PlaceIs(front, r);
      var f := Place(front, r);
      assert paths == front + [last];
      forall i | 0 <= i < |f| ensures ByteLen(last.prefix) <= ByteLen(f[i].prefix) {
        assert f[i] in multiset(f);
        if f[i] != r {
          assert f[i] in multiset(front) && f[i] in front;
        }
      }
    }
  }

  /** Sorting permutes the routes into non-increasing length. */
  lemma {:induction false} SortedIs(paths: seq<Route>)
    ensures Descending(Sorted(paths)) && multiset(Sorted(paths)) == multiset(paths)
    decreases |paths|
  {
    hide ByteLen, Place;
    if paths != [] {
      var front, last := paths[..|paths| - 1], paths[|paths| - 1];
      SortedIs(front);
      PlaceIs(Sorted(front), last);
      assert paths == front + [last];
    }
  }

  lemma {:induction false} SamePrefixes(a: seq<Route>, b: seq<Route>)
    requires multiset(a) == multiset(b) && Apart(a)
    ensures Apart(b) && PathMap(a) == PathMap(b)
  {
    forall r ensures r in a <==> r in b { assert r in a <==> r in multiset(a); assert r in b <==> r in multiset(b); }
    forall i, j | 0 <= i < j < |b| ensures b[i].prefix != b[j].prefix { PairApart(a, b, i, j); }
    PathMapIs(a);
    PathMapIs(b);
  }

  lemma {:induction false} PairApart(a: seq<Route>, b: seq<Route>, i: nat, j: nat)
    requires multiset(a) == multiset(b) && Apart(a) && i < j < |b|
    ensures b[i].prefix != b[j].prefix
  {
    if b[i] == b[j] {
      assert b == b[..i] + [b[i]] + b[i + 1..j] + [b[j]] + b[j + 1..];
      assert multiset(b)[b[i]] >= 2;
      OnceOnly(a, b[i]);
    } else {
      assert b[i] in multiset(b) && b[j] in multiset(b);
      assert b[i] in multiset(a) && b[j] in multiset(a);
      var x :| 0 <= x < |a| && a[x] == b[i];
      var y :| 0 <= y < |a| && a[y] == b[j];
    }
  }

  lemma {:induction false} OnceOnly(a: seq<Route>, r: Route)
    requires Apart(a)
    ensures multiset(a)[r] <= 1
    decreases |a|
  {
    if a != [] {
      var front, last := a[..|a| - 1], a[|a| - 1];
      OnceOnly(front, r);
      assert a == front + [last];
      ApartSnoc(front, last);
      assert last == r ==> r !in front && r !in multiset(front);
    }
  }

  // ---- the operations on maps ----

  /** The simple tables: two maps. */
  datatype Maps = Maps(subs: map<Str, Target>, paths: map<Str, Target>)

  function View(t: Tables): Maps { Maps(t.subs, PathMap(t.paths)) }

  function MinusKeys(m: Maps, keys: seq<Key>): Maps {
    Maps(m.subs - set k | k in keys && k.Sub? :: k.name, m.paths - set k | k in keys && k.Path? :: k.prefix)
  }

  function PlusInput(m: Maps, c: Conn, i: Input): Maps {
    Maps(if i.sub.Some? then m.subs[Lower(i.sub.value) := TargetOf(c, i)] else m.subs,
         if i.path.Some? then m.paths[NormalizePrefix(i.path.value) := TargetOf(c, i)] else m.paths)
  }

  function PlusInputs(m: Maps, c: Conn, inputs: seq<Input>, n: nat): Maps
    requires n <= |inputs|
  {
    if n == 0 then m else PlusInput(PlusInputs(m, c, inputs, n - 1), c, inputs[n - 1])
  }

  function OwnedBy(t: Tables, c: Conn): seq<Key> { if c in t.owned then t.owned[c] else [] }

  predicate ListOk(paths: seq<Route>) { Descending(paths) && Apart(paths) }

  lemma {:induction false} DropKeysView(t: Tables, keys: seq<Key>, n: nat)
    requires n <= |keys| && ListOk(t.paths)
    ensures var u := DropKeys(t, keys, n);
      && View(u) == MinusKeys(View(t), keys[..n]) && ListOk(u.paths)
      && u == t.(subs := u.subs, paths := u.paths)
  {
    hide Without, PathMap, ListOk, Descending, Apart;
    if n == 0 {
      assert keys[..0] == [];
    } else {
      DropKeysView(t, keys, n - 1);
      var u := DropKeys(t, keys, n - 1);
      DropKeyView(u, keys[n - 1]);
      assert keys[..n] == keys[..n - 1] + [keys[n - 1]];
      MinusMore(View(t), keys[..n - 1], keys[n - 1]);
    }
  }

  lemma {:induction false} DropKeyView(t: Tables, k: Key)
    requires ListOk(t.paths)
    ensures var u := DropKey(t, k);
      && View(u) == MinusKeys(View(t), [k]) && ListOk(u.paths) && u == t.(subs := u.subs, paths := u.paths)
  {
    hide Without, PathMap, Descending, Apart;
    if k.Path? {
      WithoutIs(t.paths, k.prefix);
      WithoutMap(t.paths, k.prefix);
      assert View(DropKey(t, k)).subs == MinusKeys(View(t), [k]).subs;
    } else {
      assert View(DropKey(t, k)).paths == MinusKeys(View(t), [k]).paths;
    }
  }

  lemma {:induction false} MinusMore(m: Maps, keys: seq<Key>, k: Key)
    ensures MinusKeys(MinusKeys(m, keys), [k]) == MinusKeys(m, keys + [k])
  {
    var a, b := MinusKeys(MinusKeys(m, keys), [k]), MinusKeys(m, keys + [k]);
    assert a.subs == b.subs;
    assert a.paths == b.paths;
  }

  lemma {:induction false} DisownView(t: Tables, c: Conn)
    requires ListOk(t.paths)
    ensures var u := Disown(t, c);
      && View(u) == MinusKeys(View(t), OwnedBy(t, c)) && ListOk(u.paths)
      && u == t.(subs := u.subs, paths := u.paths, owned := t.owned - {c})
  {
    hide Without, PathMap, ListOk, DropKeys;
    var keys := OwnedBy(t, c);
    DropKeysView(t, keys, |keys|);
    assert keys[..|keys|] == keys;
    if c !in t.owned { NothingOff(View(t)); }
  }

  lemma {:induction false} NothingOff(m: Maps)
    ensures MinusKeys(m, []) == m
  {
  }

  lemma {:induction false} AddInputsView(t: Tables, c: Conn, inputs: seq<Input>, n: nat)
    requires n <= |inputs| && Apart(t.paths)
    ensures var u := AddInputs(t, c, inputs, n);
      && View(u) == PlusInputs(View(t), c, inputs, n) && Apart(u.paths)
      && u == t.(subs := u.subs, paths := u.paths)
  {
    hide Without, PathMap, Apart, TargetOf, NormalizePrefix, Lower;
    if n > 0 {
      AddInputsView(t, c, inputs, n - 1);
      AddInputView(AddInputs(t, c, inputs, n - 1), c, inputs[n - 1]);
    }
  }

  lemma {:induction false} AddInputView(t: Tables, c: Conn, i: Input)
    requires Apart(t.paths)
    ensures var u := AddPath(AddSub(t, c, i), c, i);
      View(u) == PlusInput(View(t), c, i) && Apart(u.paths) && u == t.(subs := u.subs, paths := u.paths)
  {
    hide Without, PathMap, Apart, TargetOf, NormalizePrefix, Lower;
    if i.path.Some? {
      var p := NormalizePrefix(i.path.value);
      WithoutIs(t.paths, p);
      WithoutMap(t.paths, p);
      MapSnoc(Without(t.paths, p), Route(p, TargetOf(c, i)));
      ApartSnoc(Without(t.paths, p), Route(p, TargetOf(c, i)));
      assert (PathMap(t.paths) - {p})[p := TargetOf(c, i)] == PathMap(t.paths)[p := TargetOf(c, i)];
    }
  }

  /** Registering, as the simple tables see it: the connection's old keys go, the new routes come
      in order, and the path list stays sorted without repetition. */
  lemma {:induction false} RegisteredView(t: Tables, c: Conn, u: User, sender: Sender, inputs: seq<Input>)
    requires ListOk(t.paths)
    ensures var r := Registered(t, c, u, sender, inputs);
      && View(r) == PlusInputs(MinusKeys(View(t), OwnedBy(t, c)), c, inputs, |inputs|) && ListOk(r.paths)
      && r == t.(subs := r.subs, paths := r.paths, clients := t.clients[c := sender], users := t.users[c := u],
                 owned := t.owned[c := KeysOf(inputs, |inputs|)])
  {
    hide Without, PathMap, Apart, Descending, AddInputs, Disown, MinusKeys, PlusInputs, Sorted;
    DisownView(t, c);
    var d := Disown(t, c);
    var e := d.(clients := t.clients[c := sender], users := t.users[c := u]);
    AddInputsView(e, c, inputs, |inputs|);
    var a := AddInputs(e, c, inputs, |inputs|);
    SortedIs(a.paths);
    SamePrefixes(a.paths, Sorted(a.paths));
    assert (t.owned - {c})[c := KeysOf(inputs, |inputs|)] == t.owned[c := KeysOf(inputs, |inputs|)];
  }
}
