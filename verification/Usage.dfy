/** Usage counters: added up in memory, written to the store in two phases. */
module Usage {
  import opened Bytes

  type User = int
  type Day = string

  datatype Amount = Amount(bytes: int, requests: int)

  const ZERO := Amount(0, 0)

  function Plus(a: Amount, b: Amount): Amount { Amount(a.bytes + b.bytes, a.requests + b.requests) }

  function Clip(bytes: int, requests: int): Amount {
    Amount(if bytes > 0 then bytes else 0, if requests > 0 then requests else 0)
  }

  predicate NonNeg(a: Amount) { a.bytes >= 0 && a.requests >= 0 }

  predicate AtMost(a: Amount, b: Amount) { a.bytes <= b.bytes && a.requests <= b.requests }

  type Pending = map<User, Amount>

  function Of(p: Pending, u: User): Amount { if u in p then p[u] else ZERO }

  function Added(p: Pending, u: User, a: Amount): Pending { p[u := Plus(Of(p, u), a)] }

  datatype Slot = Slot(user: User, day: Day)

  type Store = map<Slot, Amount>

  function At(s: Store, slot: Slot): Amount { if slot in s then s[slot] else ZERO }

  /** INSERT … ON CONFLICT DO UPDATE: the row's counters grow. */
  function Upserted(s: Store, slot: Slot, a: Amount): Store { s[slot := Plus(At(s, slot), a)] }

  datatype Row = Row(user: User, amount: Amount)

  /** Writing a snapshot, row by row; a row whose statement fails is gone. */
  function Written(s: Store, rows: seq<Row>, day: Day, oks: seq<bool>, n: nat): Store
    requires n <= |rows| == |oks|
  {
    if n == 0 then s
    else
      var t := Written(s, rows, day, oks, n - 1);
      if oks[n - 1] then Upserted(t, Slot(rows[n - 1].user, day), rows[n - 1].amount) else t
  }

  /** `rows` lists the map's entries, each once. */
  predicate Snapshots(rows: seq<Row>, p: Pending) {
    && (forall i, j :: 0 <= i < j < |rows| ==> rows[i].user != rows[j].user)
    && (forall i :: 0 <= i < |rows| ==> rows[i].user in p && p[rows[i].user] == rows[i].amount)
    && (forall u :: u in p ==> exists i :: 0 <= i < |rows| && rows[i].user == u)
  }

  /** `order` is a traversal of the map: every key once. */
  predicate Traverses(order: seq<User>, p: Pending) {
    && (forall i, j :: 0 <= i < j < |order| ==> order[i] != order[j])
    && (forall i :: 0 <= i < |order| ==> order[i] in p)
    && (forall u :: u in p ==> u in order)
  }

  class UsageMeter {
    var store: Store
    var pending: Pending

    constructor (store: Store)
      ensures this.store == store && pending == map[]
    {
      this.store, pending := store, map[];
    }

    method Add(user: User, bytes: int, requests: int)
      modifies this
      ensures pending == Added(old(pending), user, Clip(bytes, requests)) && store == old(store)
    {
      var e := if user in pending then pending[user] else ZERO;
      e := Amount(e.bytes + (if bytes > 0 then bytes else 0), e.requests + if requests > 0 then requests else 0);
      pending := pending[user := e];
    }

    /** First phase, under the lock: take everything, in the order of the traversal, and leave nothing. */
    method TakeAll(order: seq<User>) returns (rows: seq<Row>)
      requires Traverses(order, pending)
      modifies this
      ensures Snapshots(rows, old(pending)) && pending == map[] && store == old(store)
    {
      rows := [];
      for i := 0 to |order|
        invariant pending == old(pending) && store == old(store) && |rows| == i
        invariant forall j :: 0 <= j < i ==> rows[j] == Row(order[j], pending[order[j]])
      {
        rows := rows + [Row(order[i], pending[order[i]])];
      }
      forall u | u in pending ensures exists i :: 0 <= i < |rows| && rows[i].user == u {
        var i :| 0 <= i < |order| && order[i] == u;
        assert rows[i].user == u;
      }
      pending := map[];
    }

    /** Second phase, without the lock: one statement per row. `oks` says which succeed. */
    method WriteRows(rows: seq<Row>, day: Day, oks: seq<bool>)
      requires |oks| == |rows|
      modifies this
      ensures store == Written(old(store), rows, day, oks, |rows|) && pending == old(pending)
    {
      for i := 0 to |rows|
        invariant store == Written(old(store), rows, day, oks, i) && pending == old(pending)
      {
        if oks[i] { store := Upserted(store, Slot(rows[i].user, day), rows[i].amount); }
      }
    }

    /** The second half of `today`: `row` is what the store said before. */
    method AddPending(user: User, row: Amount) returns (r: Amount)
      ensures r == Plus(row, Of(pending, user))
    {
      r := row;
      if user in pending { r := Amount(r.bytes + pending[user].bytes, r.requests + pending[user].requests); }
    }
  }

  // ---- any interleaving ----

  /** What `today` answered about a user and a day; what the store held then of the user's other
      days, and all that had been added for the user. */
  datatype Answer = Answer(slot: Slot, amount: Amount, elsewhere: Amount, total: Amount)

  /** `inFlight` are snapshot rows not written yet, of any number of flushes; `log` what the store has
      taken in; `lost` what failed statements dropped; `total` what was ever added; `asked` what
      unfinished `today` calls have read from the store; `told` what they answered. */
  datatype State = State(store: Store, pending: Pending, inFlight: seq<Row>, log: seq<(Slot, Amount)>, lost: seq<Row>,
                         total: Pending, asked: map<nat, (Slot, Amount)>, told: map<nat, Answer>)

  datatype Event =
    | Add(user: User, bytes: int, requests: int)
    | Snapshot(rows: seq<Row>)
    | Write(i: nat, day: Day, ok: bool)
    | AskStore(q: nat, slot: Slot)
    | AskPending(q: nat)

  const INIT := State(map[], map[], [], [], [], map[], map[], map[])

  predicate Enabled(s: State, e: Event) {
    match e
    case Add(_, _, _) => true
    case Snapshot(rows) => Snapshots(rows, s.pending)
    case Write(i, _, _) => i < |s.inFlight|
    case AskStore(q, _) => q !in s.asked && q !in s.told
    case AskPending(q) => q in s.asked
  }

  function Step(s: State, e: Event): State {
    if !Enabled(s, e) then s
    else match e
      case Add(u, b, r) =>
        s.(pending := Added(s.pending, u, Clip(b, r)), total := Added(s.total, u, Clip(b, r)))
      case Snapshot(rows) => s.(pending := map[], inFlight := s.inFlight + rows)
      case Write(i, day, ok) =>
        var row := s.inFlight[i];
        var rest := s.(inFlight := s.inFlight[..i] + s.inFlight[i + 1..]);
        if ok then
          rest.(store := Upserted(s.store, Slot(row.user, day), row.amount), log := s.log + [(Slot(row.user, day), row.amount)])
        else rest.(lost := s.lost + [row])
      case AskStore(q, slot) => s.(asked := s.asked[q := (slot, At(s.store, slot))])
      case AskPending(q) =>
        var (slot, a) := s.asked[q];
        s.(asked := s.asked - {q},
            told := s.told[q := Answer(slot, Plus(a, Of(s.pending, slot.user)), SumElsewhere(s.log, slot), Of(s.total, slot.user))])
  }

  function Exec(es: seq<Event>): State {
    if es == [] then INIT else Step(Exec(es[..|es| - 1]), es[|es| - 1])
  }

  // ---- sums ----

  function SumRows(rows: seq<Row>, u: User): Amount {
    if rows == [] then ZERO
    else
      var k := |rows| - 1;
      if rows[k].user == u then Plus(SumRows(rows[..k], u), rows[k].amount) else SumRows(rows[..k], u)
  }

  function SumLog(log: seq<(Slot, Amount)>, u: User): Amount {
    if log == [] then ZERO
    else
      var k := |log| - 1;
      if log[k].0.user == u then Plus(SumLog(log[..k], u), log[k].1) else SumLog(log[..k], u)
  }

  function SumSlot(log: seq<(Slot, Amount)>, slot: Slot): Amount {
    if log == [] then ZERO
    else
      var k := |log| - 1;
      if log[k].0 == slot then Plus(SumSlot(log[..k], slot), log[k].1) else SumSlot(log[..k], slot)
  }

  /** What was taken in for the user of `slot`, but on other days. */
  function SumElsewhere(log: seq<(Slot, Amount)>, slot: Slot): Amount {
    if log == [] then ZERO
    else
      var k := |log| - 1;
      if log[k].0.user == slot.user && log[k].0 != slot then Plus(SumElsewhere(log[..k], slot), log[k].1) else SumElsewhere(log[..k], slot)
  }

  lemma {:induction false} DaysAddUp(log: seq<(Slot, Amount)>, slot: Slot)
    ensures SumLog(log, slot.user) == Plus(SumSlot(log, slot), SumElsewhere(log, slot))
    decreases |log|
  {
    if log != [] { DaysAddUp(log[..|log| - 1], slot); }
  }

  lemma {:induction false} SumSnoc(rows: seq<Row>, r: Row, u: User)
    ensures SumRows(rows + [r], u) == if r.user == u then Plus(SumRows(rows, u), r.amount) else SumRows(rows, u)
  {
    assert (rows + [r])[..|rows|] == rows;
  }

  lemma {:induction false} SumAppend(a: seq<Row>, b: seq<Row>, u: User)
    ensures SumRows(a + b, u) == Plus(SumRows(a, u), SumRows(b, u))
    decreases |b|
  {
    hide SumRows;
    if b == [] {
      assert a + b == a;
      SumNothing(u);
    } else {
      var t, r := b[..|b| - 1], b[|b| - 1];
      SumAppend(a, t, u);
      SumSnoc(a + t, r, u);
      SumSnoc(t, r, u);
      assert a + b == a + t + [r] && b == t + [r];
    }
  }

  lemma {:induction false} SumNothing(u: User)
    ensures SumRows([], u) == ZERO
  {
  }

  lemma {:induction false} SumOne(r: Row, u: User)
    ensures SumRows([r], u) == if r.user == u then r.amount else ZERO
  {
    assert [r][..0] == [];
  }

  lemma {:induction false} SumMiddle(a: seq<Row>, r: Row, b: seq<Row>, u: User)
    ensures SumRows(a + [r] + b, u) == Plus(SumRows(a + b, u), if r.user == u then r.amount else ZERO)
  {
    hide SumRows;
    SumAppend(a, b, u);
    SumAppend(a, [r], u);
    SumAppend(a + [r], b, u);
    SumOne(r, u);
  }

  lemma {:induction false} SumWithout(rows: seq<Row>, i: nat, u: User)
    requires i < |rows|
    ensures SumRows(rows, u) == Plus(SumRows(rows[..i] + rows[i + 1..], u), if rows[i].user == u then rows[i].amount else ZERO)
  {
    hide SumRows;
    SumMiddle(rows[..i], rows[i], rows[i + 1..], u);
    assert rows[..i] + [rows[i]] + rows[i + 1..] == rows;
  }

  /** A snapshot adds up to the map it was taken from. */
  lemma {:induction false} SumSnapshot(rows: seq<Row>, p: Pending, u: User)
    requires Snapshots(rows, p)
    ensures SumRows(rows, u) == Of(p, u)
  {
    if u in p {
      var i :| 0 <= i < |rows| && rows[i].user == u;
      SumDistinct(rows, i, |rows|);
      assert rows[..|rows|] == rows;
    } else {
      SumNone(rows, |rows|, u);
      assert rows[..|rows|] == rows;
    }
  }

  lemma {:induction false} SumNone(rows: seq<Row>, n: nat, u: User)
    requires n <= |rows| && forall i :: 0 <= i < n ==> rows[i].user != u
    ensures SumRows(rows[..n], u) == ZERO
  {
    if n > 0 {
      SumNone(rows, n - 1, u);
      assert rows[..n][..n - 1] == rows[..n - 1];
    }
  }

  lemma {:induction false} SumDistinct(rows: seq<Row>, i: nat, n: nat)
    requires i < n <= |rows| && forall j, k :: 0 <= j < k < |rows| ==> rows[j].user != rows[k].user
    ensures SumRows(rows[..n], rows[i].user) == rows[i].amount
    decreases n
  {
    assert rows[..n][..n - 1] == rows[..n - 1];
    if i == n - 1 {
      SumNone(rows, n - 1, rows[i].user);
    } else {
      SumDistinct(rows, i, n - 1);
    }
  }

  lemma {:induction false} LogSnoc(log: seq<(Slot, Amount)>, x: (Slot, Amount), slot: Slot)
    ensures SumSlot(log + [x], slot) == if x.0 == slot then Plus(SumSlot(log, slot), x.1) else SumSlot(log, slot)
    ensures SumLog(log + [x], slot.user) == if x.0.user == slot.user then Plus(SumLog(log, slot.user), x.1) else SumLog(log, slot.user)
  {
    assert (log + [x])[..|log|] == log;
  }

  // ---- the invariant, user by user ----

  /** Nothing that was added is missing or counted twice. */
  predicate Conserved(s: State, u: User) {
    Of(s.total, u) == Plus(Plus(SumLog(s.log, u), SumRows(s.inFlight, u)), Plus(Of(s.pending, u), SumRows(s.lost, u)))
  }

  predicate RowIsLog(store: Store, log: seq<(Slot, Amount)>, slot: Slot) {
    At(store, slot) == SumSlot(log, slot)
  }

  ghost predicate StoreIsLog(s: State, u: User) { forall day :: RowIsLog(s.store, s.log, Slot(u, day)) }

  predicate RowsOk(rows: seq<Row>, u: User) {
    forall i :: 0 <= i < |rows| && rows[i].user == u ==> NonNeg(rows[i].amount)
  }

  predicate SumsOk(s: State, u: User) {
    NonNeg(Of(s.pending, u)) && RowsOk(s.inFlight, u) && NonNeg(SumRows(s.lost, u)) && NonNeg(SumLog(s.log, u))
  }

  /** What `today` read from the store can only have grown since, and what it told was true. */
  predicate AnswersOk(s: State, u: User) {
    && (forall q :: q in s.asked && s.asked[q].0.user == u ==> AtMost(s.asked[q].1, SumSlot(s.log, s.asked[q].0)))
    && (forall q :: q in s.told && s.told[q].slot.user == u ==> AtMost(Plus(s.told[q].amount, s.told[q].elsewhere), s.told[q].total))
  }

  ghost predicate Inv(s: State, u: User) {
    Conserved(s, u) && StoreIsLog(s, u) && SumsOk(s, u) && AnswersOk(s, u)
  }

  lemma {:induction false} RowsNonNeg(rows: seq<Row>, u: User)
    requires RowsOk(rows, u)
    ensures NonNeg(SumRows(rows, u))
    decreases |rows|
  {
    if rows != [] { RowsNonNeg(rows[..|rows| - 1], u); }
  }

  lemma {:induction false} AddKeeps(s: State, v: User, b: int, r: int, u: User)
    requires Inv(s, u)
    ensures Inv(Step(s, Add(v, b, r)), u)
  {
    hide SumLog, SumRows, RowIsLog;
  }

  lemma {:induction false} SnapshotKeeps(s: State, rows: seq<Row>, u: User)
    requires Inv(s, u) && Snapshots(rows, s.pending)
    ensures Inv(Step(s, Snapshot(rows)), u)
  {
    hide SumLog, SumRows, RowIsLog;
    SumAppend(s.inFlight, rows, u);
    SumSnapshot(rows, s.pending, u);
  }

  lemma {:induction false} RowTaken(store: Store, log: seq<(Slot, Amount)>, x: (Slot, Amount), slot: Slot)
    requires RowIsLog(store, log, slot)
    ensures RowIsLog(Upserted(store, x.0, x.1), log + [x], slot)
  {
    hide SumLog, SumSlot;
    LogSnoc(log, x, slot);
  }

  /** A row leaves the flight: what is left is well-formed and lighter by it. */
  lemma {:induction false} RowLeaves(rows: seq<Row>, i: nat, u: User)
    requires RowsOk(rows, u) && i < |rows|
    ensures RowsOk(rows[..i] + rows[i + 1..], u)
    ensures SumRows(rows, u) == Plus(SumRows(rows[..i] + rows[i + 1..], u), if rows[i].user == u then rows[i].amount else ZERO)
    ensures rows[i].user == u ==> NonNeg(rows[i].amount)
  {
    hide SumRows;
    SumWithout(rows, i, u);
  }

  lemma {:induction false} WriteFails(s: State, i: nat, day: Day, u: User, t: State)
    requires Inv(s, u) && i < |s.inFlight| && t == Step(s, Write(i, day, false))
    ensures Inv(t, u)
  {
    hide SumLog, SumRows, RowsOk, RowIsLog;
    RowLeaves(s.inFlight, i, u);
    SumSnoc(s.lost, s.inFlight[i], u);
  }

  lemma {:induction false} StoreTakes(s: State, t: State, x: (Slot, Amount), u: User)
    requires StoreIsLog(s, u)
    requires t.store == Upserted(s.store, x.0, x.1) && t.log == s.log + [x]
    ensures StoreIsLog(t, u)
  {
    hide RowIsLog, Upserted;
    forall d ensures RowIsLog(t.store, t.log, Slot(u, d)) {
      assert RowIsLog(s.store, s.log, Slot(u, d));
      RowTaken(s.store, s.log, x, Slot(u, d));
    }
  }

  lemma {:induction false} AnswersStay(s: State, t: State, u: User)
    requires AnswersOk(s, u) && forall day :: AtMost(SumSlot(s.log, Slot(u, day)), SumSlot(t.log, Slot(u, day)))
    requires t.asked == s.asked && t.told == s.told
    ensures AnswersOk(t, u)
  {
    hide SumSlot, AtMost;
    forall q | q in t.asked && t.asked[q].0.user == u ensures AtMost(t.asked[q].1, SumSlot(t.log, t.asked[q].0)) {
      var slot := t.asked[q].0;
      assert Slot(u, slot.day) == slot;
      Below(t.asked[q].1, SumSlot(s.log, slot), SumSlot(t.log, slot));
    }
  }

  lemma {:induction false} Below(a: Amount, b: Amount, c: Amount)
    requires AtMost(a, b) && AtMost(b, c)
    ensures AtMost(a, c)
  {
  }

  lemma {:induction false} WriteLands(s: State, i: nat, day: Day, u: User, t: State)
    requires Inv(s, u) && i < |s.inFlight| && t == Step(s, Write(i, day, true))
    ensures Inv(t, u)
  {
    hide SumLog, SumRows, RowsOk, StoreIsLog, AnswersOk, Upserted, SumSlot;
    var row := s.inFlight[i];
    var x := (Slot(row.user, day), row.amount);
    RowLeaves(s.inFlight, i, u);
    LogSnoc(s.log, x, Slot(u, day));
    forall d ensures AtMost(SumSlot(s.log, Slot(u, d)), SumSlot(t.log, Slot(u, d))) {
      LogSnoc(s.log, x, Slot(u, d));
    }
    StoreTakes(s, t, x, u);
    AnswersStay(s, t, u);
  }

  lemma {:induction false} AskKeeps(s: State, e: Event, u: User)
    requires Inv(s, u) && (e.AskStore? || e.AskPending?) && Enabled(s, e)
    ensures Inv(Step(s, e), u)
  {
    hide SumLog, SumRows, SumSlot, SumElsewhere;
    RowsNonNeg(s.inFlight, u);
    match e
    case AskStore(_, slot) => if slot.user == u { assert RowIsLog(s.store, s.log, Slot(u, slot.day)); }
    case AskPending(q) => DaysAddUp(s.log, s.asked[q].0);
  }

  lemma {:induction false} RunKeeps(es: seq<Event>, u: User)
    ensures Inv(Exec(es), u)
    decreases |es|
  {
    hide Step, Inv;
    if es == [] {
      InitOk(u);
    } else {
      var s, e := Exec(es[..|es| - 1]), es[|es| - 1];
      RunKeeps(es[..|es| - 1], u);
      if Enabled(s, e) {
        match e
        case Add(v, b, r) => AddKeeps(s, v, b, r, u);
        case Snapshot(rows) => SnapshotKeeps(s, rows, u);
        case Write(i, day, ok) => if ok { WriteLands(s, i, day, u, Step(s, e)); } else { WriteFails(s, i, day, u, Step(s, e)); }
        case AskStore(_, _) => AskKeeps(s, e, u);
        case AskPending(_) => AskKeeps(s, e, u);
      } else {
        Ignored(s, e);
      }
    }
  }

  lemma {:induction false} Ignored(s: State, e: Event)
    requires !Enabled(s, e)
    ensures Step(s, e) == s
  {
  }

  lemma {:induction false} NoRow(u: User, day: Day)
    ensures RowIsLog(map[], [], Slot(u, day))
    ensures SumLog([], u) == ZERO
  {
  }

  lemma {:induction false} InitOk(u: User)
    ensures Inv(INIT, u)
  {
    hide SumLog, SumRows, SumSlot, RowIsLog;
    forall day ensures RowIsLog(map[], [], Slot(u, day)) { NoRow(u, day); }
    NoRow(u, "");
    SumNothing(u);
  }

  // ---- over whole runs ----

  /** The bytes of the user's adds in the run; a negative count adds nothing. */
  function BytesAdded(es: seq<Event>, u: User): int {
    if es == [] then 0
    else
      var e := es[|es| - 1];
      BytesAdded(es[..|es| - 1], u) + if e.Add? && e.user == u && e.bytes > 0 then e.bytes else 0
  }

  function RequestsAdded(es: seq<Event>, u: User): int {
    if es == [] then 0
    else
      var e := es[|es| - 1];
      RequestsAdded(es[..|es| - 1], u) + if e.Add? && e.user == u && e.requests > 0 then e.requests else 0
  }

  lemma {:induction false} TotalIs(es: seq<Event>, u: User)
    ensures Of(Exec(es).total, u) == Amount(BytesAdded(es, u), RequestsAdded(es, u))
    decreases |es|
  {
    hide SumElsewhere, Upserted, Snapshots;
    if es != [] { TotalIs(es[..|es| - 1], u); }
  }

  /** At every point of every run, the bytes and the requests that were added for a user are those
      that the store took in, the snapshot rows not written yet, the pending counters and the rows
      whose statement failed. The store's rows are the sums of what it took in. */
  lemma {:induction false} Conservation(es: seq<Event>, u: User, day: Day)
    ensures var s := Exec(es);
      && BytesAdded(es, u) ==
           SumLog(s.log, u).bytes + SumRows(s.inFlight, u).bytes + Of(s.pending, u).bytes + SumRows(s.lost, u).bytes
      && RequestsAdded(es, u) ==
           SumLog(s.log, u).requests + SumRows(s.inFlight, u).requests + Of(s.pending, u).requests + SumRows(s.lost, u).requests
      && At(s.store, Slot(u, day)) == SumSlot(s.log, Slot(u, day))
  {
    hide Exec;
    RunKeeps(es, u);
    TotalIs(es, u);
    assert RowIsLog(Exec(es).store, Exec(es).log, Slot(u, day));
  }

  lemma {:induction false} ToldStays(es: seq<Event>, i: nat, q: nat)
    requires i <= |es| && q in Exec(es[..i]).told
    ensures q in Exec(es).told && Exec(es).told[q] == Exec(es[..i]).told[q]
    ensures q !in Exec(es).asked
    decreases |es| - i
  {
    hide SumElsewhere, Upserted, Snapshots;
    AskedOrTold(es, q);
    if i < |es| {
      assert es[..i + 1][..i] == es[..i];
      AskedOrTold(es[..i], q);
      ToldStays(es, i + 1, q);
    } else {
      assert es[..i] == es;
    }
  }

  lemma {:induction false} AskedOrTold(es: seq<Event>, q: nat)
    ensures !(q in Exec(es).asked && q in Exec(es).told)
    decreases |es|
  {
    hide SumElsewhere, Upserted, Snapshots;
    if es != [] { AskedOrTold(es[..|es| - 1], q); }
  }

  /** What `today`, which reads the store before the counters, tells of a day, and what the store
      held of the user's other days when it told it, is at most what had been added by then. The
      `i`-th event of the run is the end of the call. */
  lemma {:induction false} NeverOverCounts(es: seq<Event>, i: nat)
    requires i < |es| && es[i].AskPending? && Enabled(Exec(es[..i]), es[i])
    ensures var u, s, t := Exec(es[..i]).asked[es[i].q].0, Exec(es[..i]), Exec(es);
      && es[i].q in t.told && t.told[es[i].q].slot == u
      && var told := t.told[es[i].q].amount;
        && told.bytes + SumElsewhere(s.log, u).bytes <= BytesAdded(es[..i], u.user)
        && told.requests + SumElsewhere(s.log, u).requests <= RequestsAdded(es[..i], u.user)
  {
    hide SumElsewhere, SumLog, SumRows, SumSlot;
    var q := es[i].q;
    var s := Exec(es[..i]);
    var u := s.asked[q].0;
    var n := es[..i + 1];
    assert n[..i] == es[..i];
    RunKeeps(n, u.user);
    TotalIs(es[..i], u.user);
    ToldStays(es, i + 1, q);
  }

  /** The machine after the first `n` rows of a snapshot were written, one step each. */
  function Flushed(s: State, day: Day, oks: seq<bool>, n: nat): State
    requires n <= |oks|
  {
    if n == 0 then s else Step(Flushed(s, day, oks, n - 1), Write(0, day, oks[n - 1]))
  }

  /** `UsageMeter.WriteRows` does what the machine's steps do. */
  lemma {:induction false} FlushIsSteps(s: State, day: Day, oks: seq<bool>, n: nat)
    requires n <= |oks| == |s.inFlight|
    ensures var t := Flushed(s, day, oks, n);
      t.store == Written(s.store, s.inFlight, day, oks, n) && t.inFlight == s.inFlight[n..] && t.pending == s.pending
  {
    hide SumElsewhere, Upserted, Snapshots;
    if n > 0 {
      FlushIsSteps(s, day, oks, n - 1);
      var rest := s.inFlight[n - 1..];
      assert rest[0] == s.inFlight[n - 1] && rest[..0] + rest[1..] == s.inFlight[n..];
    }
  }
}
