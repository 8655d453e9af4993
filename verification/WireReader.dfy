/** Reading a frame with an index into the whole input, as the field readers of both languages do.

    Index sums wrap at 2^64. A length prefix so large that it wraps passes the reader's test for
    truncation: the Rust half then panics at the slice, and the C++ half takes all bytes that are
    left and goes on from an earlier index. Everything else agrees with the layouts. */
module WireReader {
  import opened Bytes
  import opened Bits
  import opened Varint
  import opened Utf8
  import opened Wire

  /** No byte string in memory is longer. */
  const MAX_LEN: nat := 0x7fff_ffff_ffff_ffff

  predicate IsRaw(p: Prim) { p == Text || p == Blob }

  /** The length prefix at `i` is so large that adding it to the index wraps. */
  predicate Wraps(d: seq<byte>, i: nat)
    requires i <= |d|
  {
    var r := DecodeVarint(d[i..]);
    r.Parsed? && i + r.used + r.value >= U64
  }

  /** The field at `i`; `used` is the index that is read on from. */
  function PrimAt(p: Prim, d: seq<byte>, i: nat, checked: bool): (r: Parsed<Val>)
    requires i <= |d|
    ensures r.Parsed? ==> r.used <= |d| && (if IsRaw(p) then r.value.Raw? else r.value.Num?)
  {
    if IsRaw(p) && Wraps(d, i) then
      if checked then Failed(Panicked)
      else
        var r := DecodeVarint(d[i..]);
        Parsed(Raw(d[i + r.used..]), i + r.used + r.value - U64)
    else match DecPrim(p, d[i..], checked)
      case Failed(e) => Failed(e)
      case Parsed(v, m) => Parsed(v, i + m)
  }

  function FieldsAt(ps: seq<Prim>, d: seq<byte>, i: nat, checked: bool, k: nat): (r: Parsed<seq<Val>>)
    requires i <= |d| && k <= |ps|
    ensures r.Parsed? ==> r.used <= |d| && |r.value| == k
    decreases k
  {
    if k == 0 then Parsed([], i)
    else match FieldsAt(ps, d, i, checked, k - 1)
      case Failed(e) => Failed(e)
      case Parsed(vs, n) =>
        match PrimAt(ps[k - 1], d, n, checked)
        case Failed(e) => Failed(e)
        case Parsed(v, m) => Parsed(vs + [v], m)
  }

  function RowsAt(cols: seq<Prim>, d: seq<byte>, i: nat, checked: bool, k: nat): (r: Parsed<seq<seq<Val>>>)
    requires i <= |d|
    ensures r.Parsed? ==> r.used <= |d| && |r.value| == k && RowsSized(cols, r.value)
    decreases k
  {
    if k == 0 then Parsed([], i)
    else match RowsAt(cols, d, i, checked, k - 1)
      case Failed(e) => Failed(e)
      case Parsed(rows, n) =>
        match FieldsAt(cols, d, n, checked, |cols|)
        case Failed(e) => Failed(e)
        case Parsed(row, m) => Parsed(rows + [row], m)
  }

  function ReadFrame(sh: Shape, d: seq<byte>, checked: bool): (r: Parsed<Fields>)
    ensures r.Parsed? ==> r.used <= |d| && Sized(sh, r.value) && |r.value.rows| == Count(sh, r.value.head)
  {
    match FieldsAt(sh.head, d, 0, checked, |sh.head|)
    case Failed(e) => Failed(e)
    case Parsed(head, n) =>
      match RowsAt(sh.cols, d, n, checked, Count(sh, head))
      case Failed(e) => Failed(e)
      case Parsed(rows, m) =>
        match FieldsAt(sh.tail, d, m, checked, |sh.tail|)
        case Failed(e) => Failed(e)
        case Parsed(tail, q) => Parsed(Fields(head, rows, tail), q)
  }

  // ---- reading field by field ----

  /** The fields a reader has collected, last one outermost. */
  datatype Vals = Nil | Snoc(init: Vals, last: Val)

  function ToSeq(l: Vals): seq<Val> {
    match l
    case Nil => []
    case Snoc(init, last) => ToSeq(init) + [last]
  }

  predicate Lists(l: Vals, vs: seq<Val>, k: nat)
    requires k <= |vs|
    decreases k
  {
    if k == 0 then l.Nil? else l.Snoc? && l.last == vs[k - 1] && Lists(l.init, vs, k - 1)
  }

  lemma {:induction false} SeqOf(l: Vals, vs: seq<Val>, k: nat)
    requires k <= |vs| && Lists(l, vs, k)
    ensures ToSeq(l) == vs[..k]
    decreases k
  {
    if k > 0 {
      SeqOf(l.init, vs, k - 1);
      assert vs[..k] == vs[..k - 1] + [vs[k - 1]];
    }
  }

  lemma {:induction false} AllOf(l: Vals, vs: seq<Val>, k: nat)
    requires k == |vs| && Lists(l, vs, k)
    ensures ToSeq(l) == vs
  {
    SeqOf(l, vs, k);
  }

  /** What a reader that started at `i0` has collected after `k` fields. */
  function ReadTo(ps: seq<Prim>, d: seq<byte>, i0: nat, checked: bool, k: nat): (r: Parsed<Vals>)
    requires k <= |ps| && i0 <= |d|
    ensures r.Parsed? ==> r.used <= |d|
    decreases k
  {
    if k == 0 then Parsed(Nil, i0)
    else match ReadTo(ps, d, i0, checked, k - 1)
      case Failed(e) => Failed(e)
      case Parsed(l, i) =>
        match PrimAt(ps[k - 1], d, i, checked)
        case Failed(e) => Failed(e)
        case Parsed(v, m) => Parsed(Snoc(l, v), m)
  }

  lemma {:induction false} FieldByField(ps: seq<Prim>, d: seq<byte>, i0: nat, checked: bool, k: nat)
    requires k <= |ps| && i0 <= |d|
    ensures FieldsAt(ps, d, i0, checked, k) == match ReadTo(ps, d, i0, checked, k)
      case Failed(e) => Failed(e)
      case Parsed(l, i) => Parsed(ToSeq(l), i)
    decreases k
  {
    hide PrimAt;
    if k > 0 { FieldByField(ps, d, i0, checked, k - 1); }
  }

  /** A row that cannot be read fails the whole count. */
  lemma {:induction false} RowFails(cols: seq<Prim>, d: seq<byte>, i: nat, checked: bool, j: nat, k: nat)
    requires i <= |d| && j <= k
    ensures RowsAt(cols, d, i, checked, j).Failed? ==> RowsAt(cols, d, i, checked, k) == RowsAt(cols, d, i, checked, j)
    decreases k
  {
    hide FieldsAt;
    if j < k { RowFails(cols, d, i, checked, j, k - 1); }
  }

  lemma {:induction false} NoRows(cols: seq<Prim>, d: seq<byte>, i0: nat, checked: bool)
    requires i0 <= |d|
    ensures RowsAt(cols, d, i0, checked, 0) == Parsed([], i0)
  {
  }

  /** One round of a loop over `n` rows, standing at `i` after `j` of them. */
  lemma {:induction false} NextRow(cols: seq<Prim>, d: seq<byte>, i0: nat, i: nat, checked: bool,
          rows: seq<seq<Val>>, n: nat)
    requires i0 <= |d| && i <= |d| && |rows| < n && RowsAt(cols, d, i0, checked, |rows|) == Parsed(rows, i)
    ensures match FieldsAt(cols, d, i, checked, |cols|)
      case Failed(e) => RowsAt(cols, d, i0, checked, n) == Failed(e)
      case Parsed(row, m) => RowsAt(cols, d, i0, checked, |rows| + 1) == Parsed(rows + [row], m)
  {
    hide FieldsAt;
    RowFails(cols, d, i0, checked, |rows| + 1, n);
  }

  /** A frame that ends with its rows. */
  lemma {:induction false} NoTail(sh: Shape, d: seq<byte>, checked: bool)
    requires sh.tail == []
    ensures ReadFrame(sh, d, checked) == match FieldsAt(sh.head, d, 0, checked, |sh.head|)
      case Failed(e) => Failed(e)
      case Parsed(head, n) =>
        match RowsAt(sh.cols, d, n, checked, Count(sh, head))
        case Failed(e) => Failed(e)
        case Parsed(rows, m) => Parsed(Fields(head, rows, []), m)
  {
    hide PrimAt, RowsAt;
  }

  /** A frame with nothing but a head. */
  lemma {:induction false} HeadOnly(sh: Shape, d: seq<byte>, checked: bool)
    requires sh.cols == [] && sh.tail == []
    ensures ReadFrame(sh, d, checked) == match FieldsAt(sh.head, d, 0, checked, |sh.head|)
      case Failed(e) => Failed(e)
      case Parsed(head, n) => Parsed(Fields(head, [], []), n)
  {
    hide ReadFrame, PrimAt;
    NoTail(sh, d, checked);
  }

  // ---- when reading agrees with the layout ----

  /** Reading the first `k` fields meets no length that wraps. */
  predicate FieldsSafe(ps: seq<Prim>, d: seq<byte>, i: nat, checked: bool, k: nat)
    requires i <= |d| && k <= |ps|
    decreases k
  {
    k == 0 || (FieldsSafe(ps, d, i, checked, k - 1) &&
      match FieldsAt(ps, d, i, checked, k - 1)
      case Failed(_) => true
      case Parsed(_, n) => IsRaw(ps[k - 1]) ==> !Wraps(d, n))
  }

  predicate RowsSafe(cols: seq<Prim>, d: seq<byte>, i: nat, checked: bool, k: nat)
    requires i <= |d|
    decreases k
  {
    k == 0 || (RowsSafe(cols, d, i, checked, k - 1) &&
      match RowsAt(cols, d, i, checked, k - 1)
      case Failed(_) => true
      case Parsed(_, n) => FieldsSafe(cols, d, n, checked, |cols|))
  }

  /** Reading a frame of this layout meets no length that wraps. */
  predicate FrameSafe(sh: Shape, d: seq<byte>, checked: bool) {
    FieldsSafe(sh.head, d, 0, checked, |sh.head|) &&
    match FieldsAt(sh.head, d, 0, checked, |sh.head|)
    case Failed(_) => true
    case Parsed(head, n) =>
      RowsSafe(sh.cols, d, n, checked, Count(sh, head)) &&
      match RowsAt(sh.cols, d, n, checked, Count(sh, head))
      case Failed(_) => true
      case Parsed(_, m) => FieldsSafe(sh.tail, d, m, checked, |sh.tail|)
  }

  function From<T>(i: nat, r: Parsed<T>): Parsed<T> {
    match r
    case Failed(e) => Failed(e)
    case Parsed(v, n) => Parsed(v, i + n)
  }

  /** What an index reader may make of input that the layout reads as `l`, `safe` saying whether no
      length wrapped: the same, or else the layout calls it truncated and the Rust half panics. */
  predicate Agrees<T(==)>(r: Parsed<T>, l: Parsed<T>, safe: bool, checked: bool) {
    if safe then r == l else l == Failed(Truncated) && (checked ==> r == Failed(Panicked))
  }

  lemma {:induction false} PrimAgrees(p: Prim, d: seq<byte>, i: nat, checked: bool)
    requires i <= |d| <= MAX_LEN
    ensures Agrees(PrimAt(p, d, i, checked), From(i, DecPrim(p, d[i..], checked)), IsRaw(p) ==> !Wraps(d, i), checked)
  {
    hide DecodeVarint, ValidUtf8;
  }

  lemma {:induction false} FieldsAgree(ps: seq<Prim>, d: seq<byte>, i: nat, checked: bool, k: nat)
    requires i <= |d| <= MAX_LEN && k <= |ps|
    ensures Agrees(FieldsAt(ps, d, i, checked, k), From(i, DecTo(ps, d[i..], checked, k)), FieldsSafe(ps, d, i, checked, k), checked)
    decreases k
  {
    hide PrimAt, DecPrim, Wraps;
    if k > 0 {
      FieldsAgree(ps, d, i, checked, k - 1);
      var r := DecTo(ps, d[i..], checked, k - 1);
      if FieldsSafe(ps, d, i, checked, k - 1) && r.Parsed? {
        PrimAgrees(ps[k - 1], d, i + r.used, checked);
        assert d[i..][r.used..] == d[i + r.used..];
      }
    }
  }

  lemma {:induction false} RowsAgree(cols: seq<Prim>, d: seq<byte>, i: nat, checked: bool, k: nat)
    requires i <= |d| <= MAX_LEN
    ensures Agrees(RowsAt(cols, d, i, checked, k), From(i, DecRows(cols, d[i..], checked, k)), RowsSafe(cols, d, i, checked, k), checked)
    decreases k
  {
    hide FieldsAt, DecTo, FieldsSafe;
    if k > 0 {
      RowsAgree(cols, d, i, checked, k - 1);
      var r := DecRows(cols, d[i..], checked, k - 1);
      if RowsSafe(cols, d, i, checked, k - 1) && r.Parsed? {
        FieldsAgree(cols, d, i + r.used, checked, |cols|);
        assert d[i..][r.used..] == d[i + r.used..];
      }
    }
  }

  /** Reading agrees with the layout as long as no length wraps. Otherwise the layout says truncated,
      and the Rust half panics. */
  lemma {:induction false} FrameAgrees(sh: Shape, d: seq<byte>, checked: bool)
    requires |d| <= MAX_LEN
    ensures Agrees(ReadFrame(sh, d, checked), DecFrame(sh, d, checked), FrameSafe(sh, d, checked), checked)
  {
    hide FieldsAt, DecTo, FieldsSafe, RowsAt, DecRows, RowsSafe;
    assert d[0..] == d;
    FieldsAgree(sh.head, d, 0, checked, |sh.head|);
    var h := DecTo(sh.head, d, checked, |sh.head|);
    if h.Parsed? {
      RowsAgree(sh.cols, d, h.used, checked, Count(sh, h.value));
      var r := DecRows(sh.cols, d[h.used..], checked, Count(sh, h.value));
      if r.Parsed? { FieldsAgree(sh.tail, d, h.used + r.used, checked, |sh.tail|); }
    }
  }

  /** The checking reader does what the layout says iff no length wraps. */
  lemma {:induction false} CheckedAgreesIff(sh: Shape, d: seq<byte>)
    requires |d| <= MAX_LEN
    ensures ReadFrame(sh, d, true) == DecFrame(sh, d, true) <==> FrameSafe(sh, d, true)
  {
    hide ReadFrame, DecFrame, FrameSafe;
    FrameAgrees(sh, d, true);
  }

  /** What was encoded is read back, whatever bytes follow; a checking reader refuses it exactly
      when some text is not UTF-8. */
  lemma {:induction false} FrameReadBack(sh: Shape, f: Fields, x: seq<byte>, checked: bool)
    requires FieldsFit(sh, f) && |EncFrame(sh, f) + x| <= MAX_LEN
    ensures ReadFrame(sh, EncFrame(sh, f) + x, checked) == Checked(checked ==> FieldsTextOk(sh, f), f, |EncFrame(sh, f)|)
    ensures FrameSafe(sh, EncFrame(sh, f) + x, checked)
  {
    hide ReadFrame, DecFrame, FrameSafe, EncFrame, FieldsTextOk, Fits;
    FrameRoundTrip(sh, f, x, checked);
    FrameAgrees(sh, EncFrame(sh, f) + x, checked);
  }

  // ---- more bytes behind what was read ----

  lemma {:induction false} WrapsExtends(s: seq<byte>, x: seq<byte>, i: nat)
    requires i <= |s| && Wraps(s, i)
    ensures Wraps(s + x, i) && DecodeVarint((s + x)[i..]) == DecodeVarint(s[i..])
  {
    hide DecodeVarint;
    assert (s + x)[i..] == s[i..] + x;
    VarintExtends(s[i..], x);
  }

  lemma {:induction false} PrimAtExtends(p: Prim, s: seq<byte>, x: seq<byte>, i: nat, checked: bool)
    requires i <= |s| && PrimAt(p, s, i, checked).Parsed? && (IsRaw(p) ==> !Wraps(s, i))
    ensures PrimAt(p, s + x, i, checked) == PrimAt(p, s, i, checked) && (IsRaw(p) ==> !Wraps(s + x, i))
  {
    hide DecodeVarint, ValidUtf8;
    assert (s + x)[i..] == s[i..] + x;
    PrimExtends(p, s[i..], x, checked);
    if IsRaw(p) { VarintExtends(s[i..], x); }
  }

  lemma {:induction false} FieldsAtExtend(ps: seq<Prim>, s: seq<byte>, x: seq<byte>, i: nat, checked: bool, k: nat)
    requires i <= |s| && k <= |ps| && FieldsAt(ps, s, i, checked, k).Parsed? && FieldsSafe(ps, s, i, checked, k)
    ensures FieldsAt(ps, s + x, i, checked, k) == FieldsAt(ps, s, i, checked, k) && FieldsSafe(ps, s + x, i, checked, k)
    decreases k
  {
    hide PrimAt, Wraps;
    if k > 0 {
      FieldsAtExtend(ps, s, x, i, checked, k - 1);
      PrimAtExtends(ps[k - 1], s, x, FieldsAt(ps, s, i, checked, k - 1).used, checked);
    }
  }

  lemma {:induction false} RowsAtExtend(cols: seq<Prim>, s: seq<byte>, x: seq<byte>, i: nat, checked: bool, k: nat)
    requires i <= |s| && RowsAt(cols, s, i, checked, k).Parsed? && RowsSafe(cols, s, i, checked, k)
    ensures RowsAt(cols, s + x, i, checked, k) == RowsAt(cols, s, i, checked, k) && RowsSafe(cols, s + x, i, checked, k)
    decreases k
  {
    hide FieldsAt, FieldsSafe;
    if k > 0 {
      RowsAtExtend(cols, s, x, i, checked, k - 1);
      FieldsAtExtend(cols, s, x, RowsAt(cols, s, i, checked, k - 1).used, checked, |cols|);
    }
  }

  lemma {:induction false} SafeExtends(sh: Shape, s: seq<byte>, x: seq<byte>, checked: bool)
    requires ReadFrame(sh, s, checked).Parsed? && FrameSafe(sh, s, checked)
    ensures ReadFrame(sh, s + x, checked) == ReadFrame(sh, s, checked) && FrameSafe(sh, s + x, checked)
  {
    hide FieldsAt, FieldsSafe, RowsAt, RowsSafe;
    FieldsAtExtend(sh.head, s, x, 0, checked, |sh.head|);
    var h := FieldsAt(sh.head, s, 0, checked, |sh.head|);
    RowsAtExtend(sh.cols, s, x, h.used, checked, Count(sh, h.value));
    FieldsAtExtend(sh.tail, s, x, RowsAt(sh.cols, s, h.used, checked, Count(sh, h.value)).used, checked, |sh.tail|);
  }

  /** A length that wrapped took all bytes that were left, so more bytes change what was read. */
  lemma {:induction false} FieldsTold(ps: seq<Prim>, s: seq<byte>, x: seq<byte>, i: nat, checked: bool, k: nat)
    requires i <= |s| && k <= |ps| && x != [] && FieldsAt(ps, s, i, checked, k).Parsed?
        && FieldsAt(ps, s + x, i, checked, k).Parsed?
    requires FieldsAt(ps, s + x, i, checked, k).value == FieldsAt(ps, s, i, checked, k).value
    ensures FieldsSafe(ps, s, i, checked, k)
    decreases k
  {
    hide PrimAt, Wraps;
    if k > 0 {
      var a, b := FieldsAt(ps, s, i, checked, k - 1), FieldsAt(ps, s + x, i, checked, k - 1);
      LastEqual(a.value, b.value, FieldsAt(ps, s, i, checked, k).value);
      FieldsTold(ps, s, x, i, checked, k - 1);
      FieldsAtExtend(ps, s, x, i, checked, k - 1);
      PrimTold(ps[k - 1], s, x, a.used, checked);
    }
  }

  lemma {:induction false} LastEqual<T>(a: seq<T>, b: seq<T>, c: seq<T>)
    requires |a| == |b| && |c| == |a| + 1 && a == c[..|a|] && b == c[..|b|]
    ensures a == b
  {
  }

  lemma {:induction false} PrimTold(p: Prim, s: seq<byte>, x: seq<byte>, i: nat, checked: bool)
    requires i <= |s| && x != [] && PrimAt(p, s, i, checked).Parsed? && PrimAt(p, s + x, i, checked).Parsed?
    requires PrimAt(p, s + x, i, checked).value == PrimAt(p, s, i, checked).value
    ensures IsRaw(p) ==> !Wraps(s, i)
  {
    hide DecodeVarint, ValidUtf8;
    if IsRaw(p) && Wraps(s, i) {
      WrapsExtends(s, x, i);
      VarintExtends(s[i..], x);
      LongerRest(s, x, i + DecodeVarint(s[i..]).used);
    }
  }

  lemma {:induction false} LongerRest(s: seq<byte>, x: seq<byte>, j: nat)
    requires j <= |s| && x != []
    ensures (s + x)[j..] != s[j..]
  {
    assert |(s + x)[j..]| != |s[j..]|;
  }

  lemma {:induction false} RowsTold(cols: seq<Prim>, s: seq<byte>, x: seq<byte>, i: nat, checked: bool, k: nat)
    requires i <= |s| && x != [] && RowsAt(cols, s, i, checked, k).Parsed? && RowsAt(cols, s + x, i, checked, k).Parsed?
    requires RowsAt(cols, s + x, i, checked, k).value == RowsAt(cols, s, i, checked, k).value
    ensures RowsSafe(cols, s, i, checked, k)
    decreases k
  {
    hide FieldsAt, FieldsSafe;
    if k > 0 {
      var a, b := RowsAt(cols, s, i, checked, k - 1), RowsAt(cols, s + x, i, checked, k - 1);
      LastEqual(a.value, b.value, RowsAt(cols, s, i, checked, k).value);
      RowsTold(cols, s, x, i, checked, k - 1);
      RowsAtExtend(cols, s, x, i, checked, k - 1);
      FieldsTold(cols, s, x, a.used, checked, |cols|);
    }
  }

  lemma {:induction false} FrameTold(sh: Shape, s: seq<byte>, x: seq<byte>, checked: bool)
    requires x != [] && ReadFrame(sh, s, checked).Parsed? && ReadFrame(sh, s + x, checked) == ReadFrame(sh, s, checked)
    ensures FrameSafe(sh, s, checked)
  {
    hide FieldsAt, FieldsSafe, RowsAt, RowsSafe;
    FieldsTold(sh.head, s, x, 0, checked, |sh.head|);
    FieldsAtExtend(sh.head, s, x, 0, checked, |sh.head|);
    var h := FieldsAt(sh.head, s, 0, checked, |sh.head|);
    RowsTold(sh.cols, s, x, h.used, checked, Count(sh, h.value));
    RowsAtExtend(sh.cols, s, x, h.used, checked, Count(sh, h.value));
    FieldsTold(sh.tail, s, x, RowsAt(sh.cols, s, h.used, checked, Count(sh, h.value)).used, checked, |sh.tail|);
  }

  /** A frame that was read stays the same when bytes are added iff none are, or no length wraps. */
  lemma {:induction false} ReadExtends(sh: Shape, s: seq<byte>, x: seq<byte>, checked: bool)
    requires ReadFrame(sh, s, checked).Parsed?
    ensures ReadFrame(sh, s + x, checked) == ReadFrame(sh, s, checked) <==> x == [] || FrameSafe(sh, s, checked)
  {
    hide ReadFrame, FrameSafe;
    if x == [] {
      assert s + x == s;
    } else {
      if FrameSafe(sh, s, checked) { SafeExtends(sh, s, x, checked); }
      if ReadFrame(sh, s + x, checked) == ReadFrame(sh, s, checked) { FrameTold(sh, s, x, checked); }
    }
  }

  // ---- prefixes ----

  lemma {:induction false} FieldsSafePrefix(ps: seq<Prim>, s: seq<byte>, x: seq<byte>, i: nat, checked: bool, k: nat)
    requires i <= |s| && k <= |ps| && FieldsSafe(ps, s + x, i, checked, k)
    ensures FieldsSafe(ps, s, i, checked, k)
    decreases k
  {
    hide PrimAt, Wraps;
    if k > 0 {
      FieldsSafePrefix(ps, s, x, i, checked, k - 1);
      var r := FieldsAt(ps, s, i, checked, k - 1);
      if r.Parsed? {
        FieldsAtExtend(ps, s, x, i, checked, k - 1);
        if Wraps(s, r.used) { WrapsExtends(s, x, r.used); }
      }
    }
  }

  lemma {:induction false} RowsSafePrefix(cols: seq<Prim>, s: seq<byte>, x: seq<byte>, i: nat, checked: bool, k: nat)
    requires i <= |s| && RowsSafe(cols, s + x, i, checked, k)
    ensures RowsSafe(cols, s, i, checked, k)
    decreases k
  {
    hide FieldsAt, FieldsSafe;
    if k > 0 {
      RowsSafePrefix(cols, s, x, i, checked, k - 1);
      var r := RowsAt(cols, s, i, checked, k - 1);
      if r.Parsed? {
        RowsAtExtend(cols, s, x, i, checked, k - 1);
        FieldsSafePrefix(cols, s, x, r.used, checked, |cols|);
      }
    }
  }

  lemma {:induction false} FrameSafePrefix(sh: Shape, s: seq<byte>, x: seq<byte>, checked: bool)
    requires FrameSafe(sh, s + x, checked)
    ensures FrameSafe(sh, s, checked)
  {
    hide FieldsAt, FieldsSafe, RowsAt, RowsSafe;
    FieldsSafePrefix(sh.head, s, x, 0, checked, |sh.head|);
    var h := FieldsAt(sh.head, s, 0, checked, |sh.head|);
    if h.Parsed? {
      FieldsAtExtend(sh.head, s, x, 0, checked, |sh.head|);
      RowsSafePrefix(sh.cols, s, x, h.used, checked, Count(sh, h.value));
      var r := RowsAt(sh.cols, s, h.used, checked, Count(sh, h.value));
      if r.Parsed? {
        RowsAtExtend(sh.cols, s, x, h.used, checked, Count(sh, h.value));
        FieldsSafePrefix(sh.tail, s, x, r.used, checked, |sh.tail|);
      }
    }
  }

  /** If a frame took all of `s` and no length wrapped, no strict prefix of `s` is a frame, and none
      makes the reader panic. */
  lemma {:induction false} ReadPrefixFree(sh: Shape, s: seq<byte>, k: nat, checked: bool)
    requires ReadFrame(sh, s, checked).Parsed? && ReadFrame(sh, s, checked).used == |s| && k < |s| <= MAX_LEN
    requires FrameSafe(sh, s, checked)
    ensures ReadFrame(sh, s[..k], checked).Failed? && FrameSafe(sh, s[..k], checked)
  {
    hide ReadFrame, FrameSafe;
    assert s[..k] + s[k..] == s;
    FrameSafePrefix(sh, s[..k], s[k..], checked);
    if ReadFrame(sh, s[..k], checked).Parsed? {
      SafeExtends(sh, s[..k], s[k..], checked);
      assert false;
    }
  }
}
