/** The field layouts of binary v3 frames, and the codec theorems all frames inherit.

    A frame is a fixed list of fields (the first is the type byte), then rows of
    fields counted by the last head field, then a fixed list again. */
module Wire {
  import opened Bytes
  import opened Bits
  import opened Varint
  import opened Utf8

  type u16 = n: nat | n < 0x1_0000
  type u64 = n: nat | n < 0x1_0000_0000_0000_0000

  /** Field kinds. `Text` is a length-prefixed string that a checking reader wants in UTF-8. */
  datatype Prim = U8 | U16 | Leb64 | Blob | Text

  datatype Val = Num(n: nat) | Raw(b: seq<byte>)

  function N(v: Val): nat { if v.Num? then v.n else 0 }
  function B(v: Val): seq<byte> { if v.Raw? then v.b else [] }

  /** The value survives the casts of its field kind. */
  predicate Fits(p: Prim, v: Val) {
    match p
    case U8 => v.Num? && v.n < 256
    case U16 => v.Num? && v.n < 0x1_0000
    case Leb64 => v.Num? && v.n < U64
    case _ => v.Raw? && |v.b| < U64
  }

  function EncPrim(p: Prim, v: Val): seq<byte> {
    match p
    case U8 => [N(v) % 256]
    case U16 => [N(v) % 256, N(v) / 256 % 256]
    case Leb64 => Leb(N(v))
    case _ => Leb(|B(v)|) + B(v)
  }

  function Le16(lo: int, hi: int): int { lo + 256 * hi }

  function DecPrim(p: Prim, s: seq<byte>, checked: bool): (r: Parsed<Val>)
    ensures r.Parsed? ==> 0 < r.used <= |s| && (if p == Text || p == Blob then r.value.Raw? else r.value.Num?)
  {
    match p
    case U8 => if |s| < 1 then Failed(Truncated) else Parsed(Num(s[0]), 1)
    case U16 => if |s| < 2 then Failed(Truncated) else Parsed(Num(Le16(s[0], s[1])), 2)
    case Leb64 =>
      var r := DecodeVarint(s);
      if r.Parsed? then Parsed(Num(r.value), r.used) else Failed(r.error)
    case _ =>
      var r := DecodeVarint(s);
      if r.Failed? then Failed(r.error)
      else if r.used + r.value > |s| then Failed(Truncated)
      else
        var b := s[r.used..r.used + r.value];
        if p == Text && checked && !ValidUtf8(b) then Failed(BadUtf8)
        else Parsed(Raw(b), r.used + r.value)
  }

  predicate PrimTextOk(p: Prim, v: Val) {
    p == Text ==> ValidUtf8(B(v))
  }

  // ---- lists of fields ----

  predicate AllFit(ps: seq<Prim>, vs: seq<Val>) {
    |vs| == |ps| && forall j :: 0 <= j < |ps| ==> Fits(ps[j], vs[j])
  }

  predicate TextOk(ps: seq<Prim>, vs: seq<Val>, k: nat)
    requires |vs| == |ps| && k <= |ps|
    decreases k
  {
    k == 0 || (TextOk(ps, vs, k - 1) && PrimTextOk(ps[k - 1], vs[k - 1]))
  }

  /** The first `k` fields, encoded. */
  function EncTo(ps: seq<Prim>, vs: seq<Val>, k: nat): seq<byte>
    requires |vs| == |ps| && k <= |ps|
    decreases k
  {
    if k == 0 then [] else EncTo(ps, vs, k - 1) + EncPrim(ps[k - 1], vs[k - 1])
  }

  /** Reads the first `k` fields of `s`. */
  function DecTo(ps: seq<Prim>, s: seq<byte>, checked: bool, k: nat): (r: Parsed<seq<Val>>)
    requires k <= |ps|
    ensures r.Parsed? ==> r.used <= |s| && |r.value| == k
    decreases k
  {
    if k == 0 then Parsed([], 0)
    else match DecTo(ps, s, checked, k - 1)
      case Failed(e) => Failed(e)
      case Parsed(vs, n) =>
        match DecPrim(ps[k - 1], s[n..], checked)
        case Failed(e) => Failed(e)
        case Parsed(v, m) => Parsed(vs + [v], n + m)
  }

  // ---- counted rows of fields ----

  predicate RowsSized(cols: seq<Prim>, rows: seq<seq<Val>>) {
    forall j :: 0 <= j < |rows| ==> |rows[j]| == |cols|
  }

  predicate RowsFit(cols: seq<Prim>, rows: seq<seq<Val>>) {
    forall j :: 0 <= j < |rows| ==> AllFit(cols, rows[j])
  }

  function EncRows(cols: seq<Prim>, rows: seq<seq<Val>>, k: nat): seq<byte>
    requires RowsSized(cols, rows) && k <= |rows|
  {
    if k == 0 then [] else EncRows(cols, rows, k - 1) + EncTo(cols, rows[k - 1], |cols|)
  }

  function DecRows(cols: seq<Prim>, s: seq<byte>, checked: bool, k: nat): (r: Parsed<seq<seq<Val>>>)
    ensures r.Parsed? ==> r.used <= |s| && |r.value| == k && RowsSized(cols, r.value)
  {
    if k == 0 then Parsed([], 0)
    else match DecRows(cols, s, checked, k - 1)
      case Failed(e) => Failed(e)
      case Parsed(rows, n) =>
        match DecTo(cols, s[n..], checked, |cols|)
        case Failed(e) => Failed(e)
        case Parsed(row, m) => Parsed(rows + [row], n + m)
  }

  predicate RowsTextOk(cols: seq<Prim>, rows: seq<seq<Val>>, k: nat)
    requires RowsSized(cols, rows) && k <= |rows|
  {
    k == 0 || (RowsTextOk(cols, rows, k - 1) && TextOk(cols, rows[k - 1], |cols|))
  }

  // ---- whole frames ----

  /** `cols == []` means that the frame has no rows. */
  datatype Shape = Shape(head: seq<Prim>, cols: seq<Prim>, tail: seq<Prim>)

  datatype Fields = Fields(head: seq<Val>, rows: seq<seq<Val>>, tail: seq<Val>)

  predicate Sized(sh: Shape, f: Fields) {
    |f.head| == |sh.head| && RowsSized(sh.cols, f.rows) && |f.tail| == |sh.tail|
  }

  /** How many rows the head announces. */
  function Count(sh: Shape, head: seq<Val>): nat {
    if sh.cols == [] || head == [] then 0 else N(head[|head| - 1])
  }

  /** Every field survives its casts, and the head announces the rows that follow. */
  predicate FieldsFit(sh: Shape, f: Fields) {
    AllFit(sh.head, f.head) && RowsFit(sh.cols, f.rows) && AllFit(sh.tail, f.tail) && Count(sh, f.head) == |f.rows|
  }

  predicate FieldsTextOk(sh: Shape, f: Fields)
    requires Sized(sh, f)
  {
    TextOk(sh.head, f.head, |sh.head|) && RowsTextOk(sh.cols, f.rows, |f.rows|) && TextOk(sh.tail, f.tail, |sh.tail|)
  }

  function EncFrame(sh: Shape, f: Fields): seq<byte>
    requires Sized(sh, f)
  {
    EncTo(sh.head, f.head, |sh.head|) + EncRows(sh.cols, f.rows, |f.rows|) + EncTo(sh.tail, f.tail, |sh.tail|)
  }

  function DecFrame(sh: Shape, s: seq<byte>, checked: bool): (r: Parsed<Fields>)
    ensures r.Parsed? ==> r.used <= |s| && Sized(sh, r.value) && |r.value.rows| == Count(sh, r.value.head)
  {
    match DecTo(sh.head, s, checked, |sh.head|)
    case Failed(e) => Failed(e)
    case Parsed(head, n) =>
      match DecRows(sh.cols, s[n..], checked, Count(sh, head))
      case Failed(e) => Failed(e)
      case Parsed(rows, m) =>
        match DecTo(sh.tail, s[n + m..], checked, |sh.tail|)
        case Failed(e) => Failed(e)
        case Parsed(tail, q) => Parsed(Fields(head, rows, tail), n + m + q)
  }

  // ---- decoding inverts encoding ----

  function Checked<T>(ok: bool, v: T, used: nat): Parsed<T> {
    if ok then Parsed(v, used) else Failed(BadUtf8)
  }

  lemma {:induction false} PrimRoundTrip(p: Prim, v: Val, x: seq<byte>, checked: bool)
    requires Fits(p, v)
    ensures DecPrim(p, EncPrim(p, v) + x, checked) == Checked(checked ==> PrimTextOk(p, v), v, |EncPrim(p, v)|)
  {
    hide DecodeVarint, Leb, ValidUtf8, Pow2;
    match p
    case U8 =>
    case U16 => assert Le16(v.n % 256, v.n / 256) == v.n;
    case Leb64 => VarintRoundTrip(v.n, x);
    case _ => RawRoundTrip(p, v.b, x, checked);
  }

  lemma {:induction false} RawRoundTrip(p: Prim, b: seq<byte>, x: seq<byte>, checked: bool)
    requires (p == Text || p == Blob) && |b| < U64
    ensures DecPrim(p, EncPrim(p, Raw(b)) + x, checked)
         == Checked(checked ==> PrimTextOk(p, Raw(b)), Raw(b), |EncPrim(p, Raw(b))|)
  {
    hide DecodeVarint, Leb, ValidUtf8, Pow2;
    var n := Leb(|b|);
    var s := n + b + x;
    VarintRoundTrip(|b|, b + x);
    assert s == n + (b + x);
    assert s[|n|..|n| + |b|] == b;
  }

  /** Dropping the first of three concatenated parts. */
  lemma {:induction false} Regroup(a: seq<byte>, b: seq<byte>, x: seq<byte>)
    ensures a + b + x == a + (b + x)
    ensures (a + (b + x))[|a|..] == b + x
  {
  }

  lemma {:induction false} FieldsRoundTrip(ps: seq<Prim>, vs: seq<Val>, x: seq<byte>, checked: bool, k: nat)
    requires AllFit(ps, vs) && k <= |ps|
    ensures DecTo(ps, EncTo(ps, vs, k) + x, checked, k)
         == Checked(checked ==> TextOk(ps, vs, k), vs[..k], |EncTo(ps, vs, k)|)
    decreases k
  {
    hide DecPrim, EncPrim, PrimTextOk;
    if k > 0 {
      var a, b := EncTo(ps, vs, k - 1), EncPrim(ps[k - 1], vs[k - 1]);
      FieldsRoundTrip(ps, vs, b + x, checked, k - 1);
      PrimRoundTrip(ps[k - 1], vs[k - 1], x, checked);
      Regroup(a, b, x);
      assert vs[..k] == vs[..k - 1] + [vs[k - 1]];
    }
  }

  lemma {:induction false} RowsRoundTrip(cols: seq<Prim>, rows: seq<seq<Val>>, x: seq<byte>, checked: bool, k: nat)
    requires RowsFit(cols, rows) && k <= |rows|
    ensures DecRows(cols, EncRows(cols, rows, k) + x, checked, k)
         == Checked(checked ==> RowsTextOk(cols, rows, k), rows[..k], |EncRows(cols, rows, k)|)
    decreases k
  {
    hide DecTo, EncTo, TextOk, Fits;
    if k > 0 {
      var a, b := EncRows(cols, rows, k - 1), EncTo(cols, rows[k - 1], |cols|);
      RowsRoundTrip(cols, rows, b + x, checked, k - 1);
      FieldsRoundTrip(cols, rows[k - 1], x, checked, |cols|);
      Regroup(a, b, x);
      assert rows[..k] == rows[..k - 1] + [rows[k - 1]];
      assert rows[k - 1][..|cols|] == rows[k - 1];
    }
  }

  /** Decoding an encoded frame, whatever bytes follow, gives the fields back; a checking reader
      refuses it exactly when some text is not UTF-8. */
  lemma {:induction false} FrameRoundTrip(sh: Shape, f: Fields, x: seq<byte>, checked: bool)
    requires FieldsFit(sh, f)
    ensures DecFrame(sh, EncFrame(sh, f) + x, checked)
         == Checked(checked ==> FieldsTextOk(sh, f), f, |EncFrame(sh, f)|)
  {
    hide DecTo, EncTo, TextOk, DecRows, EncRows, RowsTextOk, Fits;
    var a := EncTo(sh.head, f.head, |sh.head|);
    var b := EncRows(sh.cols, f.rows, |f.rows|);
    var c := EncTo(sh.tail, f.tail, |sh.tail|);
    var s := EncFrame(sh, f) + x;
    FieldsRoundTrip(sh.head, f.head, b + (c + x), checked, |sh.head|);
    RowsRoundTrip(sh.cols, f.rows, c + x, checked, |f.rows|);
    FieldsRoundTrip(sh.tail, f.tail, x, checked, |sh.tail|);
    assert s == a + (b + (c + x)) && s[|a|..] == b + (c + x) && s[|a| + |b|..] == c + x;
    assert f.head[..|sh.head|] == f.head && f.rows[..|f.rows|] == f.rows && f.tail[..|sh.tail|] == f.tail;
  }

  lemma {:induction false} PrimExtends(p: Prim, s: seq<byte>, x: seq<byte>, checked: bool)
    requires DecPrim(p, s, checked).Parsed?
    ensures DecPrim(p, s + x, checked) == DecPrim(p, s, checked)
  {
    hide DecodeVarint, ValidUtf8;
    match p
    case U8 =>
    case U16 =>
    case Leb64 => VarintExtends(s, x);
    case _ =>
      VarintExtends(s, x);
      var r := DecodeVarint(s);
      assert (s + x)[r.used..r.used + r.value] == s[r.used..r.used + r.value];
  }
}
