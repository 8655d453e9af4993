/** The field writer `W` and the field reader `R`. The Rust and the C++ readers differ in two points:
    the Rust reader refuses a string that is not UTF-8, and it panics at a slice that ends before
    it starts. */
module WireIO {
  import opened Bytes
  import opened Bits
  import opened Varint
  import opened Utf8
  import opened Wire
  import opened WireReader

  type Str = seq<byte>

  datatype Result<+T> = Ok(value: T) | Err(error: WireError) {
    predicate IsFailure() { Err? }
    function PropagateFailure<U>(): Result<U>
      requires Err?
    {
      Err(error)
    }
    function Extract(): T
      requires Ok?
    {
      value
    }
  }

  const HEADER_COLS: seq<Prim> := [Text, Text]

  /** Header pairs, in the order a traversal of the map visits them. */
  function HeaderRows(order: seq<(Str, Str)>): (rows: seq<seq<Val>>)
    ensures |rows| == |order| && RowsSized(HEADER_COLS, rows)
    ensures forall i :: 0 <= i < |order| ==> rows[i] == [Raw(order[i].0), Raw(order[i].1)]
  {
    if order == [] then []
    else
      var k := |order| - 1;
      HeaderRows(order[..k]) + [[Raw(order[k].0), Raw(order[k].1)]]
  }

  /** Inserting the rows into a map one by one: a repeated key keeps its last value. */
  function MapOf(rows: seq<seq<Val>>, k: nat): map<Str, Str>
    requires RowsSized(HEADER_COLS, rows) && k <= |rows|
  {
    if k == 0 then map[] else MapOf(rows, k - 1)[B(rows[k - 1][0]) := B(rows[k - 1][1])]
  }

  /** `order` is a traversal of `h`: every entry once, in any order. */
  predicate Traverses(order: seq<(Str, Str)>, h: map<Str, Str>) {
    && (forall i, j :: 0 <= i < j < |order| ==> order[i].0 != order[j].0)
    && (forall i :: 0 <= i < |order| ==> order[i].0 in h && h[order[i].0] == order[i].1)
    && (forall k :: k in h ==> (k, h[k]) in order)
    && |order| == |h|
  }

  class W {
    var buf: seq<byte>

    constructor ()
      ensures buf == []
    {
      buf := [];
    }

    method U8(v: nat)
      requires v < 256
      modifies this
      ensures buf == old(buf) + EncPrim(Prim.U8, Num(v))
    {
      buf := buf + [v];
    }

    method U16(v: u16)
      modifies this
      ensures buf == old(buf) + EncPrim(Prim.U16, Num(v))
    {
      buf := buf + [v % 256, v / 256];
    }

    method Varint(value: u64)
      modifies this
      ensures buf == old(buf) + EncPrim(Leb64, Num(value))
    {
      hide Or;
      var v: nat := value;
      while v >= 0x80
        invariant buf + Leb(v) == old(buf) + Leb(value)
      {
        LebStep(v);
        var b: byte := Or(v % 256, 0x80);
        Regroup(buf, [b], Leb(v / 128));
        buf := buf + [b];
        v := v / 128;
      }
      buf := buf + [v];
    }

    method Str(s: Str)
      requires |s| < U64
      modifies this
      ensures buf == old(buf) + EncPrim(Text, Raw(s))
    {
      Varint(|s|);
      buf := buf + s;
    }

    method Bytes(s: Str)
      requires |s| < U64
      modifies this
      ensures buf == old(buf) + EncPrim(Blob, Raw(s))
    {
      Varint(|s|);
      buf := buf + s;
    }

    /** The count is cast to 16 bits; all entries are written. */
    method Headers(order: seq<(Str, Str)>)
      requires forall i :: 0 <= i < |order| ==> |order[i].0| < U64 && |order[i].1| < U64
      modifies this
      ensures buf == old(buf) + EncPrim(Prim.U16, Num(|order| % 0x1_0000)) + EncRows(HEADER_COLS, HeaderRows(order), |order|)
    {
      hide EncPrim, EncTo;
      U16(|order| % 0x1_0000);
      ghost var b := buf;
      ghost var rows := HeaderRows(order);
      for i := 0 to |order|
        invariant buf == b + EncRows(HEADER_COLS, rows, i)
      {
        HeaderRow(order[i].0, order[i].1);
        Str(order[i].0);
        Str(order[i].1);
      }
    }
  }

  lemma {:induction false} HeaderRow(k: Str, v: Str)
    ensures EncTo(HEADER_COLS, [Raw(k), Raw(v)], 2) == EncPrim(Text, Raw(k)) + EncPrim(Text, Raw(v))
  {
    hide EncPrim;
    assert EncTo(HEADER_COLS, [Raw(k), Raw(v)], 1) == EncPrim(Text, Raw(k));
  }

  /** What reading a number returns and how far it moves, against the meaning of the field. */
  predicate ReadsNum(r: Result<nat>, p: Parsed<Val>, to: nat) {
    match p
    case Parsed(v, n) => r == Ok(N(v)) && to == n
    case Failed(e) => r == Err(e)
  }

  predicate ReadsRaw(r: Result<Str>, p: Parsed<Val>, to: nat) {
    match p
    case Parsed(v, n) => r == Ok(B(v)) && to == n
    case Failed(e) => r == Err(e)
  }

  class R {
    const d: seq<byte>
    const checked: bool
    var i: nat

    ghost predicate Valid()
      reads this
    {
      i <= |d| <= MAX_LEN
    }

    constructor (d: seq<byte>, checked: bool)
      requires |d| <= MAX_LEN
      ensures Valid() && this.d == d && this.checked == checked && i == 0
    {
      this.d, this.checked, i := d, checked, 0;
    }

    /** The test for truncation, on a machine word. */
    predicate Need(n: nat)
      reads this
    {
      (i + n) % U64 <= |d|
    }

    method U8() returns (r: Result<nat>)
      requires Valid()
      modifies this
      ensures Valid() && ReadsNum(r, PrimAt(Prim.U8, d, old(i), checked), i)
    {
      if !Need(1) { return Err(Truncated); }
      r := Ok(d[i]);
      i := i + 1;
    }

    method U16() returns (r: Result<nat>)
      requires Valid()
      modifies this
      ensures Valid() && ReadsNum(r, PrimAt(Prim.U16, d, old(i), checked), i)
      ensures r.Ok? ==> r.value < 0x1_0000
    {
      if !Need(2) { return Err(Truncated); }
      r := Ok(Le16(d[i], d[i + 1]));
      i := i + 2;
    }

    method Varint() returns (r: Result<nat>)
      requires Valid()
      modifies this
      ensures Valid() && match DecodeVarint(d[old(i)..])
        case Parsed(v, n) => r == Ok(v) && i == old(i) + n
        case Failed(e) => r == Err(e)
      ensures ReadsNum(r, PrimAt(Leb64, d, old(i), checked), i)
    {
      hide Or, Shl, DecodeVarint, Scanned;
      ghost var i0 := i;
      ghost var s := d[i..];
      ScanStart(s);
      var v: nat, shift: nat := 0, 0;
      while true
        invariant i0 <= i <= |d| && shift == 7 * (i - i0) && shift <= 63
        invariant Scanned(s, i - i0, v)
        decreases 63 - shift
      {
        if !Need(1) {
          ScanEnd(s, v);
          return Err(Truncated);
        }
        var b := d[i];
        ScanStep(s, i - i0, v, b);
        i := i + 1;
        v := Or(v, Shl(b % 128, shift) % U64);
        if b < 128 { return Ok(v); }
        shift := shift + 7;
        if shift > 63 { return Err(VarintOverflow); }
      }
    }

    /** The Rust half slices and panics, the C++ half takes what is there (`substr`) and adds the
        length to its index, if that wraps. */
    method Str() returns (r: Result<Str>)
      requires Valid()
      modifies this
      ensures Valid() && ReadsRaw(r, PrimAt(Text, d, old(i), checked), i)
    {
      hide DecodeVarint;
      VarintIs(d[i..]);
      var n :- Varint();
      if !Need(n) { return Err(Truncated); }
      var end := (i + n) % U64;
      if checked && end < i { return Err(Panicked); }
      var s := if i + n <= |d| then d[i..i + n] else d[i..];
      assert i + n <= |d| ==> d[old(i)..][i - old(i)..i - old(i) + n] == s;
      if checked && !ValidUtf8(s) { return Err(BadUtf8); }
      r := Ok(s);
      i := end;
    }

    method Bytes() returns (r: Result<Str>)
      requires Valid()
      modifies this
      ensures Valid() && ReadsRaw(r, PrimAt(Blob, d, old(i), checked), i)
    {
      hide DecodeVarint;
      VarintIs(d[i..]);
      var n :- Varint();
      if !Need(n) { return Err(Truncated); }
      var end := (i + n) % U64;
      if checked && end < i { return Err(Panicked); }
      var s := if i + n <= |d| then d[i..i + n] else d[i..];
      assert i + n <= |d| ==> d[old(i)..][i - old(i)..i - old(i) + n] == s;
      r := Ok(s);
      i := end;
    }
  }

  lemma {:induction false} VarintIs(s: seq<byte>)
    ensures var r := DecodeVarint(s); r.Parsed? ==> r.value < U64 && 0 < r.used <= |s|
  {
    if DecodeVarint(s).Parsed? { VarintExtends(s, []); }
  }
}
