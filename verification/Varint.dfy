/** Unsigned LEB128 (DWARF 5, section 7.6), the variable-length integer of binary frames. */
module Varint {
  import opened Bytes
  import opened Bits

  /** `Panicked` is no error value: the Rust reader's thread unwinds. */
  datatype WireError = Truncated | VarintOverflow | BadUtf8 | UnknownFrame | Panicked

  /** What reading a field leaves behind: its value and how many bytes it took. */
  datatype Parsed<+T> = Parsed(value: T, used: nat) | Failed(error: WireError)

  /** Base-128 digits, least significant first, all but the last with the high bit set. */
  function Leb(v: nat): (s: seq<byte>)
    ensures |s| > 0
  {
    if v < 128 then [v] else [v % 128 + 128] + Leb(v / 128)
  }

  /** The number whose base-128 digits are the low seven bits of each byte. */
  function Base128(s: seq<byte>): nat {
    if s == [] then 0 else s[0] % 128 + 128 * Base128(s[1..])
  }

  /** Index of the first byte without continuation bit, |s| if there is none. */
  function Stop(s: seq<byte>): (k: nat)
    ensures k <= |s|
    ensures k < |s| ==> s[k] < 128

  {
    if s == [] || s[0] < 128 then 0 else 1 + Stop(s[1..])
  }

  /** The meaning of a varint at the start of `s`: at most ten bytes are looked at, and the
      digits are summed modulo 2^64. */
  function DecodeVarint(s: seq<byte>): Parsed<nat> {
    var k := Stop(s);
    if k < |s| && k < 10 then Parsed(Base128(s[..k + 1]) % U64, k + 1)
    else if |s| < 10 then Failed(Truncated)
    else Failed(VarintOverflow)
  }

  lemma {:induction false} BaseSnoc(s: seq<byte>, b: byte)
    ensures Base128(s + [b]) == Base128(s) + b % 128 * Pow2(7 * |s|)
  {
    if s == [] {
      assert Base128([b]) == b % 128 + 128 * Base128([]);
    } else {
      var p := Pow2(7 * (|s| - 1));
      BaseSnoc(s[1..], b);
      assert (s + [b])[1..] == s[1..] + [b];
      Pow2Add(7, 7 * (|s| - 1));
      assert Pow2(7) == 128;
      assert b % 128 * (128 * p) == 128 * (b % 128 * p);
    }
  }

  lemma {:induction false} BaseBound(s: seq<byte>)
    ensures Base128(s) < Pow2(7 * |s|)
  {
    if s != [] {
      BaseBound(s[1..]);
      Pow2Add(7, 7 * (|s| - 1));
      assert Pow2(7) == 128;
    }
  }

  lemma {:induction false} BaseOfLeb(v: nat)
    ensures Base128(Leb(v)) == v
  {
    if v < 128 {
      assert Base128([v]) == v % 128 + 128 * Base128([]);
    } else {
      BaseOfLeb(v / 128);
      assert Leb(v)[1..] == Leb(v / 128);
    }
  }

  lemma {:induction false} StopOfLeb(v: nat, x: seq<byte>)
    ensures Stop(Leb(v) + x) == |Leb(v)| - 1
  {
    if v >= 128 {
      StopOfLeb(v / 128, x);
      assert (Leb(v) + x)[1..] == Leb(v / 128) + x;
    }
  }

  /** `Leb` writes no more digits than the value has. */
  lemma {:induction false} LebShort(v: nat, k: nat)
    requires k > 0 && v < Pow2(7 * k)
    ensures |Leb(v)| <= k
  {
    if v >= 128 {
      assert Pow2(7) == 128;
      if k > 1 {
        Pow2Add(7, 7 * (k - 1));
        LebShort(v / 128, k - 1);
      }
    }
  }

  /** Decoding inverts encoding for every 64-bit value, whatever follows. */
  lemma {:induction false} VarintRoundTrip(v: nat, x: seq<byte>)
    requires v < U64
    ensures |Leb(v)| <= 10
    ensures DecodeVarint(Leb(v) + x) == Parsed(v, |Leb(v)|)
  {
    WordSizes();
    LebShort(v, 10);
    StopOfLeb(v, x);
    BaseOfLeb(v);
    assert (Leb(v) + x)[..|Leb(v)|] == Leb(v);
  }

  /** No byte string that decodes to `v` is shorter than the encoder's. */
  lemma {:induction false} VarintMinimal(s: seq<byte>)
    requires DecodeVarint(s).Parsed?
    ensures |Leb(DecodeVarint(s).value)| <= DecodeVarint(s).used <= 10
  {
    var n := DecodeVarint(s).used;
    BaseBound(s[..n]);
    LebShort(DecodeVarint(s).value, n);
  }

  /** A varint that was read stays the same when more bytes follow. */
  lemma {:induction false} VarintExtends(s: seq<byte>, x: seq<byte>)
    requires DecodeVarint(s).Parsed?
    ensures DecodeVarint(s + x) == DecodeVarint(s)
    ensures DecodeVarint(s).value < U64 && 0 < DecodeVarint(s).used <= |s|
  {
    var k := Stop(s);
    StopExtends(s, x);
    assert (s + x)[..k + 1] == s[..k + 1];
  }

  lemma {:induction false} StopExtends(s: seq<byte>, x: seq<byte>)
    requires Stop(s) < |s|
    ensures Stop(s + x) == Stop(s)
  {
    if s[0] >= 128 {
      StopExtends(s[1..], x);
      assert (s + x)[1..] == s[1..] + x;
    }
  }

  /** One round of the writing loop. */
  lemma {:induction false} LebStep(v: nat)
    requires v >= 128
    ensures Or(v % 256, 0x80) < 256 && Leb(v) == [Or(v % 256, 0x80)] + Leb(v / 128)
  {
    hide Or;
    OrHighBit(v % 256);
    assert v % 256 % 128 == v % 128;
  }

  lemma {:induction false} StopIs(s: seq<byte>, k: nat)
    requires k <= |s| && forall j :: 0 <= j < k ==> s[j] >= 128
    ensures Stop(s) >= k
    ensures k < |s| && s[k] < 128 ==> Stop(s) == k
  {
    if k > 0 { StopIs(s[1..], k - 1); }
  }

  /** What a reading loop that has passed `k` continuation bytes may conclude. */
  lemma {:induction false} DecodeAfter(s: seq<byte>, k: nat)
    requires k <= |s| && forall j :: 0 <= j < k ==> s[j] >= 128
    ensures k == |s| < 10 ==> DecodeVarint(s) == Failed(Truncated)
    ensures k >= 10 ==> DecodeVarint(s) == Failed(VarintOverflow)
    ensures k < |s| && k < 10 && s[k] < 128 ==> DecodeVarint(s) == Parsed(Base128(s[..k + 1]) % U64, k + 1)
  {
    StopIs(s, k);
  }

  /** One round of the reading loop: `|`-ing in the next digit adds it, modulo 2^64. */
  lemma {:induction false} VarintDigit(s: seq<byte>, b: byte)
    requires |s| <= 9
    ensures Or(Base128(s), Shl(b % 128, 7 * |s|) % U64) == Base128(s + [b]) % U64
    ensures |s| < 9 ==> Base128(s + [b]) < U64
  {
    hide Or, Shl, Base128, Pow2;
    var k := 7 * |s|;
    BaseBound(s);
    BaseBound(s + [b]);
    BaseSnoc(s, b);
    ShlIsTimes(b % 128, k);
    if |s| < 9 {
      LowDigit(Base128(s), b % 128, k, Base128(s + [b]));
    } else {
      TopDigit(Base128(s), b % 128);
    }
  }

  lemma {:induction false} LowDigit(v: nat, d: nat, k: nat, w: nat)
    requires k + 7 <= 63 && v < Pow2(k) && w == v + d * Pow2(k) < Pow2(k + 7)
    ensures w < U64 && Or(v, d * Pow2(k) % U64) == w % U64
  {
    hide Or, Pow2;
    var x := d * Pow2(k);
    assert w < U64 by {
      WordSizes();
      PowMonotone(k + 7, 63);
    }
    assert x % U64 == x && w % U64 == w;
    OrDisjoint(v, d, k);
  }

  /** Of the tenth digit only the lowest bit is inside the word. */
  lemma {:induction false} TopDigit(v: nat, d: nat)
    requires v < Pow2(63)
    ensures Or(v, d * Pow2(63) % U64) == (v + d * Pow2(63)) % U64
  {
    hide Or, Pow2;
    WordSizes();
    var p, q := Pow2(63), d / 2;
    assert d * p == q * U64 + d % 2 * p;
    assert (q * U64 + d % 2 * p) % U64 == d % 2 * p;
    assert (v + (q * U64 + d % 2 * p)) % U64 == v + d % 2 * p;
    OrDisjoint(v, d % 2, 63);
  }

  lemma {:induction false} PowMonotone(j: nat, k: nat)
    requires j <= k
    ensures Pow2(j) <= Pow2(k)
  {
    if j > 0 { PowMonotone(j - 1, k - 1); }
  }

  /** Where a reading loop stands after `k` continuation bytes. */
  ghost predicate Scanned(s: seq<byte>, k: nat, v: nat) {
    k <= |s| && k <= 9 && (forall j :: 0 <= j < k ==> s[j] >= 128) && v == Base128(s[..k])
  }

  lemma {:induction false} ScanStart(s: seq<byte>)
    ensures Scanned(s, 0, 0)
  {
    assert s[..0] == [];
  }

  lemma {:induction false} ScanStep(s: seq<byte>, k: nat, v: nat, b: byte)
    requires Scanned(s, k, v) && k < |s| && b == s[k]
    ensures var w := Or(v, Shl(b % 128, 7 * k) % U64);
      if b < 128 then DecodeVarint(s) == Parsed(w, k + 1)
      else if k == 9 then DecodeVarint(s) == Failed(VarintOverflow)
      else Scanned(s, k + 1, w)
  {
    hide Or, Shl, Base128, DecodeVarint, Stop;
    DecodeAfter(s, k);
    VarintDigit(s[..k], b);
    assert s[..k + 1] == s[..k] + [b];
    if b >= 128 { DecodeAfter(s, k + 1); }
  }

  lemma {:induction false} ScanEnd(s: seq<byte>, v: nat)
    requires Scanned(s, |s|, v)
    ensures DecodeVarint(s) == Failed(Truncated)
  {
    DecodeAfter(s, |s|);
  }
}
