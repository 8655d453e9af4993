/** Base64 (RFC 4648, section 4) as the client writes and reads it. */
module Base64 {
  import opened Bytes
  import opened Bits

  const U32: nat := 0x1_0000_0000
  const PAD: byte := 61

  /** The alphabet. */
  function Sym(v: nat): (c: byte)
    requires v < 64
    ensures Val(c) == v
  {
    if v < 26 then 65 + v else if v < 52 then 71 + v else if v < 62 then v - 4 else if v == 62 then 43 else 47
  }

  /** The value of an alphabet character; -1 for any other. */
  function Val(c: byte): (v: int)
    ensures -1 <= v < 64
  {
    if 65 <= c <= 90 then c - 65
    else if 97 <= c <= 122 then c - 71
    else if 48 <= c <= 57 then c + 4
    else if c == 43 then 62
    else if c == 47 then 63
    else -1
  }

  /** Four characters for three bytes, most significant bits first. */
  function Quad(n: nat): (q: seq<byte>)
    ensures |q| == 4
  {
    [Sym(n / 262144 % 64), Sym(n / 4096 % 64), Sym(n / 64 % 64), Sym(n % 64)]
  }

  function Join(a: nat, b: nat, c: nat): nat { a * 65536 + b * 256 + c }

  /** The encoding of the bytes from `i` on. */
  function EncodeFrom(x: seq<byte>, i: nat): seq<byte>
    decreases |x| - i
  {
    if i + 3 <= |x| then Quad(Join(x[i], x[i + 1], x[i + 2])) + EncodeFrom(x, i + 3)
    else if i + 1 == |x| then Quad(Join(x[i], 0, 0))[..2] + [PAD, PAD]
    else if i + 2 == |x| then Quad(Join(x[i], x[i + 1], 0))[..3] + [PAD]
    else []
  }

  function Encode(x: seq<byte>): seq<byte> { EncodeFrom(x, 0) }

  /** Six more bits into a 32-bit accumulator that is never masked. */
  function Push(buf: nat, v: nat): nat { (buf * 64 + v) % U32 }

  /** The bytes the characters from `i` on yield, with `bits` unread bits at the bottom of `buf`. */
  function DecodeFrom(s: seq<byte>, i: nat, buf: nat, bits: nat): seq<byte>
    requires bits < 8
    decreases |s| - i
  {
    if i >= |s| then []
    else if Val(s[i]) < 0 then DecodeFrom(s, i + 1, buf, bits)
    else
      var b := Push(buf, Val(s[i]));
      if bits + 6 >= 8 then [b / Pow2(bits - 2) % 256] + DecodeFrom(s, i + 1, b, bits - 2)
      else DecodeFrom(s, i + 1, b, bits + 6)
  }

  function Decode(s: seq<byte>): seq<byte> { DecodeFrom(s, 0, 0, 0) }

  // ---- the loops ----

  lemma {:induction false} Joined(a: nat, b: nat, c: nat)
    requires a < 256 && b < 256 && c < 256
    ensures Or(c, Or(Shl(b, 8), Shl(a, 16))) == Join(a, b, c)
    ensures Shl(a, 16) == Join(a, 0, 0)
    ensures Or(Shl(b, 8), Shl(a, 16)) == Join(a, b, 0)
  {
    hide Or, Shl, Pow2;
    WordSizes();
    Pow2Add(8, 8);
    ShlIsTimes(b, 8);
    ShlIsTimes(a, 16);
    OrDisjoint(b * 256, a, 16);
    OrDisjoint(c, b + a * 256, 8);
    assert (b + a * 256) * 256 == b * 256 + a * 65536;
  }

  method EncodeBytes(x: seq<byte>) returns (out: seq<byte>)
    ensures out == Encode(x)
  {
    hide Or, Shl, Sym, Quad;
    out := [];
    var i := 0;
    while i + 3 <= |x|
      invariant i <= |x| && out + EncodeFrom(x, i) == Encode(x)
      decreases |x| - i
    {
      Joined(x[i], x[i + 1], x[i + 2]);
      var n := Or(x[i + 2], Or(Shl(x[i + 1], 8), Shl(x[i], 16)));
      var q := FourOf(n);
      assert out + (q + EncodeFrom(x, i + 3)) == out + q + EncodeFrom(x, i + 3);
      out := out + q;
      i := i + 3;
    }
    if i + 1 == |x| {
      Joined(x[i], 0, 0);
      var q := FourOf(Shl(x[i], 16));
      out := out + (q[..2] + [PAD, PAD]);
    } else if i + 2 == |x| {
      Joined(x[i], x[i + 1], 0);
      var q := FourOf(Or(Shl(x[i + 1], 8), Shl(x[i], 16)));
      out := out + (q[..3] + [PAD]);
    }
  }

  /** The characters for the four groups of six bits, `(n >> 18) & 63` and so on. */
  method FourOf(n: nat) returns (q: seq<byte>)
    ensures q == Quad(n)
  {
    q := [Sym(n / 262144 % 64), Sym(n / 4096 % 64), Sym(n / 64 % 64), Sym(n % 64)];
  }

  lemma {:induction false} ModWord(q: nat, t: nat)
    requires t < U32
    ensures (U32 * q + t) % U32 == t
  {
  }

  /** What a six-bit shift leaves of a word. */
  lemma {:induction false} ShiftSix(buf: nat, v: nat)
    requires v < 64
    ensures var k := buf % 0x400_0000; buf * 64 % U32 == k * 64 && Push(buf, v) == k * 64 + v
  {
    var q, k := buf / 0x400_0000, buf % 0x400_0000;
    assert buf == 0x400_0000 * q + k;
    ModWord(q, k * 64);
    ModWord(q, k * 64 + v);
  }

  lemma {:induction false} PushIs(buf: nat, v: nat)
    requires v < 64
    ensures Or(v, Shl(buf, 6) % U32) == Push(buf, v)
  {
    hide Or, Shl, Push, Pow2;
    ShlIsTimes(buf, 6);
    SixBits();
    ShiftSix(buf, v);
    OrDisjoint(v, buf % 0x400_0000, 6);
  }

  lemma {:induction false} SixBits()
    ensures Pow2(6) == 64
  {
  }

  method DecodeBytes(s: seq<byte>) returns (out: seq<byte>)
    ensures out == Decode(s)
  {
    hide Or, Shl, Pow2, Val;
    out := [];
    var buf: nat, bits: nat := 0, 0;
    assert [] + DecodeFrom(s, 0, 0, 0) == DecodeFrom(s, 0, 0, 0);
    for i := 0 to |s|
      invariant bits < 8 && out + DecodeFrom(s, i, buf, bits) == Decode(s)
    {
      var v := Val(s[i]);
      if v < 0 { continue; }
      PushIs(buf, v);
      buf := Or(v, Shl(buf, 6) % U32);
      bits := bits + 6;
      if bits >= 8 {
        bits := bits - 8;
        ghost var rest := DecodeFrom(s, i + 1, buf, bits);
        assert out + ([buf / Pow2(bits) % 256] + rest) == out + [buf / Pow2(bits) % 256] + rest;
        out := out + [buf / Pow2(bits) % 256];
      }
    }
    assert out + [] == out;
  }

  // ---- the length ----

  lemma {:induction false} EncodeLength(x: seq<byte>, i: nat)
    requires i <= |x|
    ensures |EncodeFrom(x, i)| == 4 * ((|x| - i + 2) / 3)
    decreases |x| - i
  {
    hide Quad;
    if i + 3 <= |x| {
      EncodeLength(x, i + 3);
      assert (|x| - (i + 3) + 2) / 3 == (|x| - i + 2) / 3 - 1;
    }
  }

  /** Four characters for every three bytes begun. */
  lemma {:induction false} LengthLaw(x: seq<byte>)
    ensures |Encode(x)| == 4 * ((|x| + 2) / 3)
  {
    EncodeLength(x, 0);
  }

  // ---- decoding ----

  /** The positions of a four-group: how many bits are unread. */
  predicate Unread(bits: nat) { bits == 0 || bits == 2 || bits == 4 || bits == 6 }

  function Low(buf: nat, bits: nat): nat
    requires Unread(bits)
  {
    if bits == 0 then 0 else if bits == 2 then buf % 4 else if bits == 4 then buf % 16 else buf % 64
  }

  // One character at each place of a four-group: what comes out, and what stays unread.

  lemma {:induction false} PushFirst(buf: nat, v: nat)
    requires v < 64
    ensures Push(buf, v) % 64 == v
  {
    ShiftSix(buf, v);
  }

  lemma {:induction false} DivFour(k: int, r: nat)
    requires r < 4
    ensures (4 * k + r) / 4 == k && (4 * k + r) % 4 == r
  {
  }

  lemma {:induction false} DivSixteen(k: int, r: nat)
    requires r < 16
    ensures (16 * k + r) / 16 == k && (16 * k + r) % 16 == r
  {
  }

  lemma {:induction false} DivSixtyFour(k: nat, r: nat)
    requires r < 64
    ensures (64 * k + r) / 64 == k && (64 * k + r) % 64 == r
  {
  }

  lemma {:induction false} ModByte(q: int, t: nat)
    requires t < 256
    ensures (256 * q + t) % 256 == t
  {
  }

  lemma {:induction false} SecondPlace(q: int, u: nat, v: nat)
    requires u < 64 && v < 64
    ensures (4096 * q + u * 64 + v) / 16 % 256 == u * 4 + v / 16 && (4096 * q + u * 64 + v) % 16 == v % 16
  {
    var h, l := v / 16, v % 16;
    assert v == 16 * h + l && h < 4;
    DivSixteen(256 * q + (u * 4 + h), l);
    assert 4096 * q + u * 64 + v == 16 * (256 * q + (u * 4 + h)) + l;
    ModByte(q, u * 4 + h);
  }

  lemma {:induction false} ThirdPlace(q: int, u: nat, v: nat)
    requires u < 16 && v < 64
    ensures (1024 * q + u * 64 + v) / 4 % 256 == u * 16 + v / 4 && (1024 * q + u * 64 + v) % 4 == v % 4
  {
    var h, l := v / 4, v % 4;
    assert v == 4 * h + l && h < 16;
    DivFour(256 * q + (u * 16 + h), l);
    assert 1024 * q + u * 64 + v == 4 * (256 * q + (u * 16 + h)) + l;
    ModByte(q, u * 16 + h);
  }

  /** A word's low bits, before and after the cut. */
  lemma {:induction false} LowBits(buf: nat)
    ensures var k := buf % 0x400_0000; k % 64 == buf % 64 && k % 16 == buf % 16 && k % 4 == buf % 4
  {
    var q, k := buf / 0x400_0000, buf % 0x400_0000;
    assert buf == 0x400_0000 * q + k;
    DivSixtyFour(0x10_0000 * q + k / 64, k % 64);
    DivSixteen(0x40_0000 * q + k / 16, k % 16);
    DivFour(0x100_0000 * q + k / 4, k % 4);
  }

  lemma {:induction false} PushSecond(buf: nat, v: nat)
    requires v < 64
    ensures Push(buf, v) / 16 % 256 == buf % 64 * 4 + v / 16 && Push(buf, v) % 16 == v % 16
  {
    hide Push;
    ShiftSix(buf, v);
    var k := buf % 0x400_0000;
    LowBits(buf);
    assert k == 64 * (k / 64) + k % 64;
    SecondPlace(k / 64, k % 64, v);
  }

  lemma {:induction false} PushThird(buf: nat, v: nat)
    requires v < 64
    ensures Push(buf, v) / 4 % 256 == buf % 16 * 16 + v / 4 && Push(buf, v) % 4 == v % 4
  {
    hide Push;
    ShiftSix(buf, v);
    var k := buf % 0x400_0000;
    LowBits(buf);
    assert k == 16 * (k / 16) + k % 16;
    ThirdPlace(k / 16, k % 16, v);
  }

  lemma {:induction false} PushFourth(buf: nat, v: nat)
    requires v < 64
    ensures Push(buf, v) % 256 == buf % 4 * 64 + v
  {
    hide Push;
    ShiftSix(buf, v);
    var k := buf % 0x400_0000;
    LowBits(buf);
    assert k == 4 * (k / 4) + k % 4;
    ModByte(k / 4, k % 4 * 64 + v);
  }

  lemma {:induction false} SmallPowers()
    ensures Pow2(0) == 1 && Pow2(2) == 4 && Pow2(4) == 16
  {
  }

  /** The bits above the unread ones never matter. */
  lemma {:induction false} OnlyLow(s: seq<byte>, i: nat, a: nat, b: nat, bits: nat)
    requires Unread(bits) && Low(a, bits) == Low(b, bits)
    ensures DecodeFrom(s, i, a, bits) == DecodeFrom(s, i, b, bits)
    decreases |s| - i
  {
    hide Pow2, Push, Val;
    SmallPowers();
    if i < |s| {
      var v := Val(s[i]);
      if v < 0 {
        OnlyLow(s, i + 1, a, b, bits);
      } else {
        SameLow(a, b, v, bits);
        OnlyLow(s, i + 1, Push(a, v), Push(b, v), if bits == 0 then 6 else bits - 2);
      }
    }
  }

  lemma {:induction false} SameLow(a: nat, b: nat, v: nat, bits: nat)
    requires Unread(bits) && Low(a, bits) == Low(b, bits) && v < 64
    ensures Low(Push(a, v), if bits == 0 then 6 else bits - 2) == Low(Push(b, v), if bits == 0 then 6 else bits - 2)
    ensures bits == 6 ==> Push(a, v) / 16 % 256 == Push(b, v) / 16 % 256
    ensures bits == 4 ==> Push(a, v) / 4 % 256 == Push(b, v) / 4 % 256
    ensures bits == 2 ==> Push(a, v) % 256 == Push(b, v) % 256
  {
    hide Push;
    if bits == 0 { PushFirst(a, v); PushFirst(b, v); }
    else if bits == 6 { PushSecond(a, v); PushSecond(b, v); }
    else if bits == 4 { PushThird(a, v); PushThird(b, v); }
    else { PushFourth(a, v); PushFourth(b, v); }
  }

  /** One alphabet character. */
  lemma {:induction false} Taken(s: seq<byte>, i: nat, buf: nat, bits: nat, v: nat)
    requires i < |s| && v < 64 && s[i] == Sym(v) && Unread(bits)
    ensures var b := Push(buf, v);
      DecodeFrom(s, i, buf, bits) ==
        if bits == 0 then DecodeFrom(s, i + 1, b, 6)
        else [if bits == 6 then b / 16 % 256 else if bits == 4 then b / 4 % 256 else b % 256] + DecodeFrom(s, i + 1, b, bits - 2)
  {
    hide Pow2, Push;
    SmallPowers();
  }

  /** The first two characters of a four-group. */
  lemma {:induction false} PairBack(s: seq<byte>, i: nat, buf: nat, v: nat, w: nat)
    requires i + 2 <= |s| && v < 64 && w < 64 && s[i] == Sym(v) && s[i + 1] == Sym(w)
    ensures DecodeFrom(s, i, buf, 0) == [v * 4 + w / 16] + DecodeFrom(s, i + 2, w % 16, 4)
  {
    hide Push, Sym, DecodeFrom;
    var b := Push(buf, v);
    Taken(s, i, buf, 0, v);
    Taken(s, i + 1, b, 6, w);
    PushFirst(buf, v);
    PushSecond(b, w);
    OnlyLow(s, i + 2, Push(b, w), w % 16, 4);
  }

  lemma {:induction false} ThirdBack(s: seq<byte>, i: nat, u: nat, v: nat)
    requires i < |s| && u < 16 && v < 64 && s[i] == Sym(v)
    ensures DecodeFrom(s, i, u, 4) == [u * 16 + v / 4] + DecodeFrom(s, i + 1, v % 4, 2)
  {
    hide Push, Sym, DecodeFrom;
    Taken(s, i, u, 4, v);
    PushThird(u, v);
    OnlyLow(s, i + 1, Push(u, v), v % 4, 2);
  }

  lemma {:induction false} FourthBack(s: seq<byte>, i: nat, u: nat, v: nat)
    requires i < |s| && u < 4 && v < 64 && s[i] == Sym(v)
    ensures DecodeFrom(s, i, u, 2) == [u * 64 + v] + DecodeFrom(s, i + 1, 0, 0)
  {
    hide Push, Sym, DecodeFrom;
    Taken(s, i, u, 2, v);
    PushFourth(u, v);
    OnlyLow(s, i + 1, Push(u, v), 0, 0);
  }

  /** The four groups of six bits, in terms of the three bytes. */
  lemma {:induction false} Sixes(a: nat, b: nat, c: nat)
    requires a < 256 && b < 256 && c < 256
    ensures var n := Join(a, b, c);
      && n / 262144 % 64 == a / 4 && n / 4096 % 64 == a % 4 * 16 + b / 16
      && n / 64 % 64 == b % 16 * 4 + c / 64 && n % 64 == c % 64
  {
    hide Join;
    HighSixes(a, b, c);
    LowSixes(a, b, c);
  }

  lemma {:induction false} HighSixes(a: nat, b: nat, c: nat)
    requires a < 256 && b < 256 && c < 256
    ensures Join(a, b, c) / 262144 % 64 == a / 4 && Join(a, b, c) / 4096 % 64 == a % 4 * 16 + b / 16
  {
    var n := Join(a, b, c);
    assert n == 262144 * (a / 4) + (a % 4 * 65536 + b * 256 + c);
    assert n == 4096 * (a * 16 + b / 16) + (b % 16 * 256 + c);
    DivSixtyFour(a / 4, a % 4 * 16 + b / 16);
    assert a * 16 + b / 16 == 64 * (a / 4) + (a % 4 * 16 + b / 16);
  }

  lemma {:induction false} LowSixes(a: nat, b: nat, c: nat)
    requires a < 256 && b < 256 && c < 256
    ensures Join(a, b, c) / 64 % 64 == b % 16 * 4 + c / 64 && Join(a, b, c) % 64 == c % 64
  {
    var k, h := b / 16, c / 64;
    var r := b - 16 * k;
    assert b % 16 == r && c == 64 * h + c % 64;
    assert Join(a, b, c) == 64 * (a * 1024 + b * 4 + h) + c % 64;
    DivSixtyFour(a * 1024 + b * 4 + h, c % 64);
    assert a * 1024 + b * 4 + h == 64 * (a * 16 + k) + (r * 4 + h);
    DivSixtyFour(a * 16 + k, r * 4 + h);
  }

  /** Decoding from an encoding's position `i`, with any old bits in the accumulator. */
  lemma {:induction false} DecodesFrom(s: seq<byte>, p: nat, x: seq<byte>, i: nat, buf: nat)
    requires i <= |x| && Shows(s, p, EncodeFrom(x, i)) && p + |EncodeFrom(x, i)| == |s|
    ensures DecodeFrom(s, p, buf, 0) == x[i..]
    decreases |x| - i
  {
    hide Join, Sym, DecodeFrom, Shows, Quad;
    if i < |x| {
      var a, b, c := x[i], ByteAt(x, i + 1), ByteAt(x, i + 2);
      FourShown(s, p, x, i);
      PairBack(s, p, buf, a / 4, a % 4 * 16 + b / 16);
      if i + 1 == |x| {
        Padding(s, p + 2, b / 16, 4);
        assert x[i..] == [a];
      } else {
        ThirdBack(s, p + 2, b / 16, b % 16 * 4 + c / 64);
        if i + 2 == |x| {
          Padding(s, p + 3, c / 64, 2);
          assert x[i..] == [a, b];
        } else {
          FourthBack(s, p + 3, c / 64, c % 64);
          ShowsParts(s, p, Quad(Join(a, b, c)), EncodeFrom(x, i + 3));
          DecodesFrom(s, p + 4, x, i + 3, 0);
          assert x[i..] == [a, b, c] + x[i + 3..];
        }
      }
    } else {
      NothingLeft(s, p, buf, 0);
      assert x[i..] == [];
    }
  }

  /** The byte at `i`; 0 past the end. */
  function ByteAt(x: seq<byte>, i: nat): byte { if i < |x| then x[i] else 0 }

  /** The first four characters of an encoding, where it stands. */
  lemma {:induction false} FourShown(s: seq<byte>, p: nat, x: seq<byte>, i: nat)
    requires i < |x| && Shows(s, p, EncodeFrom(x, i)) && p + |EncodeFrom(x, i)| == |s|
    ensures var a, b, c := x[i], ByteAt(x, i + 1), ByteAt(x, i + 2);
      && p + 4 <= |s| && s[p] == Sym(a / 4) && s[p + 1] == Sym(a % 4 * 16 + b / 16)
      && (if i + 1 == |x| then |s| == p + 4 && s[p + 2] == PAD && s[p + 3] == PAD
          else s[p + 2] == Sym(b % 16 * 4 + c / 64) && if i + 2 == |x| then |s| == p + 4 && s[p + 3] == PAD else s[p + 3] == Sym(c % 64))
  {
    hide Sym, Join, EncodeFrom;
    var w := EncodeFrom(x, i);
    Sixes(x[i], ByteAt(x, i + 1), ByteAt(x, i + 2));
    FirstFour(x, i);
    assert s[p + 0] == w[0] && s[p + 1] == w[1] && s[p + 2] == w[2] && s[p + 3] == w[3];
  }

  lemma {:induction false} NothingLeft(s: seq<byte>, p: nat, buf: nat, bits: nat)
    requires p >= |s| && bits < 8
    ensures DecodeFrom(s, p, buf, bits) == []
  {
  }

  lemma {:induction false} Padding(s: seq<byte>, p: nat, buf: nat, bits: nat)
    requires bits < 8 && forall i :: p <= i < |s| ==> s[i] == PAD
    ensures DecodeFrom(s, p, buf, bits) == []
    decreases |s| - p
  {
    hide Push, Pow2;
    if p < |s| { Padding(s, p + 1, buf, bits); }
  }

  /** How an encoding starts at `i`. */
  lemma {:induction false} FirstFour(x: seq<byte>, i: nat)
    requires i < |x|
    ensures var w := EncodeFrom(x, i);
      var q := Quad(Join(x[i], ByteAt(x, i + 1), ByteAt(x, i + 2)));
      && |w| >= 4 && w[0] == q[0] && w[1] == q[1]
      && (if i + 1 == |x| then |w| == 4 && w[2] == PAD && w[3] == PAD
          else w[2] == q[2] && if i + 2 == |x| then |w| == 4 && w[3] == PAD else w[3] == q[3])
  {
    hide Sym, Join;
  }

  /** Decoding what was encoded gives the bytes back, although the accumulator is never masked. */
  lemma {:induction false} RoundTrip(x: seq<byte>)
    ensures Decode(Encode(x)) == x
  {
    hide EncodeFrom, DecodeFrom;
    DecodesFrom(Encode(x), 0, x, 0, 0);
    assert x[0..] == x;
  }

  // ---- foreign characters ----

  /** The characters of the alphabet, in order. */
  function Cleaned(s: seq<byte>, i: nat): seq<byte>
    decreases |s| - i
  {
    if i >= |s| then [] else (if s[i] in ALPHABET then [s[i]] else []) + Cleaned(s, i + 1)
  }

  lemma {:induction false} CleanedDecodes(s: seq<byte>, i: nat, t: seq<byte>, j: nat, buf: nat, bits: nat)
    requires i <= |s| && j <= |t| && t[j..] == Cleaned(s, i) && bits < 8
    ensures DecodeFrom(s, i, buf, bits) == DecodeFrom(t, j, buf, bits)
    decreases |s| - i
  {
    hide Push, Pow2, Val, ALPHABET;
    if i < |s| {
      ValIff(s[i]);
      if Val(s[i]) < 0 {
        assert [] + Cleaned(s, i + 1) == Cleaned(s, i + 1);
        CleanedDecodes(s, i + 1, t, j, buf, bits);
      } else {
        assert t[j] == t[j..][0] == s[i] && t[j + 1..] == t[j..][1..] == Cleaned(s, i + 1);
        var b := Push(buf, Val(s[i]));
        CleanedDecodes(s, i + 1, t, j + 1, b, if bits + 6 >= 8 then bits - 2 else bits + 6);
      }
    }
  }

  /** Texts with the same alphabet characters decode alike, whatever stands between these. */
  lemma {:induction false} JunkIgnored(s: seq<byte>, t: seq<byte>)
    requires Cleaned(s, 0) == Cleaned(t, 0)
    ensures Decode(s) == Decode(t)
  {
    hide DecodeFrom;
    var c := Cleaned(s, 0);
    assert c[0..] == c;
    CleanedDecodes(s, 0, c, 0, 0, 0);
    CleanedDecodes(t, 0, c, 0, 0, 0);
  }

  // ---- the characters ----

  const ALPHABET: seq<byte> :=
    Ascii("ABCDEFGHIJKLMNOPQRSTUVWXYZ") + Ascii("abcdefghijklmnopqrstuvwxyz") + Ascii("0123456789+/")

  lemma {:induction false} UpperAt(v: nat)
    requires v < 26
    ensures Ascii("ABCDEFGHIJKLMNOPQRSTUVWXYZ")[v] == 65 + v
  {
  }

  lemma {:induction false} LowerAt(v: nat)
    requires v < 26
    ensures Ascii("abcdefghijklmnopqrstuvwxyz")[v] == 97 + v
  {
  }

  lemma {:induction false} OtherAt(v: nat)
    requires v < 12
    ensures Ascii("0123456789+/")[v] == if v < 10 then 48 + v else if v == 10 then 43 else 47
  {
  }

  lemma {:induction false} SymIs(v: nat)
    requires v < 64
    ensures |ALPHABET| == 64 && Sym(v) == ALPHABET[v]
  {
    hide Ascii;
    if v < 26 { UpperAt(v); } else if v < 52 { LowerAt(v - 26); } else { OtherAt(v - 52); }
  }

  /** Only the characters of the alphabet have a value. */
  lemma {:induction false} ValIff(c: byte)
    ensures Val(c) >= 0 <==> c in ALPHABET
  {
    hide Sym;
    if Val(c) >= 0 {
      SymOfVal(c);
      SymIs(Val(c));
    }
    if c in ALPHABET {
      SymIs(0);
      var v :| 0 <= v < 64 && ALPHABET[v] == c;
      SymIs(v);
    }
  }

  lemma {:induction false} SymOfVal(c: byte)
    requires Val(c) >= 0
    ensures Sym(Val(c)) == c
  {
  }

  lemma {:induction false} EncodedFrom(x: seq<byte>, i: nat)
    requires i % 3 == 0 && i <= |x|
    ensures Shows(Encode(x), i / 3 * 4, EncodeFrom(x, i)) && i / 3 * 4 + |EncodeFrom(x, i)| == |Encode(x)|
    decreases i
  {
    hide Quad, Join, Shows;
    if i > 0 {
      EncodedFrom(x, i - 3);
      assert (i - 3) / 3 * 4 + 4 == i / 3 * 4;
      ShowsParts(Encode(x), i / 3 * 4 - 4, Quad(Join(x[i - 3], x[i - 2], x[i - 1])), EncodeFrom(x, i));
    } else {
      ShowsItself(Encode(x));
    }
  }

  lemma {:induction false} ShowsItself(w: seq<byte>)
    ensures Shows(w, 0, w)
  {
  }

  /** RFC 4648: which four characters stand for the three bytes from `i` on, the last ones padded. */
  lemma {:induction false} CharactersAre(x: seq<byte>, i: nat)
    requires i % 3 == 0 && i < |x|
    ensures var w, p := Encode(x), i / 3 * 4;
      && |ALPHABET| == 64 && p + 4 <= |w| && w[p] == ALPHABET[x[i] / 4]
      && (i + 1 == |x| ==> w[p + 1] == ALPHABET[x[i] % 4 * 16] && w[p + 2..] == Ascii("=="))
      && (i + 1 < |x| ==> w[p + 1] == ALPHABET[x[i] % 4 * 16 + x[i + 1] / 16])
      && (i + 2 == |x| ==> w[p + 2] == ALPHABET[x[i + 1] % 16 * 4] && w[p + 3..] == Ascii("="))
      && (i + 2 < |x| ==> w[p + 2] == ALPHABET[x[i + 1] % 16 * 4 + x[i + 2] / 64] && w[p + 3] == ALPHABET[x[i + 2] % 64])
  {
    hide Sym, Encode, EncodeFrom, ALPHABET, Shows, Ascii;
    var a, b, c := x[i], ByteAt(x, i + 1), ByteAt(x, i + 2);
    var w, p := Encode(x), i / 3 * 4;
    EncodedFrom(x, i);
    FourShown(w, p, x, i);
    SymIs(a / 4);
    SymIs(a % 4 * 16 + b / 16);
    SymIs(b % 16 * 4 + c / 64);
    SymIs(c % 64);
    PadsAre();
    if i + 1 == |x| { assert w[p + 2..] == [PAD, PAD]; }
    if i + 2 == |x| { assert w[p + 3..] == [PAD]; }
  }

  lemma {:induction false} PadsAre()
    ensures Ascii("==") == [PAD, PAD] && Ascii("=") == [PAD]
  {
  }
}
