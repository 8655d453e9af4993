/** Well-formed UTF-8 (RFC 3629), the check a Rust string read makes. */
module Utf8 {
  import opened Bytes

  predicate Tail(b: byte) { 0x80 <= b <= 0xBF }

  /** Length of the well-formed character at the start of `s`; 0 if there is none. */
  function CharLen(s: seq<byte>): (n: nat)
    ensures n <= 4 && n <= |s|
  {
    if |s| >= 1 && s[0] <= 0x7F then 1
    else if |s| >= 2 && 0xC2 <= s[0] <= 0xDF && Tail(s[1]) then 2
    else if |s| >= 3 && Tail(s[2]) && (
      || (s[0] == 0xE0 && 0xA0 <= s[1] <= 0xBF)
      || (s[0] == 0xED && 0x80 <= s[1] <= 0x9F)
      || (0xE1 <= s[0] <= 0xEF && s[0] != 0xED && Tail(s[1]))) then 3
    else if |s| >= 4 && Tail(s[2]) && Tail(s[3]) && (
      || (s[0] == 0xF0 && 0x90 <= s[1] <= 0xBF)
      || (0xF1 <= s[0] <= 0xF3 && Tail(s[1]))
      || (s[0] == 0xF4 && 0x80 <= s[1] <= 0x8F)) then 4
    else 0
  }

  predicate ValidUtf8(s: seq<byte>) {
    s == [] || (CharLen(s) > 0 && ValidUtf8(s[CharLen(s)..]))
  }

  // ---- the characters it encodes ----

  /** A Unicode scalar value: a code point that is no surrogate. */
  predicate Scalar(code: nat) { code < 0x11_0000 && !(0xD800 <= code < 0xE000) }

  /** The table of RFC 3629, section 3. */
  function InUtf8(code: nat): (r: seq<byte>)
    requires code < 0x11_0000
    ensures 1 <= |r| <= 4
  {
    if code < 0x80 then [code]
    else if code < 0x800 then [0xC0 + code / 64, 0x80 + code % 64]
    else if code < 0x1_0000 then [0xE0 + code / 4096, 0x80 + code / 64 % 64, 0x80 + code % 64]
    else [0xF0 + code / 262144, 0x80 + code / 4096 % 64, 0x80 + code / 64 % 64, 0x80 + code % 64]
  }

  function Encoded(codes: seq<nat>): seq<byte>
    requires Scalars(codes)
  {
    if codes == [] then [] else InUtf8(codes[0]) + Encoded(codes[1..])
  }

  predicate Scalars(codes: seq<nat>) { forall i :: 0 <= i < |codes| ==> Scalar(codes[i]) }

  /** An encoded scalar value is taken whole; an encoded surrogate is refused. */
  lemma {:induction false} CharIs(code: nat, x: seq<byte>)
    requires code < 0x11_0000
    ensures CharLen(InUtf8(code) + x) == if Scalar(code) then |InUtf8(code)| else 0
  {
    var s := InUtf8(code) + x;
    if code >= 0x1_0000 {
      Split(code / 4096);
      Split(code / 64);
    } else if code >= 0x800 {
      Split(code / 64);
    }
  }

  lemma {:induction false} Split(n: nat)
    ensures n == 64 * (n / 64) + n % 64 && n % 64 < 64
  {
  }

  /** Six more bits, those of a following byte. */
  function Six(high: nat, b: byte): nat
    requires Tail(b)
  {
    64 * high + (b - 0x80)
  }

  lemma {:induction false} SixBack(high: nat, b: byte)
    requires Tail(b)
    ensures Six(high, b) / 64 == high && Six(high, b) % 64 == b - 0x80
  {
  }

  lemma {:induction false} Twice(n: nat)
    ensures n / 4096 == n / 64 / 64 && n / 262144 == n / 64 / 64 / 64
  {
  }

  lemma {:induction false} LongCode(lead: byte, a: byte, b: byte, c: byte)
    requires Tail(a) && Tail(b) && Tail(c) && 0xF0 <= lead <= 0xF4
    requires (lead == 0xF0 ==> a >= 0x90) && (lead == 0xF4 ==> a <= 0x8F)
    ensures var code := Six(Six(Six(lead - 0xF0, a), b), c); Scalar(code) && InUtf8(code) == [lead, a, b, c]
  {
    var x := Six(lead - 0xF0, a);
    var y := Six(x, b);
    var code := Six(y, c);
    SixBack(lead - 0xF0, a);
    SixBack(x, b);
    SixBack(y, c);
    Twice(code);
  }

  lemma {:induction false} MiddleCode(lead: byte, a: byte, b: byte)
    requires Tail(a) && Tail(b) && 0xE0 <= lead <= 0xEF
    requires (lead == 0xE0 ==> a >= 0xA0) && (lead == 0xED ==> a <= 0x9F)
    ensures var code := Six(Six(lead - 0xE0, a), b); Scalar(code) && InUtf8(code) == [lead, a, b]
  {
    var x := Six(lead - 0xE0, a);
    SixBack(lead - 0xE0, a);
    SixBack(x, b);
    Twice(Six(x, b));
  }

  /** What is taken is an encoded scalar value. */
  lemma {:induction false} CodeOf(s: seq<byte>) returns (code: nat)
    requires CharLen(s) > 0
    ensures Scalar(code) && s[..CharLen(s)] == InUtf8(code)
  {
    hide Scalar, InUtf8, Six;
    var n := CharLen(s);
    if n <= 2 {
      code := ShortCode(s);
    } else if n == 3 {
      MiddleCode(s[0], s[1], s[2]);
      code := Six(Six(s[0] - 0xE0, s[1]), s[2]);
      assert s[..3] == [s[0], s[1], s[2]];
    } else {
      LongCode(s[0], s[1], s[2], s[3]);
      code := Six(Six(Six(s[0] - 0xF0, s[1]), s[2]), s[3]);
      assert s[..4] == [s[0], s[1], s[2], s[3]];
    }
  }

  lemma {:induction false} ShortCode(s: seq<byte>) returns (code: nat)
    requires 0 < CharLen(s) <= 2
    ensures Scalar(code) && s[..CharLen(s)] == InUtf8(code)
  {
    if CharLen(s) == 1 {
      code := s[0];
    } else {
      code := Six(s[0] - 0xC0, s[1]);
      SixBack(s[0] - 0xC0, s[1]);
    }
  }

  lemma {:induction false} EncodedValid(codes: seq<nat>)
    requires Scalars(codes)
    ensures ValidUtf8(Encoded(codes))
    decreases |codes|
  {
    hide CharLen, InUtf8;
    if codes != [] {
      CharIs(codes[0], Encoded(codes[1..]));
      EncodedValid(codes[1..]);
    }
  }

  lemma {:induction false} ValidEncoded(s: seq<byte>) returns (codes: seq<nat>)
    requires ValidUtf8(s)
    ensures Scalars(codes) && s == Encoded(codes)
    decreases |s|
  {
    hide CharLen, InUtf8;
    codes := [];
    if s != [] {
      var code := CodeOf(s);
      var rest := ValidEncoded(s[CharLen(s)..]);
      codes := [code] + rest;
      assert codes[1..] == rest;
      assert s == s[..CharLen(s)] + s[CharLen(s)..];
    }
  }

  /** A byte string is well-formed iff it is the encoding of a sequence of scalar values. */
  lemma {:induction false} ValidIff(s: seq<byte>)
    ensures ValidUtf8(s) <==> exists codes :: Scalars(codes) && s == Encoded(codes)
  {
    hide ValidUtf8;
    if ValidUtf8(s) { var codes := ValidEncoded(s); }
    if codes :| Scalars(codes) && s == Encoded(codes) { EncodedValid(codes); }
  }
}
