/** The client's JSON (RFC 8259) values, writer and parser. */
module Json {
  import opened Bytes
  import opened Bits
  import opened Decimals

  type Str = seq<byte>

  /** A number: an integer that a double holds exactly, or some other double, known by its text only. */
  datatype Number = Int(n: int) | Float(text: Str)

  datatype J = Null | Bool(b: bool) | Num(num: Number) | Text(s: Str) | Arr(a: seq<J>) | Obj(o: seq<Member>)

  datatype Member = Member(key: Str, val: J)

  const QUOTE: byte := 34
  const BACKSLASH: byte := 92
  const COMMA: byte := 44
  const COLON: byte := 58
  const TRUE: Str := [116, 114, 117, 101]
  const FALSE: Str := [102, 97, 108, 115, 101]
  const NULL: Str := [110, 117, 108, 108]

  // ---- ordered members: the client keeps an object in a sorted map ----

  predicate Less(a: Str, b: Str) {
    b != [] && (a == [] || a[0] < b[0] || (a[0] == b[0] && Less(a[1..], b[1..])))
  }

  /** `o[key] = val`. */
  function Put(o: seq<Member>, key: Str, val: J): seq<Member> {
    if o == [] then [Member(key, val)]
    else if o[0].key == key then [Member(key, val)] + o[1..]
    else if Less(key, o[0].key) then [Member(key, val)] + o
    else [o[0]] + Put(o[1..], key, val)
  }

  predicate Ordered(o: seq<Member>) {
    forall i, j :: 0 <= i < j < |o| ==> Less(o[i].key, o[j].key)
  }

  // ---- values the writer prints exactly ----

  /** A double holds the number exactly. */
  predicate IsDouble(n: nat) { n <= 0x20_0000_0000_0000 || (n % 2 == 0 && IsDouble(n / 2)) }

  function Abs(n: int): nat { if n < 0 then -n else n }

  predicate Exact(n: Number) { n.Int? && Abs(n.n) < 0x8000_0000_0000_0000 && IsDouble(Abs(n.n)) }

  /** Numbers are integers below 2^63, and objects are sorted maps. */
  predicate Proper(v: J)
    decreases v
  {
    match v
    case Num(n) => Exact(n)
    case Arr(a) => ProperFrom(a, 0)
    case Obj(o) => Ordered(o) && ProperVals(o, 0)
    case _ => true
  }

  predicate ProperFrom(a: seq<J>, i: nat)
    decreases a, |a| - i
  {
    i >= |a| || (Proper(a[i]) && ProperFrom(a, i + 1))
  }

  predicate ProperVals(o: seq<Member>, i: nat)
    decreases o, |o| - i
  {
    i >= |o| || (Proper(o[i].val) && ProperVals(o, i + 1))
  }

  // ---- text ----

  function HexChar(d: nat): byte
    requires d < 16
  {
    if d < 10 then 48 + d else 87 + d
  }

  function Escape(c: byte): (r: Str)
    ensures |r| > 0
  {
    if c == QUOTE then [BACKSLASH, QUOTE]
    else if c == BACKSLASH then [BACKSLASH, BACKSLASH]
    else if c == 10 then [BACKSLASH, 110]
    else if c == 13 then [BACKSLASH, 114]
    else if c == 9 then [BACKSLASH, 116]
    else if c < 0x20 then [BACKSLASH, 117, 48, 48, HexChar(c / 16), HexChar(c % 16)]
    else [c]
  }

  /** The escaped characters from position `i` on. */
  function EscapeFrom(s: Str, i: nat): Str
    decreases |s| - i
  {
    if i >= |s| then [] else Escape(s[i]) + EscapeFrom(s, i + 1)
  }

  function DumpText(s: Str): Str { [QUOTE] + (EscapeFrom(s, 0) + [QUOTE]) }

  function DumpInt(n: int): (r: Str)
    ensures |r| > 0
  {
    if n < 0 then [45] + Decimal(-n) else Decimal(n)
  }

  function Dump(v: J): (r: Str)
    requires Proper(v)
    ensures |r| > 0
    decreases v
  {
    match v
    case Null => NULL
    case Bool(b) => if b then TRUE else FALSE
    case Num(n) => DumpInt(n.n)
    case Text(s) => DumpText(s)
    case Arr(a) => [91] + (ElemsFrom(a, 0) + [93])
    case Obj(o) => [123] + (MembersFrom(o, 0) + [125])
  }

  function Sep(i: nat): Str { if i > 0 then [COMMA] else [] }

  /** The elements from `i` on, each but the very first behind a comma. */
  function ElemsFrom(a: seq<J>, i: nat): Str
    requires ProperFrom(a, i)
    decreases a, |a| - i
  {
    if i >= |a| then [] else Sep(i) + (Dump(a[i]) + ElemsFrom(a, i + 1))
  }

  function MembersFrom(o: seq<Member>, i: nat): Str
    requires ProperVals(o, i)
    decreases o, |o| - i
  {
    if i >= |o| then [] else Sep(i) + (DumpText(o[i].key) + ([COLON] + (Dump(o[i].val) + MembersFrom(o, i + 1))))
  }

  // ---- the writer ----

  method WriteText(out: Str, s: Str) returns (r: Str)
    ensures r == out + DumpText(s)
  {
    hide Escape;
    r := out + [QUOTE];
    for i := 0 to |s|
      invariant r + EscapeFrom(s, i) == out + [QUOTE] + EscapeFrom(s, 0)
    {
      assert r + (Escape(s[i]) + EscapeFrom(s, i + 1)) == r + Escape(s[i]) + EscapeFrom(s, i + 1);
      r := WriteChar(r, s[i]);
    }
    assert r + [] == r;
    r := r + [QUOTE];
    assert r == out + ([QUOTE] + (EscapeFrom(s, 0) + [QUOTE]));
  }

  method WriteChar(out: Str, c: byte) returns (r: Str)
    ensures r == out + Escape(c)
  {
    match c {
      case 34 => r := out + [BACKSLASH, QUOTE];
      case 92 => r := out + [BACKSLASH, BACKSLASH];
      case 10 => r := out + [BACKSLASH, 110];
      case 13 => r := out + [BACKSLASH, 114];
      case 9 => r := out + [BACKSLASH, 116];
      case _ =>
        if c < 0x20 {
          r := out + [BACKSLASH, 117, 48, 48, HexChar(c / 16), HexChar(c % 16)];
        } else {
          r := out + [c];
        }
    }
  }

  method Write(out: Str, v: J) returns (r: Str)
    requires Proper(v)
    ensures r == out + Dump(v)
    decreases v, 1
  {
    match v {
      case Null => r := out + NULL;
      case Bool(b) => r := out + if b then TRUE else FALSE;
      case Num(n) => r := out + DumpInt(n.n);
      case Text(s) => r := WriteText(out, s);
      case Arr(a) => r := WriteArr(out, a);
      case Obj(o) => r := WriteObj(out, o);
    }
  }

  lemma {:induction false} ElemsStep(a: seq<J>, i: nat, r: Str)
    requires i < |a| && ProperFrom(a, i)
    ensures Proper(a[i]) && ProperFrom(a, i + 1)
    ensures r + ElemsFrom(a, i) == r + Sep(i) + Dump(a[i]) + ElemsFrom(a, i + 1)
  {
    var d, t := Dump(a[i]), ElemsFrom(a, i + 1);
    assert r + (Sep(i) + (d + t)) == r + Sep(i) + d + t;
  }

  lemma {:induction false} ElemsEnd(a: seq<J>, r: Str)
    ensures ProperFrom(a, |a|) && r + ElemsFrom(a, |a|) == r
  {
  }

  method WriteArr(out: Str, a: seq<J>) returns (r: Str)
    requires ProperFrom(a, 0)
    ensures r == out + ([91] + (ElemsFrom(a, 0) + [93]))
    decreases a, 0
  {
    hide ElemsFrom, ProperFrom, Proper, Dump;
    r := out + [91];
    for i := 0 to |a|
      invariant ProperFrom(a, i) && r + ElemsFrom(a, i) == out + [91] + ElemsFrom(a, 0)
    {
      ElemsStep(a, i, r);
      if i > 0 { r := r + [COMMA]; }
      r := Write(r, a[i]);
    }
    ElemsEnd(a, r);
    r := r + [93];
  }

  lemma {:induction false} MembersStep(o: seq<Member>, i: nat, r: Str)
    requires i < |o| && ProperVals(o, i)
    ensures Proper(o[i].val) && ProperVals(o, i + 1)
    ensures r + MembersFrom(o, i) == r + Sep(i) + DumpText(o[i].key) + [COLON] + Dump(o[i].val) + MembersFrom(o, i + 1)
  {
    hide DumpText, Proper;
    var k, d, t := DumpText(o[i].key), Dump(o[i].val), MembersFrom(o, i + 1);
    assert r + (Sep(i) + (k + ([COLON] + (d + t)))) == r + Sep(i) + k + [COLON] + d + t;
  }

  lemma {:induction false} MembersEnd(o: seq<Member>, r: Str)
    ensures ProperVals(o, |o|) && r + MembersFrom(o, |o|) == r
  {
  }

  method WriteObj(out: Str, o: seq<Member>) returns (r: Str)
    requires ProperVals(o, 0)
    ensures r == out + ([123] + (MembersFrom(o, 0) + [125]))
    decreases o, 0
  {
    hide DumpText, MembersFrom, ProperVals, Proper, Dump;
    r := out + [123];
    for i := 0 to |o|
      invariant ProperVals(o, i) && r + MembersFrom(o, i) == out + [123] + MembersFrom(o, 0)
    {
      MembersStep(o, i, r);
      if i > 0 { r := r + [COMMA]; }
      r := WriteText(r, o[i].key);
      r := r + [COLON];
      r := Write(r, o[i].val);
    }
    MembersEnd(o, r);
    r := r + [125];
  }

  // ---- the parser, as functions of the text and an index ----

  predicate IsWs(c: byte) { c == 32 || c == 9 || c == 10 || c == 13 }

  function SkipWs(s: Str, i: nat): (j: nat)
    ensures i <= j && (i <= |s| ==> j <= |s|) && (j < |s| ==> !IsWs(s[j]))
    decreases |s| - i
  {
    if i < |s| && IsWs(s[i]) then SkipWs(s, i + 1) else i
  }

  /** The character at `i`; the terminator at the end. */
  function CharAt(s: Str, i: nat): byte
    requires i <= |s|
  {
    if i < |s| then s[i] else 0
  }

  predicate WordAt(s: Str, i: nat, w: Str) { i + |w| <= |s| && s[i..i + |w|] == w }

  predicate NumChar(c: byte) { IsDigit(c) || c == 45 || c == 43 || c == 46 || c == 101 || c == 69 }

  function NumEnd(s: Str, i: nat): (j: nat)
    requires i <= |s|
    ensures i <= j <= |s|
    decreases |s| - i
  {
    if i < |s| && NumChar(s[i]) then NumEnd(s, i + 1) else i
  }

  function DigitsEnd(t: Str, i: nat): (j: nat)
    requires i <= |t|
    ensures i <= j <= |t|
    decreases |t| - i
  {
    if i < |t| && IsDigit(t[i]) then DigitsEnd(t, i + 1) else i
  }

  predicate Dotted(t: Str, k: nat) { k < |t| && (t[k] == 46 || t[k] == 101 || t[k] == 69) }

  /** `std::stod`, 0 if it throws: exact for integers that a double holds, otherwise left as text. */
  function Stod(t: Str): Number {
    var j := if t != [] && (t[0] == 45 || t[0] == 43) then 1 else 0;
    var k := DigitsEnd(t, j);
    if k == j && !Dotted(t, k) then Int(0)
    else if Dotted(t, k) then Float(t)
    else
      var n: nat := DecRun(t, j, 0);
      if !IsDouble(n) then Float(t) else Int(if t[0] == 45 then 0 - n else n)
  }

  /** A hexadecimal digit as the parser reads any character, in 32-bit arithmetic. */
  function HexOf(h: byte): int {
    if IsDigit(h) then h - 48
    else if h >= 128 then h - 256 - 97 + 10
    else (if 65 <= h <= 90 then h + 32 else h) - 97 + 10
  }

  /** The code that the digits before `k` make. */
  function CodeTo(s: Str, i: nat, k: nat): nat
    requires i + 4 < |s| && 1 <= k <= 5
    decreases k
  {
    if k == 1 then 0 else (CodeTo(s, i, k - 1) * 16 + HexOf(s[i + k - 1])) % 0x1_0000_0000
  }

  function Code(s: Str, i: nat): nat
    requires i + 4 < |s|
  {
    CodeTo(s, i, 5)
  }

  /** A code point in UTF-8, in the parser's way. */
  function Utf8Of(code: nat): Str {
    if code < 0x80 then [code]
    else if code < 0x800 then [Or(0xC0, code / 64) % 256, Or(0x80, code % 64) % 256]
    else [Or(0xE0, code / 4096) % 256, Or(0x80, code / 64 % 64) % 256, Or(0x80, code % 64) % 256]
  }

  /** One character of a string literal that is not the closing quote: what it adds, and where the next one is. */
  function ReadChar(s: Str, i: nat): (r: (Str, nat))
    requires i < |s|
    ensures i < r.1 <= |s|
  {
    if s[i] == BACKSLASH && i + 1 < |s| then
      var c := s[i + 1];
      if c == 110 then ([10], i + 2)
      else if c == 114 then ([13], i + 2)
      else if c == 116 then ([9], i + 2)
      else if c == 98 then ([8], i + 2)
      else if c == 102 then ([12], i + 2)
      else if c == 117 then
        if i + 5 < |s| then (Utf8Of(Code(s, i + 1)), i + 6) else ([], i + 2)
      else ([c], i + 2)
    else ([s[i]], i + 1)
  }

  /** The rest of a string literal, and the index behind its closing quote. */
  function ReadText(s: Str, i: nat): (r: (Str, nat))
    requires i <= |s|
    ensures i < r.1 <= |s| + 1
    decreases |s| - i
  {
    if i == |s| || s[i] == QUOTE then ([], i + 1)
    else
      var (c, j) := ReadChar(s, i);
      var (t, k) := ReadText(s, j);
      (c + t, k)
  }

  function ReadValue(s: Str, i: nat): (r: (J, nat))
    requires i <= |s| + 1
    ensures i <= r.1 <= |s| + 1
    decreases |s| + 1 - i, 0
  {
    var j := SkipWs(s, i);
    if j >= |s| then (Null, j)
    else if s[j] == 123 then
      var k := SkipWs(s, j + 1);
      if k < |s| && s[k] == 125 then (Obj([]), k + 1) else var (o, e) := ReadMembers(s, k, []); (Obj(o), e)
    else if s[j] == 91 then
      var k := SkipWs(s, j + 1);
      if k < |s| && s[k] == 93 then (Arr([]), k + 1) else var (a, e) := ReadElems(s, k, []); (Arr(a), e)
    else if s[j] == QUOTE then var (t, e) := ReadText(s, j + 1); (Text(t), e)
    else if WordAt(s, j, TRUE) then (Bool(true), j + 4)
    else if WordAt(s, j, FALSE) then (Bool(false), j + 5)
    else if WordAt(s, j, NULL) then (Null, j + 4)
    else (Num(Stod(s[j..NumEnd(s, j)])), NumEnd(s, j))
  }

  function ReadElems(s: Str, i: nat, acc: seq<J>): (r: (seq<J>, nat))
    requires i <= |s| + 1
    ensures i <= r.1 <= |s| + 1
    decreases |s| + 1 - i, 1
  {
    if i >= |s| then (acc, i)
    else
      var (v, j) := ReadValue(s, i);
      var k := SkipWs(s, j);
      if k < |s| && s[k] == COMMA then ReadElems(s, k + 1, acc + [v])
      else (acc + [v], if k < |s| && s[k] == 93 then k + 1 else k)
  }

  /** A key, an optional colon, a value, and the index behind them. */
  function ReadMember(s: Str, j: nat): (r: (Str, J, nat))
    requires j < |s|
    ensures j < r.2 <= |s| + 1
    decreases |s| + 1 - j, 1
  {
    var (key, k) := ReadText(s, j + 1);
    var l := SkipWs(s, k);
    var (v, n) := ReadValue(s, if l < |s| && s[l] == COLON then l + 1 else l);
    (key, v, n)
  }

  function ReadMembers(s: Str, i: nat, acc: seq<Member>): (r: (seq<Member>, nat))
    requires i <= |s| + 1
    ensures i <= r.1 <= |s| + 1
    decreases |s| + 1 - i, 2
  {
    if i >= |s| then (acc, i)
    else
      var j := SkipWs(s, i);
      if CharAt(s, j) != QUOTE then (acc, j)
      else
        var (key, v, n) := ReadMember(s, j);
        var e := SkipWs(s, n);
        var o := Put(acc, key, v);
        if e < |s| && s[e] == COMMA then ReadMembers(s, e + 1, o)
        else (o, if e < |s| && s[e] == 125 then e + 1 else e)
  }

  function Parse(s: Str): J { ReadValue(s, 0).0 }

  // ---- the parser's loops ----

  method Skip(s: Str, i: nat) returns (j: nat)
    ensures j == SkipWs(s, i)
  {
    j := i;
    while j < |s| && (s[j] == 32 || s[j] == 9 || s[j] == 10 || s[j] == 13)
      invariant i <= j && SkipWs(s, j) == SkipWs(s, i)
      decreases |s| - j
    {
      j := j + 1;
    }
  }

  method ParseChar(s: Str, i: nat) returns (out: Str, j: nat)
    requires i < |s|
    ensures (out, j) == ReadChar(s, i)
  {
    if s[i] == BACKSLASH && i + 1 < |s| {
      j := i + 1;
      match s[j] {
        case 110 => out := [10];
        case 114 => out := [13];
        case 116 => out := [9];
        case 98 => out := [8];
        case 102 => out := [12];
        case 117 =>
          out := [];
          if j + 4 < |s| {
            var code := ParseCode(s, j);
            j := j + 4;
            out := Utf8Of(code);
          }
        case _ => out := [s[j]];
      }
    } else {
      out, j := [s[i]], i;
    }
    j := j + 1;
  }

  method ParseCode(s: Str, i: nat) returns (code: nat)
    requires i + 4 < |s|
    ensures code == Code(s, i)
  {
    hide HexOf;
    code := 0;
    for k := 1 to 5
      invariant code == CodeTo(s, i, k)
    {
      code := (code * 16 + HexOf(s[i + k])) % 0x1_0000_0000;
    }
  }

  method ParseText(s: Str, i: nat) returns (out: Str, j: nat)
    requires i < |s|
    ensures (out, j) == ReadText(s, i + 1)
  {
    hide ReadChar;
    out, j := [], i + 1;
    assert [] + ReadText(s, j).0 == ReadText(s, j).0;
    while j < |s| && s[j] != QUOTE
      invariant i < j <= |s|
      invariant var (t, e) := ReadText(s, j); (out + t, e) == ReadText(s, i + 1)
      decreases |s| - j
    {
      ghost var rest, before := ReadText(s, j).0, out;
      var c, k := ParseChar(s, j);
      assert before + (c + ReadText(s, k).0) == before + c + ReadText(s, k).0;
      out, j := out + c, k;
    }
    assert out + [] == out;
    j := j + 1;
  }

  method ParseValue(s: Str, i: nat) returns (v: J, j: nat)
    requires i <= |s| + 1
    ensures (v, j) == ReadValue(s, i)
    decreases |s| + 1 - i, 0
  {
    hide ReadText, ReadElems, ReadMembers, Stod;
    j := Skip(s, i);
    if j >= |s| { return Null, j; }
    var c := s[j];
    if c == 123 { v, j := ParseObj(s, j); }
    else if c == 91 { v, j := ParseArr(s, j); }
    else if c == QUOTE {
      var t;
      t, j := ParseText(s, j);
      v := Text(t);
    }
    else if WordAt(s, j, TRUE) { v, j := Bool(true), j + 4; }
    else if WordAt(s, j, FALSE) { v, j := Bool(false), j + 5; }
    else if WordAt(s, j, NULL) { v, j := Null, j + 4; }
    else {
      var start := j;
      while j < |s| && NumChar(s[j])
        invariant start <= j <= |s| && NumEnd(s, j) == NumEnd(s, start)
        decreases |s| - j
      {
        j := j + 1;
      }
      v := Num(Stod(s[start..j]));
    }
  }

  method ParseArr(s: Str, i: nat) returns (v: J, j: nat)
    requires i < |s|
    ensures var k := SkipWs(s, i + 1);
      (v, j) == if k < |s| && s[k] == 93 then (Arr([]), k + 1) else (Arr(ReadElems(s, k, []).0), ReadElems(s, k, []).1)
    decreases |s| - i, 1
  {
    hide ReadValue;
    j := Skip(s, i + 1);
    if j < |s| && s[j] == 93 { return Arr([]), j + 1; }
    var a: seq<J> := [];
    ghost var all := ReadElems(s, j, []);
    while j < |s|
      invariant i < j <= |s| + 1 && ReadElems(s, j, a) == all
      decreases |s| + 1 - j
    {
      var val;
      val, j := ParseValue(s, j);
      a := a + [val];
      j := Skip(s, j);
      if j < |s| && s[j] == COMMA {
        j := j + 1;
        continue;
      }
      if j < |s| && s[j] == 93 { j := j + 1; }
      return Arr(a), j;
    }
    v := Arr(a);
  }

  method ParseMember(s: Str, i: nat) returns (key: Str, val: J, j: nat)
    requires i < |s|
    ensures (key, val, j) == ReadMember(s, i)
    decreases |s| - i, 2
  {
    hide ReadValue, ReadText;
    key, j := ParseText(s, i);
    j := Skip(s, j);
    if j < |s| && s[j] == COLON { j := j + 1; }
    val, j := ParseValue(s, j);
  }

  method ParseObj(s: Str, i: nat) returns (v: J, j: nat)
    requires i < |s|
    ensures var k := SkipWs(s, i + 1);
      (v, j) == if k < |s| && s[k] == 125 then (Obj([]), k + 1) else (Obj(ReadMembers(s, k, []).0), ReadMembers(s, k, []).1)
    decreases |s| - i, 1
  {
    hide ReadMember, Put;
    j := Skip(s, i + 1);
    if j < |s| && s[j] == 125 { return Obj([]), j + 1; }
    var o: seq<Member> := [];
    ghost var all := ReadMembers(s, j, []);
    while j < |s|
      invariant i < j <= |s| + 1 && ReadMembers(s, j, o) == all
      decreases |s| + 1 - j
    {
      j := Skip(s, j);
      if CharAt(s, j) != QUOTE { return Obj(o), j; }
      var key, val;
      key, val, j := ParseMember(s, j);
      o := Put(o, key, val);
      j := Skip(s, j);
      if j < |s| && s[j] == COMMA {
        j := j + 1;
        continue;
      }
      if j < |s| && s[j] == 125 { j := j + 1; }
      return Obj(o), j;
    }
    v := Obj(o);
  }
}
