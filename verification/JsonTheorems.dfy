/** Parsing what the writer printed gives the value back: the printed text is one of the value's
    spellings. */
module JsonTheorems {
  import opened Bytes
  import opened Bits
  import opened Decimals
  import opened Json
  import opened JsonSyntax

  // ---- strings ----

  /** The spelling the writer chooses for a byte. */
  function Escaped(c: byte): Piece {
    if c == QUOTE || c == BACKSLASH then Short(c)
    else if c == 10 then Short('n' as int)
    else if c == 13 then Short('r' as int)
    else if c == 9 then Short('t' as int)
    else if c < 0x20 then Hex([48, 48, HexChar(c / 16), HexChar(c % 16)])
    else Plain(c)
  }

  lemma {:induction false} HexBack(d: nat)
    requires d < 16
    ensures HexChar(d) in Ascii("0123456789abcdefABCDEF") && Digit(HexChar(d)) == d
  {
    var a := Ascii("0123456789abcdefABCDEF");
    assert a[d] == HexChar(d);
  }

  lemma {:induction false} ShortIs(c: byte)
    requires c == 34 || c == 92 || c == 110 || c == 114 || c == 116
    ensures PieceOk(Short(c))
  {
    var a := Ascii("\"\\/bfnrt");
    assert a[0] == 34 && a[1] == 92 && a[5] == 110 && a[6] == 114 && a[7] == 116;
  }

  lemma {:induction false} ControlIs(c: byte)
    requires c < 0x20
    ensures var p := Hex([48, 48, HexChar(c / 16), HexChar(c % 16)]); PieceOk(p) && PieceMeans(p) == [c]
  {
    hide Ascii, Digit, HexChar;
    HexBack(0);
    HexBack(c / 16);
    HexBack(c % 16);
    ZeroChar();
  }

  lemma {:induction false} EscapedIs(c: byte)
    ensures PieceOk(Escaped(c)) && PieceText(Escaped(c)) == Escape(c) && PieceMeans(Escaped(c)) == [c]
  {
    hide Ascii, HexChar, CodePoint;
    if c == 34 || c == 92 { ShortIs(c); }
    else if c == 10 { ShortIs(110); }
    else if c == 13 { ShortIs(114); }
    else if c == 9 { ShortIs(116); }
    else if c < 0x20 { ControlIs(c); }
  }

  lemma {:induction false} ZeroChar()
    ensures HexChar(0) == 48
  {
  }

  /** Every escape the writer makes is read back as its byte. */
  lemma {:induction false} EscapeBack(s: Str, i: nat, c: byte)
    requires Shows(s, i, Escape(c)) && i + |Escape(c)| <= |s|
    ensures s[i] != QUOTE && ReadChar(s, i) == ([c], i + |Escape(c)|)
  {
    hide Escaped, Escape, ReadChar;
    EscapedIs(c);
    PieceBack(s, i, Escaped(c));
  }

  function EscapedFrom(s: Str, k: nat): seq<Piece>
    decreases |s| - k
  {
    if k >= |s| then [] else [Escaped(s[k])] + EscapedFrom(s, k + 1)
  }

  lemma {:induction false} TextIs(s: Str, k: nat)
    requires k <= |s|
    ensures PiecesOk(EscapedFrom(s, k)) && PiecesText(EscapedFrom(s, k)) == EscapeFrom(s, k) + [QUOTE]
    ensures PiecesMean(EscapedFrom(s, k)) == s[k..]
    decreases |s| - k
  {
    hide Escaped, Escape, PieceOk, PieceText, PieceMeans;
    if k < |s| {
      var ps := EscapedFrom(s, k + 1);
      EscapedIs(s[k]);
      TextIs(s, k + 1);
      assert ([Escaped(s[k])] + ps)[1..] == ps;
      assert Escape(s[k]) + (EscapeFrom(s, k + 1) + [QUOTE]) == Escape(s[k]) + EscapeFrom(s, k + 1) + [QUOTE];
      assert s[k..] == [s[k]] + s[k + 1..];
    } else {
      assert EscapedFrom(s, k) == [] && EscapeFrom(s, k) == [] && s[k..] == [];
    }
  }

  // ---- numbers ----

  lemma {:induction false} DigitsTo(a: Str, b: Str, i: nat)
    requires i <= |b| && forall j :: 0 <= j < |b| ==> IsDigit(b[j])
    ensures DigitsEnd(a + b, |a| + i) == |a + b|
    decreases |b| - i
  {
    if i < |b| { DigitsTo(a, b, i + 1); }
  }

  lemma {:induction false} RunFrom(a: Str, b: Str, i: nat, acc: nat)
    requires i <= |b|
    ensures DecRun(a + b, |a| + i, acc) == DecRun(b, i, acc)
    decreases |b| - i
  {
    if i < |b| && IsDigit(b[i]) { RunFrom(a, b, i + 1, 10 * acc + (b[i] - 48)); }
  }

  lemma {:induction false} DigitIn(c: byte)
    requires IsDigit(c)
    ensures c in Ascii("-0123456789") && c in Ascii("0123456789+-.eE")
  {
    var a, b := Ascii("-0123456789"), Ascii("0123456789+-.eE");
    assert a[c - 47] == c && b[c - 48] == c;
  }

  lemma {:induction false} MinusIn()
    ensures 45 in Ascii("-0123456789") && 45 in Ascii("0123456789+-.eE")
  {
    var a, b := Ascii("-0123456789"), Ascii("0123456789+-.eE");
    assert a[0] == 45 && b[11] == 45;
  }

  lemma {:induction false} DecimalOk(n: int)
    ensures NumeralOk(DumpInt(n))
  {
    hide Decimal, Ascii, IsDigit;
    MinusIn();
    var t := DumpInt(n);
    DecimalDigits(Abs(n));
    forall j | 0 <= j < |t|
      ensures t[j] in Ascii("-0123456789") && t[j] in Ascii("0123456789+-.eE")
    {
      if t[j] != 45 { DigitIn(t[j]); }
    }
  }

  /** `stod` reads an integer that a double holds exactly. */
  lemma {:induction false} StodBack(n: int)
    requires Exact(Int(n))
    ensures Stod(DumpInt(n)) == Int(n) && NumeralOk(DumpInt(n))
  {
    hide IsDouble, Decimal, NumeralOk;
    DecimalOk(n);
    var m := Abs(n);
    var sign: Str := if n < 0 then [45] else [];
    DecimalDigits(m);
    DecimalIsRead(m);
    assert DumpInt(n) == sign + Decimal(m);
    DigitsTo(sign, Decimal(m), 0);
    RunFrom(sign, Decimal(m), 0, 0);
  }

  lemma {:induction false} Shifted(m: nat, k: nat)
    ensures m * Pow2(k + 1) == 2 * (m * Pow2(k))
  {
    var p := Pow2(k);
    assert Pow2(k + 1) == 2 * p;
    assert m * (2 * p) == 2 * (m * p);
  }

  lemma {:induction false} Halved(x: nat)
    requires IsDouble(x)
    ensures IsDouble(2 * x)
  {
    assert 2 * x / 2 == x;
  }

  lemma {:induction false} ScaledIs(m: nat, k: nat)
    requires m <= 0x20_0000_0000_0000
    ensures IsDouble(m * Pow2(k))
  {
    hide Pow2, IsDouble;
    if k > 0 {
      ScaledIs(m, k - 1);
      Shifted(m, k - 1);
      Halved(m * Pow2(k - 1));
    } else {
      PowZero();
      SmallIs(m);
    }
  }

  lemma {:induction false} SmallIs(m: nat)
    requires m <= 0x20_0000_0000_0000
    ensures IsDouble(m * 1)
  {
  }

  lemma {:induction false} ScaledFrom(n: nat) returns (m: nat, k: nat)
    requires IsDouble(n)
    ensures m <= 0x20_0000_0000_0000 && n == m * Pow2(k)
  {
    hide Pow2;
    if n <= 0x20_0000_0000_0000 {
      m, k := n, 0;
      PowZero();
    } else {
      m, k := ScaledFrom(n / 2);
      Shifted(m, k);
      k := k + 1;
    }
  }

  /** `n` is `m` with `k` zero bits behind it. */
  predicate Scaled(n: nat, m: nat, k: nat) { m <= 0x20_0000_0000_0000 && n == m * Pow2(k) }

  /** A double has 53 significant bits. */
  lemma {:induction false} DoubleIff(n: nat)
    ensures IsDouble(n) <==> exists m, k: nat :: Scaled(n, m, k)
  {
    hide IsDouble, Pow2;
    if IsDouble(n) {
      var m, k := ScaledFrom(n);
      assert Scaled(n, m, k);
    }
    if m, k: nat :| Scaled(n, m, k) { ScaledIs(m, k); }
  }

  // ---- objects ----

  lemma {:induction false} LessOneWay(a: Str, b: Str)
    requires Less(a, b)
    ensures a != b && !Less(b, a)
    decreases |a|
  {
    if a != [] && a[0] == b[0] { LessOneWay(a[1..], b[1..]); }
  }

  /** A key above all others goes to the end. */
  lemma {:induction false} PutLast(o: seq<Member>, m: Member)
    requires forall i :: 0 <= i < |o| ==> Less(o[i].key, m.key)
    ensures Put(o, m.key, m.val) == o + [m]
    decreases |o|
  {
    hide Less;
    if o != [] {
      LessOneWay(o[0].key, m.key);
      PutLast(o[1..], m);
      assert [o[0]] + (o[1..] + [m]) == o + [m];
    }
  }

  // ---- values ----

  /** The spelling the writer chooses: no white space, integers in decimal. */
  function Spelling(v: J): Core
    requires Proper(v)
    decreases v
  {
    match v
    case Num(n) => Numeral(DumpInt(n.n))
    case Text(s) => Quoted(EscapedFrom(s, 0))
    case Arr(a) => List([], SpellingsFrom(a, 0))
    case Obj(o) => Record([], FieldsFrom(o, 0))
    case _ => Word(v)
  }

  function SpellingsFrom(a: seq<J>, k: nat): (r: seq<Doc>)
    requires ProperFrom(a, k)
    decreases a, |a| - k
  {
    if k >= |a| then [] else [Doc([], Spelling(a[k]), [])] + SpellingsFrom(a, k + 1)
  }

  function FieldsFrom(o: seq<Member>, k: nat): (r: seq<Field>)
    requires ProperVals(o, k)
    decreases o, |o| - k
  {
    if k >= |o| then []
    else [Field([], EscapedFrom(o[k].key, 0), [], Doc([], Spelling(o[k].val), []))] + FieldsFrom(o, k + 1)
  }

  /** It is a spelling of the value, and it is what is printed. */
  lemma {:induction false} SpellingIs(v: J)
    requires Proper(v)
    ensures CoreOk(Spelling(v)) && CoreText(Spelling(v)) == Dump(v) && CoreMeans(Spelling(v)) == v
    decreases v, 1
  {
    hide DumpInt, EscapedFrom, Stod, Ascii, NumeralOk;
    match v
    case Num(n) => StodBack(n.n);
    case Text(s) =>
      TextIs(s, 0);
      assert s[0..] == s;
    case Arr(a) => ArrIs(a);
    case Obj(o) => ObjIs(o);
    case _ => WordsAre();
  }

  lemma {:induction false} WhiteNone()
    ensures White([])
  {
  }

  /** A value spelled without white space around it. */
  lemma {:induction false} BareIs(v: J)
    requires Proper(v)
    ensures var d := Doc([], Spelling(v), []); DocOk(d) && DocText(d) == Dump(v) && DocMeans(d) == v
    decreases v, 2
  {
    hide Spelling, CoreText, CoreMeans, CoreOk, White, Proper, Dump;
    SpellingIs(v);
    WhiteNone();
    assert [] + (Dump(v) + []) == Dump(v);
  }

  lemma {:induction false} ItemsIs(a: seq<J>, k: nat)
    requires k < |a| && ProperFrom(a, k)
    ensures var ds := SpellingsFrom(a, k);
      ds != [] && ItemsOk(ds) && ItemsText(ds) == Dump(a[k]) + (ElemsFrom(a, k + 1) + [93]) && ItemsMean(ds) == a[k..]
    decreases a, |a| - k
  {
    hide Dump, Spelling, DocOk, DocText, DocMeans, Proper;
    var d, ds := Doc([], Spelling(a[k]), []), SpellingsFrom(a, k + 1);
    assert ([d] + ds)[1..] == ds;
    assert a[k..] == [a[k]] + a[k + 1..];
    BareIs(a[k]);
    if k + 1 < |a| {
      ItemsIs(a, k + 1);
      var t := ElemsFrom(a, k + 2);
      assert [COMMA] + (Dump(a[k + 1]) + (t + [93])) == [COMMA] + (Dump(a[k + 1]) + t) + [93];
    } else {
      assert ds == [] && ElemsFrom(a, k + 1) == [] && a[k + 1..] == [];
      assert [] + [93] == [93];
    }
  }

  lemma {:induction false} ArrIs(a: seq<J>)
    requires ProperFrom(a, 0)
    ensures var c := List([], SpellingsFrom(a, 0)); CoreOk(c) && CoreText(c) == [91] + (ElemsFrom(a, 0) + [93]) && CoreMeans(c) == Arr(a)
    decreases a
  {
    hide Dump, Proper, Spelling, DocOk, DocText, DocMeans, White;
    WhiteNone();
    if a == [] {
      assert SpellingsFrom(a, 0) == [] && ElemsFrom(a, 0) == [];
    } else {
      ItemsIs(a, 0);
      assert a[0..] == a;
      var d, t := Dump(a[0]), ElemsFrom(a, 1);
      assert ElemsFrom(a, 0) == d + t;
      assert d + (t + [93]) == d + t + [93];
    }
  }

  lemma {:induction false} MembersIs(o: seq<Member>, k: nat)
    requires k < |o| && Ordered(o) && ProperVals(o, k)
    ensures var fs := FieldsFrom(o, k);
      fs != [] && FieldsOk(fs) && FieldsMean(fs, o[..k]) == o
      && FieldsText(fs) == DumpText(o[k].key) + ([COLON] + (Dump(o[k].val) + (MembersFrom(o, k + 1) + [125])))
    decreases o, |o| - k
  {
    hide Dump, Spelling, DocOk, DocText, DocMeans, Proper, PiecesOk, PiecesText, PiecesMean, EscapedFrom, EscapeFrom, Put, White, Less;
    var m := o[k];
    var f, fs := Field([], EscapedFrom(m.key, 0), [], Doc([], Spelling(m.val), [])), FieldsFrom(o, k + 1);
    assert ([f] + fs)[1..] == fs;
    WhiteNone();
    TextIs(m.key, 0);
    assert m.key[0..] == m.key;
    BareIs(m.val);
    PutLast(o[..k], m);
    assert o[..k] + [m] == o[..k + 1];
    if k + 1 < |o| { MembersIs(o, k + 1); }
    var rest := if k + 1 == |o| then [125] else [44] + FieldsText(fs);
    if k + 1 < |o| {
      MembersJoin([COMMA], DumpText(o[k + 1].key), Dump(o[k + 1].val), MembersFrom(o, k + 2));
    } else {
      assert fs == [] && MembersFrom(o, k + 1) == [] && o[..k + 1] == o;
      assert [] + [125] == [125];
    }
    assert rest == MembersFrom(o, k + 1) + [125];
    FieldJoin(EscapeFrom(m.key, 0), Dump(m.val), rest);
  }

  lemma {:induction false} FieldJoin(key: Str, val: Str, rest: Str)
    ensures [] + ([34] + ((key + [QUOTE]) + ([] + ([58] + (val + rest))))) == ([QUOTE] + (key + [QUOTE])) + ([COLON] + (val + rest))
  {
  }

  lemma {:induction false} MembersJoin(sep: Str, key: Str, val: Str, t: Str)
    ensures sep + (key + ([COLON] + (val + t))) + [125] == sep + (key + ([COLON] + (val + (t + [125]))))
  {
  }

  lemma {:induction false} ObjIs(o: seq<Member>)
    requires Ordered(o) && ProperVals(o, 0)
    ensures var c := Record([], FieldsFrom(o, 0)); CoreOk(c) && CoreText(c) == [123] + (MembersFrom(o, 0) + [125]) && CoreMeans(c) == Obj(o)
    decreases o
  {
    hide Dump, Proper, Spelling, DocOk, DocText, DocMeans, White, EscapedFrom, PiecesOk, PiecesText, PiecesMean, DumpText;
    WhiteNone();
    if o == [] {
      assert FieldsFrom(o, 0) == [] && MembersFrom(o, 0) == [];
    } else {
      MembersIs(o, 0);
      assert o[..0] == [];
      MembersJoin([], DumpText(o[0].key), Dump(o[0].val), MembersFrom(o, 1));
    }
  }

  // ---- the law ----

  /** A printed value is read back whole, wherever it stands. */
  lemma {:induction false} ValueBack(s: Str, i: nat, v: J)
    requires Proper(v) && Shows(s, i, Dump(v)) && i + |Dump(v)| <= |s| && Stops(s, i + |Dump(v)|)
    ensures ReadValue(s, i) == (v, i + |Dump(v)|)
  {
    hide Shows, Proper, ReadValue, Spelling, Dump;
    SpellingIs(v);
    CoreBack(s, i, Spelling(v));
  }

  /** Parsing what was dumped gives the value back, for every nesting of strings, integers that a
      double holds below 2^63, and sorted objects, over arbitrary bytes. */
  lemma {:induction false} RoundTrip(v: J)
    requires Proper(v)
    ensures Parse(Dump(v)) == v
  {
    hide Dump, ReadValue, Proper;
    ValueBack(Dump(v), 0, v);
  }
}
