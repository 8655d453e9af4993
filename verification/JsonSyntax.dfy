/** JSON texts as RFC 8259 lets a writer spell them, and what the client's parser makes of them.

    A `Doc` fixes a writer's every choice: the white space around each token, and for each
    character of a string whether it stands for itself, behind a backslash, or as four
    hexadecimal digits. */
module JsonSyntax {
  import opened Bytes
  import opened Bits
  import opened Decimals
  import opened Json
  import opened Utf8

  datatype Piece = Plain(c: byte) | Short(c: byte) | Hex(h: Str)

  datatype Doc = Doc(lead: Str, core: Core, trail: Str)

  datatype Core = Word(v: J) | Numeral(t: Str) | Quoted(ps: seq<Piece>) | List(gap: Str, items: seq<Doc>) | Record(gap: Str, fields: seq<Field>)

  datatype Field = Field(lead: Str, key: seq<Piece>, mid: Str, val: Doc)

  // ---- the text ----

  function PieceText(p: Piece): (t: Str)
    requires PieceOk(p)
    ensures |t| > 0
  {
    match p
    case Plain(c) => [c]
    case Short(c) => ['\\' as int, c]
    case Hex(h) => ['\\' as int, 'u' as int] + h
  }

  function PiecesText(ps: seq<Piece>): Str
    requires PiecesOk(ps)
  {
    if ps == [] then ['"' as int] else PieceText(ps[0]) + PiecesText(ps[1..])
  }

  function DocText(d: Doc): Str
    requires DocOk(d)
    decreases d
  {
    d.lead + (CoreText(d.core) + d.trail)
  }

  function CoreText(c: Core): Str
    requires CoreOk(c)
    decreases c
  {
    match c
    case Word(v) => Ascii(if v.Null? then "null" else if v.b then "true" else "false")
    case Numeral(t) => t
    case Quoted(ps) => ['"' as int] + PiecesText(ps)
    case List(gap, items) => ['[' as int] + if items == [] then gap + [']' as int] else ItemsText(items)
    case Record(gap, fields) => ['{' as int] + if fields == [] then gap + ['}' as int] else FieldsText(fields)
  }

  function ItemsText(items: seq<Doc>): Str
    requires items != [] && ItemsOk(items)
    decreases items
  {
    DocText(items[0]) + if |items| == 1 then [']' as int] else [',' as int] + ItemsText(items[1..])
  }

  function FieldsText(fields: seq<Field>): Str
    requires fields != [] && FieldsOk(fields)
    decreases fields
  {
    var f := fields[0];
    f.lead + (['"' as int] + (PiecesText(f.key) + (f.mid + ([':' as int] + (DocText(f.val)
      + if |fields| == 1 then ['}' as int] else [',' as int] + FieldsText(fields[1..]))))))
  }

  // ---- what RFC 8259 allows ----

  /** Section 2. */
  predicate White(w: Str) { forall j :: 0 <= j < |w| ==> w[j] in Ascii(" \t\n\r") }

  /** Section 7; bytes below 0x20 may also stand for themselves. */
  predicate PieceOk(p: Piece) {
    match p
    case Plain(c) => c != '"' as int && c != '\\' as int
    case Short(c) => c in Ascii("\"\\/bfnrt")
    case Hex(h) => |h| == 4 && forall j :: 0 <= j < 4 ==> h[j] in Ascii("0123456789abcdefABCDEF")
  }

  predicate PiecesOk(ps: seq<Piece>) { forall j :: 0 <= j < |ps| ==> PieceOk(ps[j]) }

  predicate DocOk(d: Doc)
    decreases d
  {
    White(d.lead) && White(d.trail) && CoreOk(d.core)
  }

  predicate CoreOk(c: Core)
    decreases c
  {
    match c
    case Word(v) => v.Null? || v.Bool?
    case Numeral(t) => NumeralOk(t)
    case Quoted(ps) => PiecesOk(ps)
    case List(gap, items) => White(gap) && ItemsOk(items)
    case Record(gap, fields) => White(gap) && FieldsOk(fields)
  }

  /** A digit or a minus sign, and then digits, signs, points and exponent letters. */
  predicate NumeralOk(t: Str) {
    t != [] && t[0] in Ascii("-0123456789") && forall j :: 0 <= j < |t| ==> t[j] in Ascii("0123456789+-.eE")
  }

  predicate ItemsOk(items: seq<Doc>)
    decreases items
  {
    items == [] || (DocOk(items[0]) && ItemsOk(items[1..]))
  }

  predicate FieldsOk(fields: seq<Field>)
    decreases fields
  {
    fields == []
    || (White(fields[0].lead) && PiecesOk(fields[0].key) && White(fields[0].mid) && DocOk(fields[0].val) && FieldsOk(fields[1..]))
  }

  // ---- the meaning ----

  function Digit(c: byte): (d: nat)
    requires c in Ascii("0123456789abcdefABCDEF")
    ensures d < 16
  {
    HexChars(c);
    if c <= '9' as int then c - '0' as int else if c <= 'F' as int then c - 'A' as int + 10 else c - 'a' as int + 10
  }

  lemma {:induction false} HexChars(c: byte)
    requires c in Ascii("0123456789abcdefABCDEF")
    ensures 48 <= c <= 57 || 97 <= c <= 102 || 65 <= c <= 70
  {
  }

  /** The code point of four hexadecimal digits. */
  function CodePoint(h: Str): (code: nat)
    requires PieceOk(Hex(h))
    ensures code < 0x1_0000
  {
    4096 * Digit(h[0]) + 256 * Digit(h[1]) + 16 * Digit(h[2]) + Digit(h[3])
  }

  function PieceMeans(p: Piece): Str
    requires PieceOk(p)
  {
    match p
    case Plain(c) => [c]
    case Short(c) =>
      [if c == 'b' as int then 8 else if c == 't' as int then 9 else if c == 'n' as int then 10
       else if c == 'f' as int then 12 else if c == 'r' as int then 13 else c]
    case Hex(h) => InUtf8(CodePoint(h))
  }

  function PiecesMean(ps: seq<Piece>): Str
    requires PiecesOk(ps)
  {
    if ps == [] then [] else PieceMeans(ps[0]) + PiecesMean(ps[1..])
  }

  function DocMeans(d: Doc): J
    requires DocOk(d)
    decreases d
  {
    CoreMeans(d.core)
  }

  function CoreMeans(c: Core): J
    requires CoreOk(c)
    decreases c
  {
    match c
    case Word(v) => v
    case Numeral(t) => Num(Stod(t))
    case Quoted(ps) => Text(PiecesMean(ps))
    case List(_, items) => Arr(ItemsMean(items))
    case Record(_, fields) => Obj(FieldsMean(fields, []))
  }

  function ItemsMean(items: seq<Doc>): seq<J>
    requires ItemsOk(items)
    decreases items
  {
    if items == [] then [] else [DocMeans(items[0])] + ItemsMean(items[1..])
  }

  /** The members so far and the fields left. */
  function FieldsMean(fields: seq<Field>, o: seq<Member>): seq<Member>
    requires FieldsOk(fields)
    decreases fields
  {
    if fields == [] then o
    else FieldsMean(fields[1..], Put(o, PiecesMean(fields[0].key), DocMeans(fields[0].val)))
  }

  // ---- strings ----

  lemma {:induction false} Whites(w: Str, j: nat)
    requires White(w) && j < |w|
    ensures IsWs(w[j])
  {
    assert w[j] in Ascii(" \t\n\r");
  }

  lemma {:induction false} HexIs(c: byte)
    requires c in Ascii("0123456789abcdefABCDEF")
    ensures HexOf(c) == Digit(c)
  {
    HexChars(c);
  }

  /** The parser's four steps make the code point. */
  lemma {:induction false} CodeIs(s: Str, i: nat, h: Str)
    requires i + 4 < |s| && PieceOk(Hex(h)) && s[i + 1] == h[0] && s[i + 2] == h[1] && s[i + 3] == h[2] && s[i + 4] == h[3]
    ensures Code(s, i) == CodePoint(h)
  {
    hide HexOf, Digit, Ascii;
    HexIs(h[0]);
    HexIs(h[1]);
    HexIs(h[2]);
    HexIs(h[3]);
    assert CodeTo(s, i, 1) == 0;
    assert CodeTo(s, i, 2) == Digit(h[0]);
    assert CodeTo(s, i, 3) == 16 * Digit(h[0]) + Digit(h[1]);
    assert CodeTo(s, i, 4) == 256 * Digit(h[0]) + 16 * Digit(h[1]) + Digit(h[2]);
  }

  lemma {:induction false} OrTop(top: nat, low: nat, k: nat, m: nat)
    requires low < Pow2(k) && top == m * Pow2(k)
    ensures Or(top, low) == top + low
  {
    OrDisjoint(low, m, k);
    OrSwap(low, top);
  }

  lemma {:induction false} TopSizes()
    ensures Pow2(4) == 16 && Pow2(6) == 64
  {
  }

  /** A `\u` escape below 0x10000 is the UTF-8 of its code point. */
  lemma {:induction false} Utf8Is(code: nat)
    requires code < 0x1_0000
    ensures Utf8Of(code) == InUtf8(code)
  {
    hide Or, Pow2;
    TopSizes();
    OrTop(0x80, code % 64, 6, 2);
    OrTop(0x80, code / 64 % 64, 6, 2);
    if code < 0x800 { OrTop(0xC0, code / 64, 6, 3); }
    OrTop(0xE0, code / 4096, 4, 14);
  }

  /** It is a valid character unless it is one half of a surrogate pair: a pair, which stands for
      one character above 0xFFFF, becomes two invalid ones. */
  lemma {:induction false} SurrogateIff(code: nat)
    requires code < 0x1_0000
    ensures ValidUtf8(Utf8Of(code)) <==> !(0xD800 <= code < 0xE000)
  {
    hide Or, Utf8Of, InUtf8, CharLen;
    Utf8Is(code);
    CharIs(code, []);
    var u := InUtf8(code);
    assert u + [] == u && u[|u|..] == [];
  }

  lemma {:induction false} PieceBack(s: Str, i: nat, p: Piece)
    requires PieceOk(p) && Shows(s, i, PieceText(p)) && i + |PieceText(p)| <= |s|
    ensures s[i] != QUOTE && ReadChar(s, i) == (PieceMeans(p), i + |PieceText(p)|)
  {
    hide Code, CodePoint, Utf8Of, InUtf8;
    var w := PieceText(p);
    assert s[i + 0] == w[0];
    if !p.Plain? { assert s[i + 1] == w[1]; }
    if p.Hex? {
      assert s[i + 2] == w[2] && s[i + 3] == w[3] && s[i + 4] == w[4] && s[i + 5] == w[5];
      CodeIs(s, i + 1, p.h);
      Utf8Is(CodePoint(p.h));
    }
  }

  lemma {:induction false} PiecesBack(s: Str, i: nat, ps: seq<Piece>)
    requires PiecesOk(ps) && Shows(s, i, PiecesText(ps)) && i + |PiecesText(ps)| <= |s|
    ensures ReadText(s, i) == (PiecesMean(ps), i + |PiecesText(ps)|)
    decreases |ps|
  {
    hide ReadChar, Shows, PieceText, PieceMeans, PieceOk;
    FirstShown(s, i, PiecesText(ps));
    if ps != [] {
      var t := PieceText(ps[0]);
      ShowsParts(s, i, t, PiecesText(ps[1..]));
      PieceBack(s, i, ps[0]);
      PiecesBack(s, i + |t|, ps[1..]);
    }
  }

  lemma {:induction false} FirstShown(s: Str, i: nat, w: Str)
    requires Shows(s, i, w) && w != [] && i < |s|
    ensures s[i] == w[0]
  {
    assert s[i + 0] == w[0];
  }

  // ---- white space ----

  /** Leading white space is skipped. */
  lemma {:induction false} SkipBack(s: Str, i: nat, w: Str)
    requires White(w) && Shows(s, i, w) && i + |w| <= |s|
    ensures SkipWs(s, i) == SkipWs(s, i + |w|)
    decreases |w|
  {
    if w != [] {
      Whites(w, 0);
      assert s[i + 0] == w[0];
      assert w == [w[0]] + w[1..];
      ShowsParts(s, i, [w[0]], w[1..]);
      SkipBack(s, i + 1, w[1..]);
    }
  }

  /** Reading starts behind leading white space. */
  lemma {:induction false} LeadBack(s: Str, i: nat, w: Str)
    requires White(w) && Shows(s, i, w) && i + |w| < |s|
    ensures ReadValue(s, i) == ReadValue(s, i + |w|)
  {
    hide ReadText, ReadMembers, ReadElems, White, Shows, NumEnd, Stod, WordAt;
    SkipBack(s, i, w);
  }

  lemma {:induction false} NoSkip(s: Str, i: nat)
    requires i >= |s| || !IsWs(s[i])
    ensures SkipWs(s, i) == i
  {
  }

  // ---- numbers and words ----

  /** A number that ends before `j` is not continued there. */
  predicate Stops(s: Str, j: nat) { j >= |s| || !NumChar(s[j]) }

  lemma {:induction false} NumChars(c: byte)
    requires c in Ascii("0123456789+-.eE")
    ensures NumChar(c)
  {
  }

  lemma {:induction false} NumTo(s: Str, i: nat, w: Str, k: nat)
    requires Shows(s, i, w) && i + |w| <= |s| && k <= |w| && Stops(s, i + |w|)
    requires forall j :: 0 <= j < |w| ==> w[j] in Ascii("0123456789+-.eE")
    ensures NumEnd(s, i + k) == i + |w|
    decreases |w| - k
  {
    hide Ascii, NumChar;
    if k < |w| {
      NumChars(w[k]);
      assert s[i + k] == w[k];
      NumTo(s, i, w, k + 1);
    }
  }

  lemma {:induction false} WordBack(s: Str, i: nat, w: Str)
    requires Shows(s, i, w) && i + |w| <= |s|
    ensures WordAt(s, i, w)
  {
    ShownSlice(s, i, w, i + |w|);
    assert w[..|w|] == w;
  }

  lemma {:induction false} WordFirst(s: Str, i: nat, w: Str)
    requires WordAt(s, i, w) && w != []
    ensures s[i] == w[0]
  {
    assert s[i..i + |w|][0] == s[i];
  }

  // ---- values ----

  /** Behind a value: the end, a comma or a closing bracket. */
  predicate Ends(s: Str, e: nat) { e >= |s| || s[e] in Ascii(",]}") }

  lemma {:induction false} EndStops(s: Str, e: nat)
    requires Ends(s, e)
    ensures Stops(s, e) && SkipWs(s, e) == e
  {
  }

  lemma {:induction false} NumeralFirst(t: Str)
    requires NumeralOk(t)
    ensures IsDigit(t[0]) || t[0] == 45
  {
    assert t[0] in Ascii("-0123456789");
  }

  lemma {:induction false} CoreFirst(c: Core)
    requires CoreOk(c)
    ensures CoreText(c) != [] && var b := CoreText(c)[0]; !IsWs(b) && b != 93 && b != 125
  {
    if c.Numeral? { NumeralFirst(c.t); }
  }

  lemma {:induction false} AfterCore(s: Str, i: nat, w: Str)
    requires White(w) && Shows(s, i, w) && i + |w| <= |s| && Ends(s, i + |w|)
    ensures Stops(s, i) && SkipWs(s, i) == i + |w|
  {
    hide Shows, White, Ascii;
    EndStops(s, i + |w|);
    SkipBack(s, i, w);
    if w != [] {
      Whites(w, 0);
      FirstShown(s, i, w);
    }
  }

  /** A spelled value is read wherever it stands, whatever the white space in and around it. */
  lemma {:induction false} DocBack(s: Str, i: nat, d: Doc)
    requires DocOk(d) && Shows(s, i, DocText(d)) && i + |DocText(d)| <= |s| && Ends(s, i + |DocText(d)|)
    ensures ReadValue(s, i) == (DocMeans(d), i + |d.lead| + |CoreText(d.core)|)
    ensures SkipWs(s, i + |d.lead| + |CoreText(d.core)|) == i + |DocText(d)|
    decreases d
  {
    hide Shows, ReadValue, White, CoreText, CoreMeans, CoreOk, Ends;
    var j := i + |d.lead|;
    ShowsParts(s, i, d.lead, CoreText(d.core) + d.trail);
    ShowsParts(s, j, CoreText(d.core), d.trail);
    CoreFirst(d.core);
    LeadBack(s, i, d.lead);
    AfterCore(s, j + |CoreText(d.core)|, d.trail);
    CoreBack(s, j, d.core);
  }

  lemma {:induction false} CoreBack(s: Str, i: nat, c: Core)
    requires CoreOk(c) && Shows(s, i, CoreText(c)) && i + |CoreText(c)| <= |s| && Stops(s, i + |CoreText(c)|)
    ensures ReadValue(s, i) == (CoreMeans(c), i + |CoreText(c)|)
    decreases c
  {
    hide Shows, ReadValue;
    CoreFirst(c);
    FirstShown(s, i, CoreText(c));
    NoSkip(s, i);
    match c
    case Numeral(t) => NumeralBack(s, i, t);
    case List(_, items) => ListBack(s, i, c);
    case Record(_, fields) => RecordBack(s, i, c);
    case _ => PlainBack(s, i, c);
  }

  lemma {:induction false} WordsAre()
    ensures Ascii("true") == TRUE && Ascii("false") == FALSE && Ascii("null") == NULL
  {
  }

  lemma {:induction false} PlainBack(s: Str, i: nat, c: Core)
    requires (c.Word? || c.Quoted?) && CoreOk(c) && Shows(s, i, CoreText(c)) && i + |CoreText(c)| <= |s|
    requires SkipWs(s, i) == i && s[i] == CoreText(c)[0]
    ensures ReadValue(s, i) == (CoreMeans(c), i + |CoreText(c)|)
  {
    hide Shows, ReadText, PiecesText, WordAt, Ascii, PiecesOk;
    if c.Quoted? {
      ShowsParts(s, i, [34], PiecesText(c.ps));
      PiecesBack(s, i + 1, c.ps);
    } else {
      WordsAre();
      WordBack(s, i, CoreText(c));
      if WordAt(s, i, TRUE) { WordFirst(s, i, TRUE); }
      if WordAt(s, i, FALSE) { WordFirst(s, i, FALSE); }
    }
  }

  lemma {:induction false} NumeralBack(s: Str, i: nat, t: Str)
    requires NumeralOk(t) && Shows(s, i, t) && i + |t| <= |s| && Stops(s, i + |t|)
    requires SkipWs(s, i) == i && s[i] == t[0]
    ensures ReadValue(s, i) == (Num(Stod(t)), i + |t|)
  {
    hide Shows, WordAt, Stod, NumEnd, Ascii;
    NumeralFirst(t);
    NumTo(s, i, t, 0);
    ShownSlice(s, i, t, i + |t|);
    assert t[..|t|] == t;
    if WordAt(s, i, TRUE) { WordFirst(s, i, TRUE); }
    if WordAt(s, i, FALSE) { WordFirst(s, i, FALSE); }
    if WordAt(s, i, NULL) { WordFirst(s, i, NULL); }
  }

  /** White space in front of a token, the bracket that closes an empty pair for one. */
  lemma {:induction false} GapBack(s: Str, i: nat, gap: Str, rest: Str)
    requires White(gap) && rest != [] && !IsWs(rest[0]) && Shows(s, i, gap + rest) && i + |gap| < |s|
    ensures SkipWs(s, i) == i + |gap| && s[i + |gap|] == rest[0]
  {
    hide Shows, White;
    ShowsParts(s, i, gap, rest);
    SkipBack(s, i, gap);
    FirstShown(s, i + |gap|, rest);
  }

  // ---- arrays ----

  /** One element: a value, and then a comma or the end. */
  lemma {:induction false} ElemStep(s: Str, i: nat, acc: seq<J>, v: J, n: nat, e: nat)
    requires i < |s| && ReadValue(s, i) == (v, n) && SkipWs(s, n) == e < |s| && (s[e] == COMMA || s[e] == 93)
    ensures ReadElems(s, i, acc) == if s[e] == COMMA then ReadElems(s, e + 1, acc + [v]) else (acc + [v], e + 1)
  {
    hide ReadValue;
  }

  lemma {:induction false} ItemsBack(s: Str, i: nat, items: seq<Doc>, acc: seq<J>)
    requires items != [] && ItemsOk(items) && Shows(s, i, ItemsText(items)) && i + |ItemsText(items)| <= |s|
    ensures ReadElems(s, i, acc) == (acc + ItemsMean(items), i + |ItemsText(items)|)
    decreases items
  {
    hide Shows, DocText, ReadValue, ReadElems, SkipWs, DocOk, DocMeans, Ends;
    var d, more := items[0], items[1..];
    var e := i + |DocText(d)|;
    var rest := if more == [] then [93] else [44] + ItemsText(more);
    ShowsParts(s, i, DocText(d), rest);
    FirstShown(s, e, rest);
    Closed(s, e);
    DocBack(s, i, d);
    ElemStep(s, i, acc, DocMeans(d), ReadValue(s, i).1, e);
    if more == [] {
      assert acc + [DocMeans(d)] == acc + ItemsMean(items);
    } else {
      ShowsParts(s, e, [44], ItemsText(more));
      ItemsBack(s, e + 1, more, acc + [DocMeans(d)]);
      assert acc + [DocMeans(d)] + ItemsMean(more) == acc + ([DocMeans(d)] + ItemsMean(more));
    }
  }

  lemma {:induction false} Closed(s: Str, e: nat)
    requires e < |s| && (s[e] == 44 || s[e] == 93 || s[e] == 125)
    ensures Ends(s, e)
  {
    var a := Ascii(",]}");
    assert a[0] == 44 && a[1] == 93 && a[2] == 125;
  }

  /** Where the first element of an array starts. */
  lemma {:induction false} FirstItem(s: Str, i: nat, items: seq<Doc>)
    requires items != [] && ItemsOk(items) && Shows(s, i, ItemsText(items)) && i + |ItemsText(items)| <= |s|
    ensures i <= SkipWs(s, i) < |s| && s[SkipWs(s, i)] != 93
    ensures ReadElems(s, SkipWs(s, i), []) == ReadElems(s, i, [])
  {
    hide Shows, CoreText, White, ReadElems, CoreOk;
    var d := items[0];
    CoreFirst(d.core);
    ShowsParts(s, i, DocText(d), if |items| == 1 then [93] else [44] + ItemsText(items[1..]));
    GapBack(s, i, d.lead, CoreText(d.core) + d.trail);
    ElemsLead(s, i);
  }

  lemma {:induction false} ElemsLead(s: Str, i: nat)
    requires SkipWs(s, i) < |s|
    ensures ReadElems(s, SkipWs(s, i), []) == ReadElems(s, i, [])
  {
    hide ReadText, ReadMembers, NumEnd, Stod, WordAt;
    NoSkip(s, SkipWs(s, i));
    assert ReadValue(s, SkipWs(s, i)) == ReadValue(s, i);
  }

  lemma {:induction false} ListBack(s: Str, i: nat, c: Core)
    requires c.List? && CoreOk(c) && Shows(s, i, CoreText(c)) && i + |CoreText(c)| <= |s|
    requires SkipWs(s, i) == i && s[i] == 91
    ensures ReadValue(s, i) == (CoreMeans(c), i + |CoreText(c)|)
    decreases c, 0
  {
    hide Shows, ItemsText, ReadElems, White, ItemsOk;
    if c.items == [] {
      ShowsParts(s, i, [91], c.gap + [93]);
      GapBack(s, i + 1, c.gap, [93]);
    } else {
      ShowsParts(s, i, [91], ItemsText(c.items));
      FirstItem(s, i + 1, c.items);
      ItemsBack(s, i + 1, c.items, []);
      assert [] + ItemsMean(c.items) == ItemsMean(c.items);
    }
    NoItems();
  }

  lemma {:induction false} NoItems()
    ensures ItemsMean([]) == [] && FieldsMean([], []) == []
  {
  }

  // ---- objects ----

  /** What follows a field's value. */
  function FieldEnd(fields: seq<Field>): Str
    requires fields != [] && FieldsOk(fields)
  {
    if |fields| == 1 then [125] else [44] + FieldsText(fields[1..])
  }

  /** Six strings one behind the other. */
  lemma {:induction false} PartsShown(s: Str, i: nat, lead: Str, key: Str, mid: Str, val: Str, rest: Str)
    requires Shows(s, i, lead + ([34] + (key + (mid + ([58] + (val + rest))))))
    ensures var k := i + |lead| + 1;
      Shows(s, k, key) && Shows(s, k + |key|, mid + ([58] + (val + rest))) && Shows(s, k + |key| + |mid| + 1, val) && Shows(s, k + |key| + |mid| + 1 + |val|, rest)
  {
    hide Shows;
    var k := i + |lead| + 1;
    var l := k + |key| + |mid|;
    ShowsParts(s, i, lead, [34] + (key + (mid + ([58] + (val + rest)))));
    ShowsParts(s, k - 1, [34], key + (mid + ([58] + (val + rest))));
    ShowsParts(s, k, key, mid + ([58] + (val + rest)));
    ShowsParts(s, k + |key|, mid, [58] + (val + rest));
    ShowsParts(s, l, [58], val + rest);
    ShowsParts(s, l + 1, val, rest);
  }

  /** One field: where its key, colon and value stand. */
  lemma {:induction false} FieldBack(s: Str, i: nat, fields: seq<Field>, k: nat, l: nat, e: nat, rest: Str)
    requires fields != [] && FieldsOk(fields) && Shows(s, i, FieldsText(fields)) && i + |FieldsText(fields)| <= |s|
    requires k == i + |fields[0].lead| + 1 && l == k + |PiecesText(fields[0].key)| + |fields[0].mid|
    requires e == l + 1 + |DocText(fields[0].val)| && rest == FieldEnd(fields)
    ensures e < |s| && Shows(s, e, rest) && s[e] == rest[0] && e + |rest| == i + |FieldsText(fields)|
    ensures SkipWs(s, i) == k - 1 && s[k - 1] == QUOTE
    ensures ReadText(s, k) == (PiecesMean(fields[0].key), l - |fields[0].mid|)
    ensures SkipWs(s, l - |fields[0].mid|) == l && s[l] == COLON && Shows(s, l + 1, DocText(fields[0].val))
  {
    hide Shows, DocText, PiecesText, White, PiecesMean, DocOk, ReadText, SkipWs;
    var f := fields[0];
    var key, val := PiecesText(f.key), DocText(f.val);
    PartsShown(s, i, f.lead, key, f.mid, val, rest);
    GapBack(s, i, f.lead, [34] + (key + (f.mid + ([58] + (val + rest)))));
    PiecesBack(s, k, f.key);
    GapBack(s, l - |f.mid|, f.mid, [58] + (val + rest));
    FirstShown(s, e, rest);
  }

  /** One member: a literal, a colon, a value, and then a comma or the end. */
  lemma {:induction false} MemberStep(s: Str, i: nat, o: seq<Member>, key: Str, k: nat, v: J, n: nat, e: nat)
    requires SkipWs(s, i) < |s| && s[SkipWs(s, i)] == QUOTE && ReadText(s, SkipWs(s, i) + 1) == (key, k)
    requires SkipWs(s, k) < |s| && s[SkipWs(s, k)] == COLON && ReadValue(s, SkipWs(s, k) + 1) == (v, n)
    requires SkipWs(s, n) == e < |s| && (s[e] == COMMA || s[e] == 125)
    ensures ReadMembers(s, i, o)
         == if s[e] == COMMA then ReadMembers(s, e + 1, Put(o, key, v)) else (Put(o, key, v), e + 1)
  {
    hide ReadValue, ReadText, Put;
  }

  lemma {:induction false} FieldsBack(s: Str, i: nat, fields: seq<Field>, o: seq<Member>)
    requires fields != [] && FieldsOk(fields) && Shows(s, i, FieldsText(fields)) && i + |FieldsText(fields)| <= |s|
    ensures ReadMembers(s, i, o) == (FieldsMean(fields, o), i + |FieldsText(fields)|)
    decreases fields
  {
    hide Shows, DocText, PiecesText, FieldsText, ReadValue, ReadText, ReadMembers, White, PiecesMean, CoreMeans, DocOk, Put, Ends, SkipWs;
    var f := fields[0];
    var k := i + |f.lead| + 1;
    var l := k + |PiecesText(f.key)| + |f.mid|;
    var e := l + 1 + |DocText(f.val)|;
    FieldBack(s, i, fields, k, l, e, FieldEnd(fields));
    Closed(s, e);
    DocBack(s, l + 1, f.val);
    MemberStep(s, i, o, PiecesMean(f.key), l - |f.mid|, DocMeans(f.val), ReadValue(s, l + 1).1, e);
    if |fields| > 1 {
      ShowsParts(s, e, [44], FieldsText(fields[1..]));
      FieldsBack(s, e + 1, fields[1..], Put(o, PiecesMean(f.key), DocMeans(f.val)));
    } else {
      assert fields[1..] == [];
    }
  }

  /** Where the first key of an object starts. */
  lemma {:induction false} FirstField(s: Str, i: nat, fields: seq<Field>)
    requires fields != [] && FieldsOk(fields) && Shows(s, i, FieldsText(fields)) && i + |FieldsText(fields)| <= |s|
    ensures i <= SkipWs(s, i) < |s| && s[SkipWs(s, i)] == QUOTE
    ensures ReadMembers(s, SkipWs(s, i), []) == ReadMembers(s, i, [])
  {
    hide Shows, DocText, PiecesText, White, PiecesMean, DocOk, ReadText, ReadMembers;
    var f := fields[0];
    var k := i + |f.lead| + 1;
    var l := k + |PiecesText(f.key)| + |f.mid|;
    FieldBack(s, i, fields, k, l, l + 1 + |DocText(f.val)|, FieldEnd(fields));
    MembersLead(s, i);
  }

  lemma {:induction false} MembersLead(s: Str, i: nat)
    requires SkipWs(s, i) < |s|
    ensures ReadMembers(s, SkipWs(s, i), []) == ReadMembers(s, i, [])
  {
    hide ReadMember, Put;
    NoSkip(s, SkipWs(s, i));
  }

  lemma {:induction false} RecordBack(s: Str, i: nat, c: Core)
    requires c.Record? && CoreOk(c) && Shows(s, i, CoreText(c)) && i + |CoreText(c)| <= |s|
    requires SkipWs(s, i) == i && s[i] == 123
    ensures ReadValue(s, i) == (CoreMeans(c), i + |CoreText(c)|)
    decreases c, 0
  {
    hide Shows, FieldsText, ReadMembers, White, FieldsOk;
    if c.fields == [] {
      ShowsParts(s, i, [123], c.gap + [125]);
      GapBack(s, i + 1, c.gap, [125]);
    } else {
      ShowsParts(s, i, [123], FieldsText(c.fields));
      FirstField(s, i + 1, c.fields);
      FieldsBack(s, i + 1, c.fields, []);
    }
    NoItems();
  }

  // ---- what an object holds ----

  lemma {:induction false} LessTotal(a: Str, b: Str)
    ensures Less(a, b) || a == b || Less(b, a)
    ensures Less(a, b) ==> a != b && !Less(b, a)
    decreases |a|
  {
    if a != [] && b != [] && a[0] == b[0] {
      LessTotal(a[1..], b[1..]);
      assert a == [a[0]] + a[1..] && b == [b[0]] + b[1..];
    }
  }

  lemma {:induction false} LessChain(a: Str, b: Str, c: Str)
    requires Less(a, b) && Less(b, c)
    ensures Less(a, c)
    decreases |a|
  {
    if a != [] && a[0] == b[0] && b[0] == c[0] { LessChain(a[1..], b[1..], c[1..]); }
  }

  /** An assignment keeps the order, sets its own key and leaves every other member as it was. */
  lemma {:induction false} PutIs(o: seq<Member>, key: Str, val: J)
    requires Ordered(o)
    ensures Ordered(Put(o, key, val))
    ensures forall m :: m in Put(o, key, val) <==> m == Member(key, val) || (m in o && m.key != key)
    decreases |o|
  {
    hide Less;
    if o != [] {
      var h, t := o[0], o[1..];
      assert o == [h] + t;
      LessTotal(h.key, key);
      forall m | m in t ensures Less(h.key, m.key) && m.key != h.key { LessTotal(h.key, m.key); }
      if h.key != key {
        PutIs(t, key, val);
        if Less(key, h.key) {
          forall m | m in t ensures Less(key, m.key) && m.key != key {
            LessChain(key, h.key, m.key);
            LessTotal(key, m.key);
          }
        }
      }
    }
  }

  predicate HasKey(fields: seq<Field>, key: Str)
    requires FieldsOk(fields)
  {
    fields != [] && (PiecesMean(fields[0].key) == key || HasKey(fields[1..], key))
  }

  /** The last field with the member's key has its value. */
  predicate LastIs(fields: seq<Field>, m: Member)
    requires FieldsOk(fields)
  {
    fields != []
    && (LastIs(fields[1..], m)
      || (!HasKey(fields[1..], m.key) && m == Member(PiecesMean(fields[0].key), DocMeans(fields[0].val))))
  }

  lemma {:induction false} FieldsHold(fields: seq<Field>, o: seq<Member>)
    requires FieldsOk(fields) && Ordered(o)
    ensures Ordered(FieldsMean(fields, o))
    ensures forall m :: m in FieldsMean(fields, o) <==> LastIs(fields, m) || (!HasKey(fields, m.key) && m in o)
    decreases fields
  {
    hide Put, Ordered, PiecesMean, DocMeans, DocOk;
    if fields != [] {
      var key, val := PiecesMean(fields[0].key), DocMeans(fields[0].val);
      PutIs(o, key, val);
      FieldsHold(fields[1..], Put(o, key, val));
    }
  }

  // ---- the law ----

  /** Every JSON text is read as the value it spells, whatever the white space and however its
      strings are escaped. */
  lemma {:induction false} ReadsAnySpelling(d: Doc)
    requires DocOk(d)
    ensures Parse(DocText(d)) == DocMeans(d)
  {
    hide DocText, DocOk, DocMeans, ReadValue;
    DocBack(DocText(d), 0, d);
  }

  /** An object is read as a sorted map in which the last of equal keys counts. */
  lemma {:induction false} ReadsLastKey(lead: Str, gap: Str, fields: seq<Field>, trail: Str)
    requires DocOk(Doc(lead, Record(gap, fields), trail))
    ensures var v := Parse(DocText(Doc(lead, Record(gap, fields), trail)));
      v.Obj? && Ordered(v.o) && forall m :: m in v.o <==> LastIs(fields, m)
  {
    hide DocText, Parse, LastIs, HasKey, Ordered;
    var d := Doc(lead, Record(gap, fields), trail);
    ReadsAnySpelling(d);
    EmptyOrdered();
    FieldsHold(fields, []);
    assert DocMeans(d) == Obj(FieldsMean(fields, []));
  }

  lemma {:induction false} EmptyOrdered()
    ensures Ordered([])
  {
  }
}
