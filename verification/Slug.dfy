/** User slugs: made from an e-mail address, unique in the user table. */
module Slug {
  import opened Bytes
  import opened Text
  import opened Prepare
  import opened RegistryRuns

  // ---- slugify ----

  /** Letters and digits in lower case; every other run of characters becomes one dash. */
  function Dashed(s: Str): Str {
    if s == [] then []
    else
      var r, c := Dashed(s[..|s| - 1]), ToLower(s[|s| - 1]);
      if IsAlnum(c) then r + [c] else if LastDash(s[..|s| - 1]) then r else r + ['-']
  }

  /** The last character that was looked at became a dash, or was swallowed by one. */
  predicate LastDash(s: Str) { s != [] && !IsAlnum(ToLower(s[|s| - 1])) }

  function Take32(s: Str): Str { if |s| <= 32 then s else s[..32] }

  function Slugified(input: Str): Str {
    var out := TrimDashes(Dashed(Before(input, '@')));
    if out == [] then "user" else Take32(out)
  }

  method Slugify(input: Str) returns (r: Str)
    ensures r == Slugified(input)
  {
    var base := Before(input, '@');
    var out: Str, lastDash := [], false;
    for i := 0 to |base|
      invariant out == Dashed(base[..i]) && lastDash == LastDash(base[..i])
    {
      assert base[..i + 1][..i] == base[..i];
      var c := ToLower(base[i]);
      if IsAlnum(c) {
        out := out + [c];
        lastDash := false;
      } else if !lastDash {
        out := out + ['-'];
        lastDash := true;
      }
    }
    assert base[..|base|] == base;
    var trimmed := TrimDashes(out);
    if trimmed == [] { return "user"; }
    return Take32(trimmed);
  }

  /** Letters, digits and single dashes. */
  predicate Plain(s: Str) {
    && (forall i :: 0 <= i < |s| ==> NameChar(s[i]))
    && forall i :: 0 < i < |s| ==> s[i - 1] != '-' || s[i] != '-'
  }

  lemma {:induction false} PlainPart(s: Str, i: nat, j: nat)
    requires i <= j <= |s| && Plain(s)
    ensures Plain(s[i..j])
  {
    hide NameChar;
    var t := s[i..j];
    assert forall k :: 0 <= k < |t| ==> t[k] == s[i + k];
  }

  lemma {:induction false} DashedIs(s: Str)
    ensures Plain(Dashed(s))
    ensures Dashed(s) != [] && Dashed(s)[|Dashed(s)| - 1] == '-' <==> LastDash(s)
    decreases |s|
  {
    if s != [] { DashedIs(s[..|s| - 1]); }
  }

  lemma {:induction false} StartPlain(s: Str)
    requires Plain(s)
    ensures Plain(TrimDashesStart(s))
    decreases |s|
  {
    hide NameChar;
    if s != [] && s[0] == '-' {
      PlainPart(s, 1, |s|);
      assert s[1..|s|] == s[1..];
      StartPlain(s[1..]);
    }
  }

  lemma {:induction false} EndPlain(s: Str)
    requires Plain(s)
    ensures Plain(TrimDashesEnd(s))
    decreases |s|
  {
    hide NameChar;
    if s != [] && s[|s| - 1] == '-' {
      PlainPart(s, 0, |s| - 1);
      assert s[0..|s| - 1] == s[..|s| - 1];
      EndPlain(s[..|s| - 1]);
    }
  }

  lemma {:induction false} TakePlain(s: Str)
    requires Plain(s) && s != []
    ensures Plain(Take32(s)) && 1 <= |Take32(s)| <= 32 && Take32(s)[0] == s[0]
  {
    hide NameChar;
    if |s| > 32 {
      PlainPart(s, 0, 32);
      assert s[0..32] == s[..32];
    }
  }

  /** What is left of the dashed name between its outer dashes. */
  lemma {:induction false} TrimmedIs(base: Str, out: Str)
    requires out == TrimDashes(Dashed(base))
    ensures Plain(out) && (out != [] ==> out[0] != '-')
  {
    hide Dashed, NameChar, TrimDashesStart, TrimDashesEnd;
    DashedIs(base);
    StartPlain(Dashed(base));
    EndPlain(TrimDashesStart(Dashed(base)));
  }

  /** A slug is one to thirty-two letters, digits and dashes, starts with no dash and has no two
      dashes in a row. */
  lemma {:induction false} SlugifiedIs(input: Str)
    ensures var r := Slugified(input); SlugOk(r) && Plain(r) && |r| <= 32 && r[0] != '-'
  {
    hide Dashed, NameChar, Take32, TrimDashes;
    var out := TrimDashes(Dashed(Before(input, '@')));
    TrimmedIs(Before(input, '@'), out);
    if out != [] { TakePlain(out); }
    UserOk();
  }

  // ---- what survives ----

  /** The letter or digit, in lower case; nothing for any other character. */
  function Kept(c: char): Str {
    if 'a' <= c <= 'z' || '0' <= c <= '9' then [c] else if 'A' <= c <= 'Z' then [c - 'A' + 'a'] else []
  }

  function Letters(s: Str): Str { if s == [] then [] else Letters(s[..|s| - 1]) + Kept(s[|s| - 1]) }

  /** Every letter and digit is kept; another character becomes a dash unless one was just made. */
  lemma {:induction false} DashedMeans(s: Str, c: char)
    ensures Dashed([]) == []
    ensures Dashed(s + [c]) == Dashed(s) +
      (if Kept(c) != [] then Kept(c) else if s != [] && Kept(s[|s| - 1]) == [] then [] else ['-'])
  {
    assert (s + [c])[..|s|] == s && Dashed(s) + [] == Dashed(s);
  }

  lemma {:induction false} LettersSnoc(s: Str, c: char)
    ensures Letters(s + [c]) == Letters(s) + Kept(c) && Letters([]) == []
  {
    assert (s + [c])[..|s|] == s;
  }

  lemma {:induction false} LowKept(c: char)
    ensures Letters(Kept(c)) == Kept(c) && Letters(['-']) == []
  {
    LettersSnoc([], c);
    assert Kept('-') == [] && ['-'][..0] == [];
    if Kept(c) != [] {
      var d := Kept(c)[0];
      assert Kept(c)[..0] == [] && Kept(d) == [d];
    }
  }

  lemma {:induction false} LettersAppend(a: Str, b: Str)
    ensures Letters(a + b) == Letters(a) + Letters(b)
    decreases |b|
  {
    hide Kept;
    if b == [] {
      assert a + b == a && Letters(a) + [] == Letters(a);
    } else {
      var k := |b| - 1;
      LettersAppend(a, b[..k]);
      assert (a + b)[..|a| + k] == a + b[..k];
    }
  }

  lemma {:induction false} DashedLetters(s: Str)
    ensures Letters(Dashed(s)) == Letters(s)
    decreases |s|
  {
    hide Dashed, Letters, Kept;
    if s == [] {
      DashedMeans(s, 'a');
    } else {
      var t, c := s[..|s| - 1], s[|s| - 1];
      DashedLetters(t);
      DashedMeans(t, c);
      LettersSnoc(t, c);
      LowKept(c);
      assert s == t + [c] && Letters(t) + [] == Letters(t) && Dashed(t) + [] == Dashed(t);
      LettersAppend(Dashed(t), Kept(c));
      LettersAppend(Dashed(t), ['-']);
    }
  }

  lemma {:induction false} DashesLetters(n: nat)
    ensures Letters(Dashes(n)) == []
  {
    hide Kept;
    if n > 0 {
      DashesLetters(n - 1);
      assert Dashes(n)[..n - 1] == Dashes(n - 1);
      LowKept('-');
      assert ['-'][..0] == [];
    }
  }

  lemma {:induction false} TrimLetters(s: Str)
    ensures Letters(TrimDashes(s)) == Letters(s)
  {
    hide Letters, TrimDashesStart, TrimDashesEnd, Dashes;
    var a := TrimDashesStart(s);
    var b := TrimDashesEnd(a);
    TrimStartDashes(s);
    TrimEndDashes(a);
    LettersAppend(Dashes(|s| - |a|), a);
    LettersAppend(b, Dashes(|a| - |b|));
    DashesLetters(|s| - |a|);
    DashesLetters(|a| - |b|);
  }

  lemma {:induction false} NoLetters(s: Str)
    requires Plain(s) && Letters(s) == [] && s != []
    ensures s == "-"
  {
    var k := |s| - 1;
    assert Letters(s[..k]) == [] && Kept(s[k]) == [];
  }

  /** The slug is what the letters and digits before the `@` give, all of them, in order and in lower
      case, cut off at 32 characters; `user` if there are none. */
  lemma {:induction false} SlugKeeps(input: Str)
    ensures var r, want, full := Slugified(input), Letters(Before(input, '@')), TrimDashes(Dashed(Before(input, '@')));
      if want == [] then r == "user"
      else r <= full && (|r| == |full| || |r| == 32) && Letters(full) == want
  {
    hide Dashed, Letters, TrimDashes;
    var base := Before(input, '@');
    var full := TrimDashes(Dashed(base));
    DashedLetters(base);
    TrimLetters(Dashed(base));
    TrimmedIs(base, full);
    if full != [] && Letters(full) == [] { NoLetters(full); }
    NoneKept();
    assert full[..|full|] == full;
  }

  lemma {:induction false} NoneKept()
    ensures Letters([]) == []
  {
  }

  lemma {:induction false} UserOk()
    ensures Plain("user")
  {
  }

  // ---- the search for a free name ----

  /** The n-th name tried: the slug itself, then slug-2, slug-3 and so on. */
  function Candidate(slug: Str, n: nat): Str {
    if n == 1 then slug else slug + "-" + DecimalText(n)
  }

  predicate AllTaken(taken: set<Str>, slug: Str, n: nat) {
    forall k :: 1 <= k < n ==> Candidate(slug, k) in taken
  }

  function Names(slug: Str, n: nat): set<Str> {
    if n == 0 then {} else Names(slug, n - 1) + {Candidate(slug, n)}
  }

  lemma {:induction false} DecimalTextDigits(n: nat)
    ensures DecimalText(n) != [] && forall i :: 0 <= i < |DecimalText(n)| ==> '0' <= DecimalText(n)[i] <= '9'
  {
    if n >= 10 { DecimalTextDigits(n / 10); }
  }

  lemma {:induction false} DecimalTextInjective(a: nat, b: nat)
    requires DecimalText(a) == DecimalText(b)
    ensures a == b
    decreases a
  {
    var s, t := DecimalText(a), DecimalText(b);
    DecimalTextDigits(a / 10);
    DecimalTextDigits(b / 10);
    if a < 10 && b < 10 {
    } else if a >= 10 && b >= 10 {
      assert s[..|s| - 1] == DecimalText(a / 10) && t[..|t| - 1] == DecimalText(b / 10);
      assert s[|s| - 1] == t[|t| - 1];
      DecimalTextInjective(a / 10, b / 10);
    }
  }

  /** No name is tried twice. */
  lemma {:induction false} CandidatesDiffer(slug: Str, j: nat, k: nat)
    requires 1 <= j < k
    ensures Candidate(slug, j) != Candidate(slug, k)
  {
    hide DecimalText;
    DecimalTextDigits(k);
    if j > 1 && Candidate(slug, j) == Candidate(slug, k) {
      var p := slug + "-";
      assert DecimalText(j) == Candidate(slug, j)[|p|..] && DecimalText(k) == Candidate(slug, k)[|p|..];
      DecimalTextInjective(j, k);
    }
  }

  lemma {:induction false} NamesIs(slug: Str, n: nat)
    ensures |Names(slug, n)| == n && forall x :: x in Names(slug, n) ==> exists k :: 1 <= k <= n && x == Candidate(slug, k)
  {
    hide Candidate;
    if n > 0 {
      NamesIs(slug, n - 1);
      forall k | 1 <= k < n ensures Candidate(slug, k) != Candidate(slug, n) { CandidatesDiffer(slug, k, n); }
    }
  }

  /** Pigeonhole: a finite table cannot take more names than it has entries. */
  lemma {:induction false} SomeFree(taken: set<Str>, slug: Str, n: nat)
    requires AllTaken(taken, slug, n + 1)
    ensures n <= |taken|
  {
    hide Candidate;
    NamesIs(slug, n);
    assert Names(slug, n) <= taken;
    Fewer(Names(slug, n), taken);
  }

  lemma {:induction false} Fewer(a: set<Str>, b: set<Str>)
    requires a <= b
    ensures |a| <= |b|
  {
    assert b == a + (b - a);
  }

  /** The name for a new user, and how many names were looked up. It is the first free one, and the
      search is over within one more look-up than the table has entries. */
  method FreeSlug(taken: set<Str>, email: Str) returns (slug: Str, probes: nat)
    ensures slug !in taken && 1 <= probes <= |taken| + 1
    ensures slug == Candidate(Slugified(email), probes) && AllTaken(taken, Slugified(email), probes)
  {
    hide Candidate, Slugified;
    ghost var base := Slugified(email);
    FirstCandidate(base);
    slug := Slugify(email);
    var n := 1;
    while slug in taken
      invariant n >= 1 && slug == Candidate(base, n) && AllTaken(taken, base, n)
      invariant n <= |taken| + 1
      decreases |taken| + 1 - n
    {
      SomeFree(taken, base, n);
      n := n + 1;
      NextCandidate(base, n);
      var again := Slugify(email);
      slug := again + "-" + DecimalText(n);
    }
    probes := n;
  }

  /** The first name tried is the slug; the n-th one has the number n behind a dash. */
  lemma {:induction false} CandidateMeans(slug: Str, n: nat)
    requires n >= 1
    ensures Candidate(slug, 1) == slug
    ensures n > 1 ==> exists digits ::
      && Candidate(slug, n) == slug + "-" + digits && digits != [] && digits[0] != '0'
      && (forall i :: 0 <= i < |digits| ==> '0' <= digits[i] <= '9') && TextValue(digits) == n
  {
    hide DecimalText;
    DecimalTextIs(n);
  }

  lemma {:induction false} FirstCandidate(slug: Str)
    ensures Candidate(slug, 1) == slug
  {
  }

  lemma {:induction false} NextCandidate(slug: Str, n: nat)
    requires n > 1
    ensures Candidate(slug, n) == slug + "-" + DecimalText(n)
  {
  }

  /** What the search yields can serve as a namespace: letters, digits and dashes only. */
  lemma {:induction false} CandidateOk(slug: Str, n: nat)
    requires n >= 1 && SlugOk(slug)
    ensures SlugOk(Candidate(slug, n))
  {
    hide DecimalText;
    DecimalTextDigits(n);
  }
}
