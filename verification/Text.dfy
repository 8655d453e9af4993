/** The string operations the server uses, on sequences of Unicode scalar values. */
module Text {
  type Str = string

  /** Unicode White_Space. */
  predicate IsWhite(c: char) {
    var n := c as int;
    || 9 <= n <= 13 || n == 0x20 || n == 0x85 || n == 0xA0 || n == 0x1680 || 0x2000 <= n <= 0x200A
    || n == 0x2028 || n == 0x2029 || n == 0x202F || n == 0x205F || n == 0x3000
  }

  function TrimStart(s: Str): (r: Str)
    ensures |r| <= |s| && r == s[|s| - |r|..]
    ensures (r != [] ==> !IsWhite(r[0])) && forall i :: 0 <= i < |s| - |r| ==> IsWhite(s[i])
  {
    if s != [] && IsWhite(s[0]) then TrimStart(s[1..]) else s
  }

  function TrimEnd(s: Str): (r: Str)
    ensures |r| <= |s| && r == s[..|r|]
    ensures (r != [] ==> !IsWhite(r[|r| - 1])) && forall i :: |r| <= i < |s| ==> IsWhite(s[i])
  {
    if s != [] && IsWhite(s[|s| - 1]) then TrimEnd(s[..|s| - 1]) else s
  }

  function Trim(s: Str): Str { TrimEnd(TrimStart(s)) }

  function ToLower(c: char): char { if 'A' <= c <= 'Z' then c - 'A' + 'a' else c }

  /** Lower-casing, of ASCII letters. */
  function Lower(s: Str): (r: Str)
    ensures |r| == |s|
  {
    seq(|s|, i requires 0 <= i < |s| => ToLower(s[i]))
  }

  predicate EndsWith(s: Str, suffix: Str) { |suffix| <= |s| && s[|s| - |suffix|..] == suffix }

  /** All copies of `suffix` taken off the end. */
  function StripAll(s: Str, suffix: Str): (r: Str)
    requires suffix != []
    ensures |r| <= |s| && !EndsWith(r, suffix)
    decreases |s|
  {
    if EndsWith(s, suffix) then StripAll(s[..|s| - |suffix|], suffix) else s
  }

  /** Everything before the first `c`. */
  function Before(s: Str, c: char): (r: Str)
    ensures c !in r && r <= s && (r == s || s[|r|] == c)
  {
    if s == [] || s[0] == c then [] else [s[0]] + Before(s[1..], c)
  }

  /** The length in bytes of the UTF-8 form. */
  function ByteLen(s: Str): nat {
    if s == [] then 0
    else
      var n := s[|s| - 1] as int;
      ByteLen(s[..|s| - 1]) + if n < 0x80 then 1 else if n < 0x800 then 2 else if n < 0x10000 then 3 else 4
  }

  lemma {:induction false} ByteLenPrefix(a: Str, b: Str)
    requires a <= b
    ensures ByteLen(a) <= ByteLen(b) && (|a| < |b| ==> ByteLen(a) < ByteLen(b))
    decreases |b|
  {
    if |a| < |b| {
      ByteLenPrefix(a, b[..|b| - 1]);
    } else {
      assert a == b;
    }
  }

  /** Copies of `suffix`, `k` of them. */
  function Repeat(suffix: Str, k: nat): Str { if k == 0 then [] else Repeat(suffix, k - 1) + suffix }

  /** What stripping leaves: the string is the rest and copies of the suffix. */
  lemma {:induction false} StripAllMeans(s: Str, suffix: Str) returns (k: nat)
    requires suffix != []
    ensures s == StripAll(s, suffix) + Repeat(suffix, k) && (k == 0 <==> !EndsWith(s, suffix))
    decreases |s|
  {
    if EndsWith(s, suffix) {
      var t := s[..|s| - |suffix|];
      var j := StripAllMeans(t, suffix);
      k := j + 1;
      assert s == t + suffix;
      assert StripAll(t, suffix) + (Repeat(suffix, j) + suffix) == StripAll(t, suffix) + Repeat(suffix, j) + suffix;
    } else {
      k := 0;
    }
  }

  // ---- path prefixes ----

  function StripSlashes(s: Str): (r: Str)
    ensures r <= s && (|s| > 0 ==> |r| > 0) && (|r| > 1 ==> r[|r| - 1] != '/')
  {
    if |s| > 1 && s[|s| - 1] == '/' then StripSlashes(s[..|s| - 1]) else s
  }

  function Rooted(s: Str): (r: Str)
    ensures r != [] && r[0] == '/'
  {
    if s != [] && s[0] == '/' then s else "/" + s
  }

  /** A path prefix as the route table stores it. */
  function NormalizePrefix(p: Str): (r: Str)
    ensures r != [] && r[0] == '/' && (r == "/" || r[|r| - 1] != '/')
  {
    StripSlashes(Rooted(Trim(p)))
  }

  method Normalize(p: Str) returns (s: Str)
    ensures s == NormalizePrefix(p)
  {
    s := Trim(p);
    if !(s != [] && s[0] == '/') { s := "/" + s; }
    while |s| > 1 && s[|s| - 1] == '/'
      invariant s != [] && StripSlashes(s) == NormalizePrefix(p)
      decreases |s|
    {
      s := s[..|s| - 1];
    }
  }

  lemma {:induction false} TrimTight(s: Str)
    requires s != [] && !IsWhite(s[0])
    ensures Trim(s) == s <==> !IsWhite(s[|s| - 1])
  {
  }

  /** The slash in front is not one that is stripped behind. */
  lemma {:induction false} StripBehind(t: Str)
    requires t != [] && t[0] != '/'
    ensures StripSlashes("/" + t) == "/" + StripSlashes(t)
    decreases |t|
  {
    var s := "/" + t;
    assert s[|s| - 1] == t[|t| - 1];
    if |t| > 1 && t[|t| - 1] == '/' {
      assert s[..|s| - 1] == "/" + t[..|t| - 1];
      StripBehind(t[..|t| - 1]);
    }
  }

  /** The last character that normalising leaves is the one that is left before the slashes behind. */
  lemma {:induction false} LastLeft(p: Str, n: Str)
    requires n == NormalizePrefix(p)
    ensures Trim(p) == [] ==> n == "/"
    ensures Trim(p) != [] ==> StripSlashes(Trim(p)) != [] && n[|n| - 1] == StripSlashes(Trim(p))[|StripSlashes(Trim(p))| - 1]
  {
    hide Trim;
    var t := Trim(p);
    if t == [] {
      assert Rooted(t) == "/";
    } else if t[0] != '/' {
      StripBehind(t);
    }
  }

  lemma {:induction false} NormalAgain(n: Str)
    requires n != [] && n[0] == '/' && (n == "/" || n[|n| - 1] != '/')
    ensures NormalizePrefix(n) == n <==> !IsWhite(n[|n| - 1])
  {
    TrimTight(n);
    assert TrimStart(n) == n;
    if IsWhite(n[|n| - 1]) {
      assert |Trim(n)| < |n|;
      assert |n| > 1 && Trim(n) != [] ==> Trim(n)[0] == '/';
    }
  }

  /** Normalising twice changes nothing iff the trimmed text is empty or does not have white space
      before the slashes it ends with. */
  lemma {:induction false} NormalizeTwice(p: Str)
    ensures NormalizePrefix(NormalizePrefix(p)) == NormalizePrefix(p) <==>
      Trim(p) == [] || !IsWhite(StripSlashes(Trim(p))[|StripSlashes(Trim(p))| - 1])
  {
    hide Trim, StripSlashes, NormalizePrefix;
    LastLeft(p, NormalizePrefix(p));
    NormalAgain(NormalizePrefix(p));
  }

  lemma {:induction false} NormalizeTwiceFails()
    ensures NormalizePrefix("a /") == "/a " && NormalizePrefix("/a ") == "/a"
  {
    assert TrimStart("a /") == "a /" && TrimEnd("a /") == "a /";
    assert StripSlashes("/a /") == "/a " by { assert "/a /"[..3] == "/a "; }
    assert TrimStart("/a ") == "/a ";
    assert TrimEnd("/a ") == "/a" by { assert "/a "[..2] == "/a"; }
  }
}
