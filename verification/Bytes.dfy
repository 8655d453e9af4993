/** Byte strings, and the small result types every component uses. */
module Bytes {

  type byte = b: int | 0 <= b < 256

  datatype Option<+T> = None | Some(value: T) {
    function GetOr(default: T): T {
      match this
      case Some(v) => v
      case None => default
    }
  }

  /** The bytes of an ASCII literal. */
  function Ascii(s: string): (r: seq<byte>)
    ensures |r| == |s|
  {
    seq(|s|, i requires 0 <= i < |s| => s[i] as int % 256)
  }

  /** The concatenation of a sequence of byte strings. */
  function Concat(parts: seq<seq<byte>>): seq<byte> {
    if parts == [] then [] else Concat(parts[..|parts| - 1]) + parts[|parts| - 1]
  }

  lemma {:induction false} ConcatAppend(a: seq<seq<byte>>, b: seq<seq<byte>>)
    ensures Concat(a + b) == Concat(a) + Concat(b)
    decreases |b|
  {
    if b == [] {
      assert a + b == a;
    } else {
      var front := b[..|b| - 1];
      ConcatAppend(a, front);
      assert (a + b)[..|a + b| - 1] == a + front;
    }
  }

  /** `prefix` starts `s`. */
  predicate StartsWith<T(==)>(s: seq<T>, prefix: seq<T>) {
    |prefix| <= |s| && s[..|prefix|] == prefix
  }

  predicate OccursAt<T(==)>(s: seq<T>, needle: seq<T>, i: nat) {
    i + |needle| <= |s| && s[i..i + |needle|] == needle
  }

  /** `needle` occurs somewhere in `s`. */
  predicate Contains<T(==)>(s: seq<T>, needle: seq<T>) {
    exists i :: 0 <= i <= |s| - |needle| && OccursAt(s, needle, i)
  }

  /** `d` shows `w` at position `p`, as far as `d` goes. */
  predicate Shows(d: seq<byte>, p: nat, w: seq<byte>) {
    forall i :: 0 <= i < |w| && p + i < |d| ==> d[p + i] == w[i]
  }

  lemma {:induction false} ShowsParts(d: seq<byte>, p: nat, a: seq<byte>, b: seq<byte>)
    requires Shows(d, p, a + b)
    ensures Shows(d, p, a) && Shows(d, p + |a|, b)
  {
    forall i | 0 <= i < |a| && p + i < |d| ensures d[p + i] == a[i] { assert (a + b)[i] == a[i]; }
    forall i | 0 <= i < |b| && p + |a| + i < |d| ensures d[p + |a| + i] == b[i] { assert (a + b)[|a| + i] == b[i]; }
  }

  lemma {:induction false} ShownSlice(d: seq<byte>, q: nat, w: seq<byte>, r: nat)
    requires Shows(d, q, w) && q <= r <= |d| && r <= q + |w|
    ensures d[q..r] == w[..r - q]
  {
    forall i | 0 <= i < r - q ensures d[q..r][i] == w[i] { assert d[q + i] == w[i]; }
  }
}
