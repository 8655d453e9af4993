/** Decimal digits, written and read. */
module Decimals {
  import opened Bytes

  predicate IsDigit(c: byte) { 48 <= c <= 57 }

  function DecRun(s: seq<byte>, i: nat, acc: nat): nat
    decreases |s| - i
  {
    if i < |s| && IsDigit(s[i]) then DecRun(s, i + 1, 10 * acc + (s[i] - 48)) else acc
  }

  /** A number in decimal digits. */
  function Decimal(n: nat): (s: seq<byte>)
    ensures |s| > 0
  {
    if n < 10 then [48 + n] else Decimal(n / 10) + [48 + n % 10]
  }

  lemma {:induction false} DecimalDigits(n: nat)
    ensures forall i :: 0 <= i < |Decimal(n)| ==> IsDigit(Decimal(n)[i])
  {
    if n >= 10 { DecimalDigits(n / 10); }
  }

  /** Digits before position `i` are already in `acc`. */
  lemma {:induction false} DecRunSplit(a: seq<byte>, b: seq<byte>, i: nat, acc: nat)
    requires i <= |a| && forall j :: 0 <= j < |a| ==> IsDigit(a[j])
    ensures DecRun(a + b, i, acc) == DecRun(a + b, |a|, DecRun(a, i, acc))
    decreases |a| - i
  {
    if i < |a| { DecRunSplit(a, b, i + 1, 10 * acc + (a[i] - 48)); }
  }

  lemma {:induction false} DecimalIsRead(n: nat)
    ensures DecRun(Decimal(n), 0, 0) == n
  {
    if n >= 10 {
      var a, b := Decimal(n / 10), [48 + n % 10];
      DecimalIsRead(n / 10);
      DecimalDigits(n / 10);
      DecRunSplit(a, b, 0, 0);
      assert DecRun(a + b, |a| + 1, 10 * (n / 10) + n % 10) == n;
    } else {
      assert DecRun([48 + n], 1, n) == n;
    }
  }
}
