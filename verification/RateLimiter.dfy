/** The per-user token bucket, over the reals. */
module RateLimiter {
  import opened Bytes

  type User = int

  datatype Bucket = Bucket(tokens: real, last: real)

  function Min(a: real, b: real): real { if a <= b then a else b }

  /** Time from `a` to `b`; none if the clock reading `b` is the earlier one. */
  function Since(a: real, b: real): real { if a <= b then b - a else 0.0 }

  class RateLimiter {
    const rate: real
    const burst: real
    var buckets: map<User, Bucket>

    constructor (rate: real, burst: real)
      ensures this.rate == rate && this.burst == burst && buckets == map[]
    {
      this.rate, this.burst, buckets := rate, burst, map[];
    }

    /** `now` is read before the lock is taken, so calls need not come in the order of their times. */
    method Allow(user: User, now: real) returns (ok: bool)
      modifies this
      ensures buckets == old(buckets)[user := Next(rate, burst, Entry(old(buckets), user, burst, now), now)]
      ensures ok == Grants(rate, burst, Entry(old(buckets), user, burst, now), now)
    {
      var b := if user in buckets then buckets[user] else Bucket(burst, now);
      var elapsed := Since(b.last, now);
      var tokens := Min(b.tokens + elapsed * rate, burst);
      ok := tokens >= 1.0;
      if ok { tokens := tokens - 1.0; }
      buckets := buckets[user := Bucket(tokens, now)];
    }
  }

  // ---- one user's calls, in the order in which they get the lock ----

  function Entry(buckets: map<User, Bucket>, user: User, burst: real, now: real): Bucket {
    if user in buckets then buckets[user] else Bucket(burst, now)
  }

  /** The tokens that a span of time brings. */
  function Gain(span: real, rate: real): real { span * rate }

  function Refilled(rate: real, burst: real, b: Bucket, now: real): real {
    Min(b.tokens + Gain(Since(b.last, now), rate), burst)
  }

  predicate Grants(rate: real, burst: real, b: Bucket, now: real) { Refilled(rate, burst, b, now) >= 1.0 }

  function Next(rate: real, burst: real, b: Bucket, now: real): Bucket {
    Bucket(Refilled(rate, burst, b, now) - (if Grants(rate, burst, b, now) then 1.0 else 0.0), now)
  }

  /** The bucket after the first `k` calls. */
  function After(rate: real, burst: real, ts: seq<real>, k: nat): Bucket
    requires 0 < k <= |ts|
    decreases k
  {
    Next(rate, burst, if k == 1 then Bucket(burst, ts[0]) else After(rate, burst, ts, k - 1), ts[k - 1])
  }

  /** The tokens that call `k` finds. */
  function Tokens(rate: real, burst: real, ts: seq<real>, k: nat): real
    requires k < |ts|
  {
    Refilled(rate, burst, if k == 0 then Bucket(burst, ts[0]) else After(rate, burst, ts, k), ts[k])
  }

  predicate Admits(rate: real, burst: real, ts: seq<real>, k: nat)
    requires k < |ts|
  {
    Tokens(rate, burst, ts, k) >= 1.0
  }

  /** How many of the calls from `i` up to, not including, `j` were admitted. */
  function Admitted(rate: real, burst: real, ts: seq<real>, i: nat, j: nat): real
    requires i <= j <= |ts|
  {
    if i == j then 0.0
    else Admitted(rate, burst, ts, i, j - 1) + if Admits(rate, burst, ts, j - 1) then 1.0 else 0.0
  }

  /** How far the readings rose from call `i` to call `j`, setbacks not counted. */
  function Climb(ts: seq<real>, i: nat, j: nat): real
    requires i <= j < |ts|
  {
    if i == j then 0.0 else Climb(ts, i, j - 1) + if ts[j - 1] <= ts[j] then ts[j] - ts[j - 1] else 0.0
  }

  predicate InOrder(ts: seq<real>, i: nat, j: nat)
    requires i <= j < |ts|
  {
    forall k :: i < k <= j ==> ts[k - 1] <= ts[k]
  }

  /** The climb is the length of the window, or more if readings came out of order. */
  lemma {:induction false} ClimbIsLength(ts: seq<real>, i: nat, j: nat)
    requires i <= j < |ts|
    ensures Climb(ts, i, j) >= ts[j] - ts[i]
    ensures Climb(ts, i, j) == ts[j] - ts[i] <==> InOrder(ts, i, j)
    decreases j
  {
    if i < j {
      ClimbIsLength(ts, i, j - 1);
      if InOrder(ts, i, j) {
        assert ts[j - 1] <= ts[j];
        assert InOrder(ts, i, j - 1);
      }
    }
  }

  lemma {:induction false} TokensStep(rate: real, burst: real, ts: seq<real>, k: nat)
    requires 0 < k < |ts|
    ensures var left := Tokens(rate, burst, ts, k - 1) - (if Admits(rate, burst, ts, k - 1) then 1.0 else 0.0);
      Tokens(rate, burst, ts, k) == Min(left + Gain(Since(ts[k - 1], ts[k]), rate), burst)
  {
    hide Refilled, Gain;
    RefilledIs(rate, burst, After(rate, burst, ts, k), ts[k]);
  }

  lemma {:induction false} RefilledIs(rate: real, burst: real, b: Bucket, now: real)
    ensures Refilled(rate, burst, b, now) == Min(b.tokens + Gain(Since(b.last, now), rate), burst)
  {
  }

  /** What a call finds is at most what an earlier one found, less what was admitted, plus the refill. */
  lemma {:induction false} TokensSpent(rate: real, burst: real, ts: seq<real>, i: nat, j: nat)
    requires i <= j < |ts|
    ensures Tokens(rate, burst, ts, j) <= Tokens(rate, burst, ts, i) - Admitted(rate, burst, ts, i, j) + Gain(Climb(ts, i, j), rate)
    decreases j
  {
    hide Tokens, Gain;
    if i < j {
      TokensSpent(rate, burst, ts, i, j - 1);
      TokensStep(rate, burst, ts, j);
      Spread(Climb(ts, i, j - 1), Since(ts[j - 1], ts[j]), rate);
    } else {
      NoGain(rate);
    }
  }

  lemma {:induction false} Spread(a: real, b: real, rate: real)
    ensures Gain(a + b, rate) == Gain(a, rate) + Gain(b, rate)
  {
  }

  lemma {:induction false} NoGain(rate: real)
    ensures Gain(0.0, rate) == 0.0
  {
  }

  lemma {:induction false} TokensBounded(rate: real, burst: real, ts: seq<real>, k: nat)
    requires k < |ts| && rate >= 0.0 && burst >= 0.0
    ensures 0.0 <= Tokens(rate, burst, ts, k) <= burst
    decreases k
  {
    hide Tokens, Gain;
    if k > 0 {
      TokensBounded(rate, burst, ts, k - 1);
      TokensStep(rate, burst, ts, k);
      NotNegative(Since(ts[k - 1], ts[k]), rate);
    } else {
      FirstTokens(rate, burst, ts);
    }
  }

  lemma {:induction false} NotNegative(a: real, b: real)
    requires a >= 0.0 && b >= 0.0
    ensures Gain(a, b) >= 0.0
  {
  }

  lemma {:induction false} FirstTokens(rate: real, burst: real, ts: seq<real>)
    requires ts != []
    ensures Tokens(rate, burst, ts, 0) == burst
  {
    NoGain(rate);
  }

  /** Whatever the order of the readings, the calls from `i` to `j` that were admitted are at most the
      burst and the rate times the climb of the readings. */
  lemma {:induction false} ClimbBound(rate: real, burst: real, ts: seq<real>, i: nat, j: nat)
    requires i <= j < |ts| && rate >= 0.0 && burst >= 0.0
    ensures Admitted(rate, burst, ts, i, j + 1) <= burst + Gain(Climb(ts, i, j), rate)
  {
    hide Tokens, Gain;
    TokensSpent(rate, burst, ts, i, j);
    TokensBounded(rate, burst, ts, i);
    TokensBounded(rate, burst, ts, j);
  }

  /** If the readings come in order, every window admits at most burst + rate * length. */
  lemma {:induction false} WindowBound(rate: real, burst: real, ts: seq<real>, i: nat, j: nat)
    requires i <= j < |ts| && rate >= 0.0 && burst >= 0.0 && InOrder(ts, i, j)
    ensures Admitted(rate, burst, ts, i, j + 1) <= burst + Gain(ts[j] - ts[i], rate)
  {
    hide Gain, Climb, Admitted;
    ClimbBound(rate, burst, ts, i, j);
    ClimbIsLength(ts, i, j);
  }

  /** A call is refused iff some window that ends at it has used up the burst and the refill to
      less than one token. */
  lemma {:induction false} RefusedIffSpent(rate: real, burst: real, ts: seq<real>, j: nat)
    requires j < |ts| && rate >= 0.0 && burst >= 0.0
    ensures !Admits(rate, burst, ts, j) <==>
      exists i :: 0 <= i <= j && Admitted(rate, burst, ts, i, j) > burst + Gain(Climb(ts, i, j), rate) - 1.0
  {
    hide Tokens, Gain;
    if Admits(rate, burst, ts, j) {
      forall i | 0 <= i <= j ensures Admitted(rate, burst, ts, i, j) <= burst + Gain(Climb(ts, i, j), rate) - 1.0 {
        TokensSpent(rate, burst, ts, i, j);
        TokensBounded(rate, burst, ts, i);
      }
    } else {
      var i := LastFull(rate, burst, ts, j);
      assert Admitted(rate, burst, ts, i, j) > burst + Gain(Climb(ts, i, j), rate) - 1.0;
    }
  }

  lemma {:induction false} LastFull(rate: real, burst: real, ts: seq<real>, j: nat) returns (i: nat)
    requires j < |ts|
    ensures i <= j && Tokens(rate, burst, ts, j) == burst - Admitted(rate, burst, ts, i, j) + Gain(Climb(ts, i, j), rate)
    decreases j
  {
    hide Tokens, Gain;
    NoGain(rate);
    if j == 0 {
      FirstTokens(rate, burst, ts);
      i := 0;
    } else {
      TokensStep(rate, burst, ts, j);
      if Tokens(rate, burst, ts, j) == burst {
        i := j;
      } else {
        i := LastFull(rate, burst, ts, j - 1);
        Spread(Climb(ts, i, j - 1), Since(ts[j - 1], ts[j]), rate);
      }
    }
  }

  /** Out of order, the plain window bound fails: with rate and burst 1, readings 0, 1, 0, 1 admit
      three calls within one second. */
  lemma {:induction false} OutOfOrder()
    ensures var ts := [0.0, 1.0, 0.0, 1.0];
      Admitted(1.0, 1.0, ts, 0, 4) == 3.0 && 3.0 > 1.0 + Gain(ts[3] - ts[0], 1.0)
  {
    hide Tokens, Gain;
    var ts := [0.0, 1.0, 0.0, 1.0];
    NoGain(1.0);
    OneSecond();
    FirstTokens(1.0, 1.0, ts);
    TokensStep(1.0, 1.0, ts, 1);
    TokensStep(1.0, 1.0, ts, 2);
    TokensStep(1.0, 1.0, ts, 3);
    assert Admitted(1.0, 1.0, ts, 0, 1) == 1.0;
    assert Admitted(1.0, 1.0, ts, 0, 2) == 2.0;
    assert Admitted(1.0, 1.0, ts, 0, 3) == 2.0;
  }

  lemma {:induction false} OneSecond()
    ensures Gain(1.0, 1.0) == 1.0
  {
  }

  // ---- many users ----

  datatype Call = Call(user: User, now: real)

  function Run(rate: real, burst: real, calls: seq<Call>): map<User, Bucket> {
    if calls == [] then map[]
    else
      var m := Run(rate, burst, calls[..|calls| - 1]);
      var c := calls[|calls| - 1];
      m[c.user := Next(rate, burst, Entry(m, c.user, burst, c.now), c.now)]
  }

  function TimesOf(calls: seq<Call>, user: User): seq<real> {
    if calls == [] then []
    else TimesOf(calls[..|calls| - 1], user) + if calls[|calls| - 1].user == user then [calls[|calls| - 1].now] else []
  }

  lemma {:induction false} AfterPrefix(rate: real, burst: real, ts: seq<real>, us: seq<real>, k: nat)
    requires 0 < k <= |ts| && ts <= us
    ensures After(rate, burst, ts, k) == After(rate, burst, us, k)
    decreases k
  {
    if k > 1 { AfterPrefix(rate, burst, ts, us, k - 1); }
  }

  /** In any mix of users' calls, a user's bucket is what that user's own calls make it, and a call is
      granted exactly as if only that user had called. */
  lemma {:induction false} OwnCallsOnly(rate: real, burst: real, calls: seq<Call>, user: User, now: real)
    ensures var m, ts := Run(rate, burst, calls), TimesOf(calls, user);
      && (user in m <==> ts != []) && (user in m ==> m[user] == After(rate, burst, ts, |ts|))
      && (Grants(rate, burst, Entry(m, user, burst, now), now) <==> Admits(rate, burst, ts + [now], |ts|))
    decreases |calls|
  {
    hide Next, Refilled;
    var ts := TimesOf(calls, user);
    if calls != [] {
      var front, c := calls[..|calls| - 1], calls[|calls| - 1];
      OwnCallsOnly(rate, burst, front, user, now);
      var us := TimesOf(front, user);
      assert us + [] == us;
      if c.user == user && us != [] { AfterPrefix(rate, burst, us, ts, |us|); }
    }
    if ts != [] { AfterPrefix(rate, burst, ts, ts + [now], |ts|); }
  }
}
