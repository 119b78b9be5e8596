/** The token-bucket limiters of RateLimitUtil: a hash of tokens and last check time that expires, one
    bucket alone or a burst and a steady bucket together. */
module TokenBucket {
  import opened Wrappers

  datatype Bucket = Bucket(tokens: real, last: real, deadline: real)

  type Key = Option<Bucket>

  datatype Config = Config(capacity: nat, rate: real)

  function Visible(k: Key, now: real): Key {
    if k.Some? && k.value.deadline <= now then None else k
  }

  function Min(x: real, y: real): real {
    if x <= y then x else y
  }

  function Ttl(c: Config): int
    requires c.rate > 0.0
  {
    (c.capacity as real / c.rate).Floor + 1
  }

  /** The rate times the length of a stretch: what a bucket gains in it unless it fills up. */
  function Earned(c: Config, since: real, now: real): real {
    (now - since) * c.rate
  }

  /** Tokens at `now`, before the check takes one. */
  function Refilled(c: Config, k: Key, now: real): real {
    match k
    case None => c.capacity as real
    case Some(b) => Min(c.capacity as real, b.tokens + Earned(c, b.last, now))
  }

  function Charged(c: Config, k: Key, now: real): (b: Bucket)
    requires c.rate > 0.0
  {
    var t := Refilled(c, k, now);
    Bucket(if t >= 1.0 then t - 1.0 else t, now, now + Ttl(c) as real)
  }

  class BucketKey {
    var key: Key

    constructor ()
      ensures key == None
    {
      key := None;
    }

    /** _check_single_bucket; check_bucket is the same with its own clock reading. */
    method Check(c: Config, now: real) returns (ok: bool, tokens: real)
      requires c.rate > 0.0
      modifies this
      ensures ok <==> Refilled(c, Visible(old(key), now), now) >= 1.0
      ensures key == Some(Charged(c, Visible(old(key), now), now)) && tokens == key.value.tokens
    {
      var seen := Visible(key, now);
      var last;
      if seen.Some? {
        tokens, last := seen.value.tokens, seen.value.last;
      } else {
        tokens, last := c.capacity as real, now;
      }
      var elapsed := now - last;
      assert seen == None ==> elapsed * c.rate == 0.0;
      tokens := Min(c.capacity as real, tokens + elapsed * c.rate);
      assert tokens == Refilled(c, seen, now);
      if tokens >= 1.0 {
        tokens := tokens - 1.0;
        key := Some(Bucket(tokens, now, now + Ttl(c) as real));
        return true, tokens;
      }
      key := Some(Bucket(tokens, now, now + Ttl(c) as real));
      return false, tokens;
    }
  }

  /** check_double_bucket: both buckets are charged, whatever the other says. */
  method CheckDouble(burst: BucketKey, steady: BucketKey, b: Config, s: Config, now: real) returns (ok: bool)
    requires b.rate > 0.0 && s.rate > 0.0 && burst != steady
    modifies burst, steady
    ensures ok <==> && Refilled(b, Visible(old(burst.key), now), now) >= 1.0
                    && Refilled(s, Visible(old(steady.key), now), now) >= 1.0
    ensures burst.key == Some(Charged(b, Visible(old(burst.key), now), now))
    ensures steady.key == Some(Charged(s, Visible(old(steady.key), now), now))
  {
    var burstOk, burstTokens := burst.Check(b, now);
    var steadyOk, steadyTokens := steady.Check(s, now);
    ok := burstOk && steadyOk;
  }

  // ---- runs: checks at the given times, from an absent key ----

  predicate Ordered(times: seq<real>) {
    forall i, j | 0 <= i <= j < |times| :: times[i] <= times[j]
  }

  /** The stored key after all the checks; `expires` says whether Redis honours the TTL. */
  function After(c: Config, times: seq<real>, expires: bool): Key
    requires c.rate > 0.0
    decreases |times|, 0
  {
    if |times| == 0 then None
    else
      var now := times[|times| - 1];
      Some(Charged(c, Seen(c, times[..|times| - 1], now, expires), now))
  }

  function Seen(c: Config, times: seq<real>, now: real, expires: bool): Key
    requires c.rate > 0.0
    decreases |times|, 1
  {
    var k := After(c, times, expires);
    if expires then Visible(k, now) else k
  }

  /** The verdict on the check at `times[i]`. */
  predicate Admitted(c: Config, times: seq<real>, i: nat, expires: bool)
    requires c.rate > 0.0 && i < |times|
  {
    Refilled(c, Seen(c, times[..i], times[i], expires), times[i]) >= 1.0
  }

  function Count(c: Config, times: seq<real>, lo: nat, hi: nat): nat
    requires c.rate > 0.0 && lo <= hi <= |times|
  {
    if lo == hi then 0
    else Count(c, times, lo, hi - 1) + if Admitted(c, times, hi - 1, true) then 1 else 0
  }

  // ---- arithmetic ----

  lemma MulMonotone(x: real, y: real, r: real)
    requires x <= y && r >= 0.0
    ensures x * r <= y * r
  {
  }

  lemma DivideThenMultiply(x: real, r: real)
    requires r > 0.0
    ensures x / r * r == x
  {
  }

  /** A key that has lapsed would have refilled completely. */
  lemma FullAfterTtl(c: Config, since: real, now: real)
    requires c.rate > 0.0 && now - since >= Ttl(c) as real
    ensures Earned(c, since, now) >= c.capacity as real
  {
    var q, d := c.capacity as real / c.rate, now - since;
    DivideThenMultiply(c.capacity as real, c.rate);
    assert q <= Ttl(c) as real <= d;
    MulMonotone(q, d, c.rate);
    assert Earned(c, since, now) == d * c.rate;
  }

  lemma ElapsedIsPositive(c: Config, lo: real, hi: real)
    requires c.rate > 0.0 && lo <= hi
    ensures Earned(c, lo, hi) >= 0.0
  {
  }

  // ---- the bucket stays between empty and full ----

  predicate KeyOk(c: Config, k: Key, now: real)
    requires c.rate > 0.0
  {
    k.Some? ==>
      && 0.0 <= k.value.tokens <= c.capacity as real
      && k.value.last <= now
      && k.value.deadline == k.value.last + Ttl(c) as real
  }

  lemma RefilledOk(c: Config, k: Key, now: real)
    requires c.rate > 0.0 && KeyOk(c, k, now)
    ensures 0.0 <= Refilled(c, k, now) <= c.capacity as real
    ensures KeyOk(c, Some(Charged(c, k, now)), now)
  {
    if k.Some? {
      ElapsedIsPositive(c, k.value.last, now);
    }
  }

  lemma {:induction false} AfterOk(c: Config, times: seq<real>, now: real, expires: bool)
    requires c.rate > 0.0 && Ordered(times) && (|times| > 0 ==> times[|times| - 1] <= now)
    ensures KeyOk(c, After(c, times, expires), now)
    decreases |times|
  {
    if |times| > 0 {
      var before, last := times[..|times| - 1], times[|times| - 1];
      AfterOk(c, before, last, expires);
      RefilledOk(c, Seen(c, before, last, expires), last);
    }
  }

  /** A key that has lapsed and one that has not refill alike. */
  lemma VisibleRefillsAlike(c: Config, k: Key, now: real)
    requires c.rate > 0.0 && KeyOk(c, k, now)
    ensures Refilled(c, Visible(k, now), now) == Refilled(c, k, now)
  {
    if k.Some? && k.value.deadline <= now {
      FullAfterTtl(c, k.value.last, now);
    }
  }

  // ---- main theorems ----

  /** A bucket that expires is, after every run, the bucket that never does. */
  lemma {:induction false} ExpiryLeavesBucket(c: Config, times: seq<real>)
    requires c.rate > 0.0 && Ordered(times)
    ensures After(c, times, true) == After(c, times, false)
    decreases |times|
  {
    if |times| > 0 {
      var before, now := times[..|times| - 1], times[|times| - 1];
      ExpiryLeavesBucket(c, before);
      AfterOk(c, before, now, false);
      VisibleRefillsAlike(c, After(c, before, false), now);
    }
  }

  /** Expiry after floor(capacity / rate) + 1 seconds changes no verdict, in any run. */
  lemma ExpiryChangesNoDecision(c: Config, times: seq<real>, i: nat)
    requires c.rate > 0.0 && Ordered(times) && i < |times|
    ensures Admitted(c, times, i, true) <==> Admitted(c, times, i, false)
  {
    ExpiryLeavesBucket(c, times[..i]);
    AfterOk(c, times[..i], times[i], false);
    VisibleRefillsAlike(c, After(c, times[..i], false), times[i]);
  }

  /** The key is kept while the bucket fills up, and gone a second later. */
  lemma KeptUntilFull(c: Config, times: seq<real>, now: real)
    requires c.rate > 0.0 && Ordered(times) && |times| > 0 && times[|times| - 1] <= now
    ensures now <= times[|times| - 1] + c.capacity as real / c.rate ==> Seen(c, times, now, true).Some?
    ensures now >= times[|times| - 1] + c.capacity as real / c.rate + 1.0 ==> Seen(c, times, now, true) == None
  {
    AfterOk(c, times, now, true);
    LastChecked(c, times);
  }

  lemma LastChecked(c: Config, times: seq<real>)
    requires c.rate > 0.0 && |times| > 0
    ensures After(c, times, true).value.last == times[|times| - 1]
  {
  }

  // ---- what a check finds is what the history leaves ----

  /** The tokens that the check at `times[i]` finds. */
  function Found(c: Config, times: seq<real>, i: nat): real
    requires c.rate > 0.0 && i < |times|
  {
    Refilled(c, Seen(c, times[..i], times[i], true), times[i])
  }

  /** The same without expiry. */
  lemma FoundWithoutExpiry(c: Config, times: seq<real>, i: nat)
    requires c.rate > 0.0 && Ordered(times) && i < |times|
    ensures Found(c, times, i) == Refilled(c, After(c, times[..i], false), times[i])
    ensures 0.0 <= Found(c, times, i) <= c.capacity as real
  {
    ExpiryLeavesBucket(c, times[..i]);
    AfterOk(c, times[..i], times[i], false);
    VisibleRefillsAlike(c, After(c, times[..i], false), times[i]);
    RefilledOk(c, After(c, times[..i], false), times[i]);
  }

  /** Each check finds what the one before found, less what that one took, plus the refill. */
  lemma FoundNext(c: Config, times: seq<real>, i: nat)
    requires c.rate > 0.0 && Ordered(times) && 0 < i < |times|
    ensures Found(c, times, i)
            == Min(c.capacity as real,
                   Found(c, times, i - 1) - (if Admitted(c, times, i - 1, true) then 1.0 else 0.0)
                   + Earned(c, times[i - 1], times[i]))
  {
    FoundWithoutExpiry(c, times, i);
    FoundWithoutExpiry(c, times, i - 1);
    assert times[..i][..i - 1] == times[..i - 1];
  }

  lemma SplitElapsed(c: Config, a: real, b: real, d: real)
    ensures Earned(c, a, d) == Earned(c, a, b) + Earned(c, b, d)
  {
  }

  /** What the admissions and the refill since `times[lo]` leave of a bucket that was full then. */
  function Budget(c: Config, times: seq<real>, lo: nat, i: nat): real
    requires c.rate > 0.0 && lo <= i < |times|
  {
    c.capacity as real + Earned(c, times[lo], times[i]) - Count(c, times, lo, i) as real
  }

  lemma BudgetNext(c: Config, times: seq<real>, lo: nat, i: nat)
    requires c.rate > 0.0 && lo < i < |times|
    ensures Budget(c, times, lo, i)
            == Budget(c, times, lo, i - 1) - (if Admitted(c, times, i - 1, true) then 1.0 else 0.0)
               + Earned(c, times[i - 1], times[i])
  {
    SplitElapsed(c, times[lo], times[i - 1], times[i]);
  }

  /** A check finds no more than the budget since any earlier check, and exactly the budget since one. */
  lemma {:induction false} FoundIsLeastBudget(c: Config, times: seq<real>, i: nat) returns (full: nat)
    requires c.rate > 0.0 && Ordered(times) && i < |times|
    ensures forall lo | 0 <= lo <= i :: Found(c, times, i) <= Budget(c, times, lo, i)
    ensures full <= i && Found(c, times, i) == Budget(c, times, full, i)
    decreases i
  {
    FoundWithoutExpiry(c, times, i);
    full := i;
    if i > 0 {
      var before := FoundIsLeastBudget(c, times, i - 1);
      FoundNext(c, times, i);
      forall lo | 0 <= lo < i
        ensures Found(c, times, i) <= Budget(c, times, lo, i)
      {
        BudgetNext(c, times, lo, i);
      }
      BudgetNext(c, times, before, i);
      if Found(c, times, i) != c.capacity as real {
        full := before;
      }
    }
  }

  /** Admitting the check at `times[i]` as well would exceed what a full bucket gives from `times[lo]` on. */
  predicate Exceeds(c: Config, times: seq<real>, lo: nat, i: nat)
    requires c.rate > 0.0 && i < |times|
  {
    lo <= i && Count(c, times, lo, i) as real + 1.0 > c.capacity as real + Earned(c, times[lo], times[i])
  }

  lemma ExceedsIsBudget(c: Config, times: seq<real>, lo: nat, i: nat)
    requires c.rate > 0.0 && lo <= i < |times|
    ensures Exceeds(c, times, lo, i) <==> Budget(c, times, lo, i) < 1.0
  {
  }

  /** The decision, exactly: in any run a check is refused if and only if admitting it would exceed, from
      some check up to it, the capacity plus the rate times the time since. */
  lemma RefusedExactly(c: Config, times: seq<real>, i: nat)
    requires c.rate > 0.0 && Ordered(times) && i < |times|
    ensures !Admitted(c, times, i, true) <==> exists lo: nat :: Exceeds(c, times, lo, i)
  {
    var full := FoundIsLeastBudget(c, times, i);
    assert Admitted(c, times, i, true) <==> Found(c, times, i) >= 1.0;
    forall lo: nat | lo <= i
      ensures Exceeds(c, times, lo, i) ==> Found(c, times, i) < 1.0
    {
      ExceedsIsBudget(c, times, lo, i);
    }
    ExceedsIsBudget(c, times, full, i);
  }

  /** In any run, the admissions among any stretch of checks are at most the capacity plus the rate
      times the stretch's length. */
  lemma AdmissionsBounded(c: Config, times: seq<real>, lo: nat, hi: nat)
    requires c.rate > 0.0 && Ordered(times) && lo < hi <= |times|
    ensures Count(c, times, lo, hi) as real <= c.capacity as real + Earned(c, times[lo], times[hi - 1])
  {
    var full := FoundIsLeastBudget(c, times, hi - 1);
    FoundWithoutExpiry(c, times, hi - 1);
    assert Found(c, times, hi - 1) <= Budget(c, times, lo, hi - 1);
  }

  lemma CountSplit(c: Config, times: seq<real>, lo: nat, mid: nat, hi: nat)
    requires c.rate > 0.0 && lo <= mid <= hi <= |times|
    ensures Count(c, times, lo, hi) == Count(c, times, lo, mid) + Count(c, times, mid, hi)
    ensures Count(c, times, mid, hi) <= hi - mid
    decreases hi
  {
    if mid < hi {
      CountSplit(c, times, lo, mid, hi - 1);
    }
  }

  /** A burst of as many checks as the capacity, however close together, is admitted in full when it is the
      first, or the pause before it is long enough to refill the bucket. */
  lemma BurstAdmitted(c: Config, times: seq<real>, first: nat, i: nat)
    requires c.rate > 0.0 && Ordered(times) && first <= i < |times| && i < first + c.capacity
    requires first > 0 ==> Earned(c, times[first - 1], times[first]) >= c.capacity as real
    ensures Admitted(c, times, i, true)
  {
    var full := FoundIsLeastBudget(c, times, i);
    assert Admitted(c, times, i, true) <==> Found(c, times, i) >= 1.0;
    ElapsedIsPositive(c, times[full], times[i]);
    if full >= first {
      CountSplit(c, times, full, full, i);
    } else {
      CountSplit(c, times, full, first, i);
      AdmissionsBounded(c, times, full, first);
      ElapsedIsPositive(c, times[first], times[i]);
      SplitElapsed(c, times[full], times[first - 1], times[first]);
      SplitElapsed(c, times[full], times[first], times[i]);
    }
  }

  /** No request is starved: 1 / rate after the previous check, however it went, one is admitted. */
  lemma AdmittedAfterPause(c: Config, times: seq<real>, i: nat)
    requires c.rate > 0.0 && c.capacity >= 1 && Ordered(times) && i < |times|
    requires i > 0 ==> Earned(c, times[i - 1], times[i]) >= 1.0
    ensures Admitted(c, times, i, true)
  {
    FoundWithoutExpiry(c, times, i);
    if i > 0 {
      FoundWithoutExpiry(c, times, i - 1);
      FoundNext(c, times, i);
    }
  }

  /** Admissions of a burst bucket and a steady bucket together. */
  function CountBoth(b: Config, s: Config, times: seq<real>, lo: nat, hi: nat): nat
    requires b.rate > 0.0 && s.rate > 0.0 && lo <= hi <= |times|
  {
    if lo == hi then 0
    else CountBoth(b, s, times, lo, hi - 1)
         + if Admitted(b, times, hi - 1, true) && Admitted(s, times, hi - 1, true) then 1 else 0
  }

  lemma {:induction false} BothAtMostEither(b: Config, s: Config, times: seq<real>, lo: nat, hi: nat)
    requires b.rate > 0.0 && s.rate > 0.0 && lo <= hi <= |times|
    ensures CountBoth(b, s, times, lo, hi) <= Count(b, times, lo, hi)
    ensures CountBoth(b, s, times, lo, hi) <= Count(s, times, lo, hi)
    decreases hi
  {
    if lo < hi {
      BothAtMostEither(b, s, times, lo, hi - 1);
    }
  }

  /** The double bucket obeys both bounds, hence the smaller. */
  lemma DoubleBounded(b: Config, s: Config, times: seq<real>, lo: nat, hi: nat)
    requires b.rate > 0.0 && s.rate > 0.0 && Ordered(times) && lo < hi <= |times|
    ensures CountBoth(b, s, times, lo, hi) as real
            <= Min(b.capacity as real + Earned(b, times[lo], times[hi - 1]),
                   s.capacity as real + Earned(s, times[lo], times[hi - 1]))
  {
    BothAtMostEither(b, s, times, lo, hi);
    AdmissionsBounded(b, times, lo, hi);
    AdmissionsBounded(s, times, lo, hi);
  }
}
