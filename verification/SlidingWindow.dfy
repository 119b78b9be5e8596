/** The sliding-window limiter of RateLimitUtil: a sorted set of whole-second stamps with a TTL. A
    check is two atomic pipelines (trim and count, then add and expire), so checks may overlap. */
module SlidingWindow {
  import opened Wrappers

  /** `deadline` is the key's TTL; a lapsed key reads as empty. */
  datatype ZKey = ZKey(scores: seq<int>, deadline: Option<real>)

  const NoKey := ZKey([], None)

  function Live(k: ZKey, now: real): seq<int> {
    if k.deadline.Some? && k.deadline.value <= now then [] else k.scores
  }

  /** zremrangebyscore 0..start: keeps the scores above `start`. */
  function Trim(scores: seq<int>, start: int): seq<int> {
    if |scores| == 0 then []
    else
      var rest := Trim(scores[..|scores| - 1], start);
      if 0 <= scores[|scores| - 1] <= start then rest else rest + [scores[|scores| - 1]]
  }

  /** How many stamps lie in (lo, hi]. */
  function CountIn(stamps: seq<int>, lo: int, hi: int): nat {
    if |stamps| == 0 then 0
    else CountIn(stamps[..|stamps| - 1], lo, hi) + if lo < stamps[|stamps| - 1] <= hi then 1 else 0
  }

  function Counted(k: ZKey, now: real, window: int): seq<int> {
    Trim(Live(k, now), now.Floor - window)
  }

  class RateKey {
    var key: ZKey

    constructor ()
      ensures key == NoKey
    {
      key := NoKey;
    }

    /** First pipeline: zremrangebyscore, zcard. */
    method TrimAndCount(now: real, window: int) returns (count: nat)
      modifies this
      ensures Live(key, now) == Counted(old(key), now, window)
      ensures count == |Counted(old(key), now, window)|
      ensures key.deadline == old(key.deadline)
    {
      key := key.(scores := Counted(key, now, window));
      count := |key.scores|;
      assert Live(key, now) == key.scores || key.scores == [];
    }

    /** Second pipeline: zadd, expire. */
    method AddAndExpire(stamp: int, now: real, window: int)
      modifies this
      ensures key == ZKey(Live(old(key), now) + [stamp], Some(now + window as real))
    {
      key := ZKey(Live(key, now) + [stamp], Some(now + window as real));
    }

    /** check_sliding_window, uninterrupted: admits exactly when get_remaining would be positive. */
    method CheckSlidingWindow(limit: int, now: real, window: int) returns (ok: bool, count: int)
      modifies this
      ensures ok <==> Remaining(old(key), limit, now, window) > 0
      ensures count == |Counted(old(key), now, window)| + if ok then 1 else 0
      ensures ok ==> key == ZKey(Counted(old(key), now, window) + [now.Floor], Some(now + window as real))
      ensures !ok ==> Live(key, now) == Counted(old(key), now, window)
    {
      count := TrimAndCount(now, window);
      if count >= limit {
        return false, count;
      }
      AddAndExpire(now.Floor, now, window);
      return true, count + 1;
    }

    method GetRemaining(limit: int, now: real, window: int) returns (left: int)
      modifies this
      ensures left == Remaining(old(key), limit, now, window)
      ensures Live(key, now) == Counted(old(key), now, window)
    {
      var count := TrimAndCount(now, window);
      left := if limit - count > 0 then limit - count else 0;
    }
  }

  function Remaining(k: ZKey, limit: int, now: real, window: int): int {
    var left := limit - |Counted(k, now, window)|;
    if left > 0 then left else 0
  }

  // ---- overlapping checks ----

  /** `pending` holds the clock readings of checks that passed the count and have not added yet,
      `admitted` those of all finished admissions. */
  datatype State = State(now: real, key: ZKey, pending: seq<real>, admitted: seq<real>)

  const Start := State(0.0, NoKey, [], [])

  datatype Config = Config(limit: int, window: int, overlap: nat)

  datatype Event = Tick(d: real) | Begin | Finish(i: nat) | Drop(i: nat) | Ask

  /** At most `overlap` checks are between their two pipelines at any time. */
  predicate Possible(c: Config, s: State, e: Event) {
    match e
    case Tick(d) => d >= 0.0
    case Begin => |s.pending| < c.overlap
    case Finish(i) => i < |s.pending|
    case Drop(i) => i < |s.pending|
    case Ask => true
  }

  function Without(s: seq<real>, i: nat): seq<real>
    requires i < |s|
  {
    s[..i] + s[i + 1..]
  }

  function Next(c: Config, s: State, e: Event): State
    requires Possible(c, s, e)
  {
    var kept := s.key.(scores := Counted(s.key, s.now, c.window));
    match e
    case Tick(d) => s.(now := s.now + d)
    case Begin =>
      if |kept.scores| < c.limit then s.(key := kept, pending := s.pending + [s.now]) else s.(key := kept)
    case Finish(i) =>
      s.(key := ZKey(Live(s.key, s.now) + [s.pending[i].Floor], Some(s.now + c.window as real)),
         pending := Without(s.pending, i), admitted := s.admitted + [s.pending[i]])
    case Drop(i) => s.(pending := Without(s.pending, i))
    case Ask => s.(key := kept)
  }

  predicate Run(c: Config, s: State, es: seq<Event>)
    decreases |es|
  {
    |es| > 0 ==> Possible(c, s, es[0]) && Run(c, Next(c, s, es[0]), es[1..])
  }

  function Exec(c: Config, s: State, es: seq<Event>): State
    requires Run(c, s, es)
    decreases |es|
  {
    if |es| == 0 then s else Exec(c, Next(c, s, es[0]), es[1..])
  }

  function Stamps(times: seq<real>): seq<int> {
    if |times| == 0 then [] else Stamps(times[..|times| - 1]) + [times[|times| - 1].Floor]
  }

  // ---- counting facts ----

  lemma CountAppend(s: seq<int>, x: int, lo: int, hi: int)
    ensures CountIn(s + [x], lo, hi) == CountIn(s, lo, hi) + if lo < x <= hi then 1 else 0
  {
    assert (s + [x])[..|s|] == s;
  }

  lemma StampsAppend(times: seq<real>, x: real)
    ensures Stamps(times + [x]) == Stamps(times) + [x.Floor]
  {
    assert (times + [x])[..|times|] == times;
  }

  lemma {:induction false} CountConcat(s: seq<int>, u: seq<int>, lo: int, hi: int)
    ensures CountIn(s + u, lo, hi) == CountIn(s, lo, hi) + CountIn(u, lo, hi)
  {
    if |u| == 0 {
      assert s + u == s;
    } else {
      assert (s + u)[..|s + u| - 1] == s + u[..|u| - 1];
      CountConcat(s, u[..|u| - 1], lo, hi);
    }
  }

  lemma {:induction false} StampsConcat(s: seq<real>, u: seq<real>)
    ensures Stamps(s + u) == Stamps(s) + Stamps(u)
  {
    if |u| == 0 {
      assert s + u == s;
    } else {
      assert (s + u)[..|s + u| - 1] == s + u[..|u| - 1];
      StampsConcat(s, u[..|u| - 1]);
    }
  }

  lemma CountWithout(times: seq<real>, i: nat, lo: int, hi: int)
    requires i < |times|
    ensures CountIn(Stamps(Without(times, i)), lo, hi) + (if lo < times[i].Floor <= hi then 1 else 0)
            == CountIn(Stamps(times), lo, hi)
  {
    var before, after := times[..i], times[i + 1..];
    assert times == before + ([times[i]] + after);
    StampsConcat(before, after);
    StampsConcat(before, [times[i]] + after);
    StampsConcat([times[i]], after);
    CountConcat(Stamps(before), Stamps(after), lo, hi);
    CountConcat(Stamps(before), Stamps([times[i]] + after), lo, hi);
    CountConcat(Stamps([times[i]]), Stamps(after), lo, hi);
    StampsAppend([], times[i]);
    assert [] + [times[i]] == [times[i]];
    CountAppend([], times[i].Floor, lo, hi);
    assert [] + [times[i].Floor] == [times[i].Floor];
  }

  /** Trimming up to `start` changes no count above it. */
  lemma {:induction false} TrimCount(s: seq<int>, start: int, lo: int, hi: int)
    requires start <= lo
    ensures CountIn(Trim(s, start), lo, hi) == CountIn(s, lo, hi)
  {
    if |s| > 0 {
      TrimCount(s[..|s| - 1], start, lo, hi);
      CountAppend(Trim(s[..|s| - 1], start), s[|s| - 1], lo, hi);
    }
  }

  predicate Within(s: seq<int>, lo: int, hi: int) {
    forall i | 0 <= i < |s| :: lo <= s[i] <= hi
  }

  predicate TimesWithin(times: seq<real>, hi: real) {
    forall i | 0 <= i < |times| :: 0.0 <= times[i] <= hi
  }

  /** What is left after trimming is exactly what lies above `start`. */
  lemma {:induction false} TrimSize(s: seq<int>, start: int, hi: int)
    requires Within(s, 0, hi)
    ensures |Trim(s, start)| == CountIn(s, start, hi)
    ensures Within(Trim(s, start), 0, hi)
  {
    if |s| > 0 {
      TrimSize(s[..|s| - 1], start, hi);
    }
  }

  lemma {:induction false} CountMonotone(s: seq<int>, lo: int, hi: int, lo': int, hi': int)
    requires lo' <= lo && hi <= hi'
    ensures CountIn(s, lo, hi) <= CountIn(s, lo', hi')
  {
    if |s| > 0 {
      CountMonotone(s[..|s| - 1], lo, hi, lo', hi');
    }
  }

  lemma {:induction false} CountAtMostSize(s: seq<int>, lo: int, hi: int)
    ensures CountIn(s, lo, hi) <= |s|
  {
    if |s| > 0 {
      CountAtMostSize(s[..|s| - 1], lo, hi);
    }
  }

  lemma {:induction false} CountNone(s: seq<int>, lo: int, hi: int)
    requires Within(s, 0, lo)
    ensures CountIn(s, lo, hi) == 0
  {
    if |s| > 0 {
      CountNone(s[..|s| - 1], lo, hi);
    }
  }

  /** Stamps above `hi` do not exist, so raising the upper end changes nothing. */
  lemma {:induction false} CountCapped(s: seq<int>, lo: int, hi: int, hi': int)
    requires hi <= hi' && Within(s, 0, hi)
    ensures CountIn(s, lo, hi) == CountIn(s, lo, hi')
  {
    if |s| > 0 {
      CountCapped(s[..|s| - 1], lo, hi, hi');
    }
  }

  lemma {:induction false} StampsBounded(times: seq<real>, now: real)
    requires TimesWithin(times, now)
    ensures |Stamps(times)| == |times|
    ensures Within(Stamps(times), 0, now.Floor)
  {
    if |times| > 0 {
      StampsBounded(times[..|times| - 1], now);
    }
  }

  // ---- invariant ----

  predicate ClockOk(s: State) {
    && s.now >= 0.0
    && TimesWithin(s.pending, s.now)
    && TimesWithin(s.admitted, s.now)
    && Within(s.key.scores, 0, s.now.Floor)
  }

  /** The key outlives every admission by a full window. */
  predicate DeadlineOk(c: Config, s: State) {
    if s.key.deadline == None then s.key.scores == [] && s.admitted == []
    else
      && s.key.deadline.value <= s.now + c.window as real
      && TimesWithin(s.admitted, s.key.deadline.value - c.window as real)
  }

  /** Whatever the TTL did, the key still shows every admission of the last `window` seconds. */
  ghost predicate Shows(c: Config, s: State) {
    forall lo: int | lo >= s.now.Floor - c.window ::
      CountIn(Live(s.key, s.now), lo, s.now.Floor) == CountIn(Stamps(s.admitted), lo, s.now.Floor)
  }

  /** Admissions finished or under way with stamps in (lo, lo + window]. */
  function Load(c: Config, s: State, lo: int): nat {
    CountIn(Stamps(s.admitted), lo, lo + c.window) + CountIn(Stamps(s.pending), lo, lo + c.window)
  }

  function Cap(c: Config): int {
    if c.limit >= 1 then c.limit - 1 + c.overlap else 0
  }

  ghost predicate Bounded(c: Config, s: State) {
    forall lo: int :: Load(c, s, lo) <= Cap(c)
  }

  ghost predicate Inv(c: Config, s: State) {
    ClockOk(s) && DeadlineOk(c, s) && |s.pending| <= c.overlap && Shows(c, s) && Bounded(c, s)
  }

  /** The count a check acts on is the number of admissions in the last `window` seconds. */
  lemma CountIsHistory(c: Config, s: State)
    requires Inv(c, s)
    ensures |Counted(s.key, s.now, c.window)| == CountIn(Stamps(s.admitted), s.now.Floor - c.window, s.now.Floor)
  {
    TrimSize(Live(s.key, s.now), s.now.Floor - c.window, s.now.Floor);
  }

  lemma TickKeepsShows(c: Config, s: State, d: real)
    requires Inv(c, s) && d >= 0.0 && c.window >= 1
    ensures Shows(c, s.(now := s.now + d))
  {
    var n := s.(now := s.now + d);
    StampsBounded(s.admitted, s.now);
    forall lo: int | lo >= n.now.Floor - c.window
      ensures CountIn(Live(n.key, n.now), lo, n.now.Floor) == CountIn(Stamps(n.admitted), lo, n.now.Floor)
    {
      if Live(n.key, n.now) == Live(s.key, s.now) {
        CountCapped(Live(s.key, s.now), lo, s.now.Floor, n.now.Floor);
        CountCapped(Stamps(s.admitted), lo, s.now.Floor, n.now.Floor);
      } else {
        StampsBounded(s.admitted, s.key.deadline.value - c.window as real);
        CountNone(Stamps(s.admitted), lo, n.now.Floor);
      }
    }
  }

  lemma TrimKeepsShows(c: Config, s: State, n: State)
    requires Inv(c, s)
    requires n == s.(key := s.key.(scores := Counted(s.key, s.now, c.window)), pending := n.pending)
    ensures Shows(c, n)
    ensures Within(n.key.scores, 0, s.now.Floor)
  {
    TrimSize(Live(s.key, s.now), s.now.Floor - c.window, s.now.Floor);
    forall lo: int | lo >= s.now.Floor - c.window
      ensures CountIn(Live(n.key, n.now), lo, n.now.Floor) == CountIn(Stamps(n.admitted), lo, n.now.Floor)
    {
      TrimCount(Live(s.key, s.now), s.now.Floor - c.window, lo, s.now.Floor);
      assert Live(n.key, n.now) == n.key.scores || n.key.scores == [];
    }
  }

  /** Windows that hold the present: the limit bounds what is admitted, the overlap what is pending. */
  lemma LoadNow(c: Config, s: State, pending: seq<int>, lo: int)
    requires Inv(c, s) && c.window >= 1 && |pending| <= c.overlap
    requires |Counted(s.key, s.now, c.window)| < c.limit
    requires lo < s.now.Floor <= lo + c.window
    ensures CountIn(Stamps(s.admitted), lo, lo + c.window) + CountIn(pending, lo, lo + c.window) <= Cap(c)
  {
    var at, times := s.now.Floor, Stamps(s.admitted);
    CountIsHistory(c, s);
    StampsBounded(s.admitted, s.now);
    CountCapped(times, lo, at, lo + c.window);
    CountMonotone(times, lo, at, at - c.window, at);
    CountAtMostSize(pending, lo, lo + c.window);
  }

  lemma BeginKeepsBound(c: Config, s: State)
    requires Inv(c, s) && Possible(c, s, Begin) && c.window >= 1
    requires |Counted(s.key, s.now, c.window)| < c.limit
    ensures Bounded(c, Next(c, s, Begin))
  {
    var n := Next(c, s, Begin);
    StampsBounded(n.pending, s.now);
    StampsAppend(s.pending, s.now);
    forall lo: int
      ensures Load(c, n, lo) <= Cap(c)
    {
      if lo < s.now.Floor <= lo + c.window {
        LoadNow(c, s, Stamps(n.pending), lo);
      } else {
        CountAppend(Stamps(s.pending), s.now.Floor, lo, lo + c.window);
        assert Load(c, s, lo) <= Cap(c);
      }
    }
  }

  lemma FinishKeepsBound(c: Config, s: State, i: nat)
    requires Bounded(c, s) && i < |s.pending|
    ensures Bounded(c, Next(c, s, Finish(i))) && Bounded(c, Next(c, s, Drop(i)))
  {
    var n, d := Next(c, s, Finish(i)), Next(c, s, Drop(i));
    StampsAppend(s.admitted, s.pending[i]);
    forall lo: int
      ensures Load(c, n, lo) <= Cap(c) && Load(c, d, lo) <= Cap(c)
    {
      assert Load(c, s, lo) <= Cap(c);
      CountAppend(Stamps(s.admitted), s.pending[i].Floor, lo, lo + c.window);
      CountWithout(s.pending, i, lo, lo + c.window);
    }
  }

  lemma FinishKeepsShows(c: Config, s: State, i: nat)
    requires Inv(c, s) && i < |s.pending| && c.window >= 1
    ensures Shows(c, Next(c, s, Finish(i)))
  {
    var n := Next(c, s, Finish(i));
    var x := s.pending[i].Floor;
    StampsAppend(s.admitted, s.pending[i]);
    forall lo: int | lo >= n.now.Floor - c.window
      ensures CountIn(Live(n.key, n.now), lo, n.now.Floor) == CountIn(Stamps(n.admitted), lo, n.now.Floor)
    {
      CountAppend(Live(s.key, s.now), x, lo, s.now.Floor);
      CountAppend(Stamps(s.admitted), x, lo, s.now.Floor);
    }
  }

  lemma FinishKeepsClock(c: Config, s: State, i: nat)
    requires ClockOk(s) && i < |s.pending| && c.window >= 1
    ensures ClockOk(Next(c, s, Finish(i))) && DeadlineOk(c, Next(c, s, Finish(i)))
    ensures ClockOk(Next(c, s, Drop(i)))
  {
  }

  lemma BoundFrame(c: Config, s: State, n: State)
    requires Bounded(c, s) && n.admitted == s.admitted && n.pending == s.pending
    ensures Bounded(c, n)
  {
    forall lo: int
      ensures Load(c, n, lo) <= Cap(c)
    {
      assert Load(c, s, lo) <= Cap(c);
    }
  }

  lemma NextKeepsInv(c: Config, s: State, e: Event)
    requires Inv(c, s) && Possible(c, s, e) && c.window >= 1
    ensures Inv(c, Next(c, s, e))
  {
    match e
    case Tick(d) =>
      TickKeepsShows(c, s, d);
      BoundFrame(c, s, Next(c, s, e));
    case Begin =>
      TrimKeepsShows(c, s, Next(c, s, e));
      if |Counted(s.key, s.now, c.window)| < c.limit {
        BeginKeepsBound(c, s);
      } else {
        BoundFrame(c, s, Next(c, s, e));
      }
    case Finish(i) =>
      FinishKeepsClock(c, s, i);
      FinishKeepsBound(c, s, i);
      FinishKeepsShows(c, s, i);
    case Drop(i) =>
      FinishKeepsClock(c, s, i);
      FinishKeepsBound(c, s, i);
    case Ask =>
      TrimKeepsShows(c, s, Next(c, s, e));
      BoundFrame(c, s, Next(c, s, e));
  }

  lemma {:induction false} RunKeepsInv(c: Config, s: State, es: seq<Event>)
    requires Inv(c, s) && Run(c, s, es) && c.window >= 1
    ensures Inv(c, Exec(c, s, es))
    decreases |es|
  {
    if |es| > 0 {
      NextKeepsInv(c, s, es[0]);
      RunKeepsInv(c, Next(c, s, es[0]), es[1..]);
    }
  }

  lemma RunFromStart(c: Config, es: seq<Event>)
    requires Run(c, Start, es) && c.window >= 1
    ensures Inv(c, Exec(c, Start, es))
  {
    forall lo: int
      ensures Load(c, Start, lo) <= Cap(c)
    {
    }
    RunKeepsInv(c, Start, es);
  }

  // ---- main theorems ----

  /** In any run, any `window` consecutive seconds carry at most `limit` admission stamps when checks
      do not overlap, and at most `overlap - 1` more when that many may be between their pipelines. */
  lemma AdmissionsBounded(c: Config, es: seq<Event>, lo: int)
    requires Run(c, Start, es) && c.window >= 1
    ensures CountIn(Stamps(Exec(c, Start, es).admitted), lo, lo + c.window)
            <= if c.limit >= 1 then c.limit - 1 + c.overlap else 0
  {
    RunFromStart(c, es);
    assert Load(c, Exec(c, Start, es), lo) <= Cap(c);
  }

  /** The TTL never changes a decision: in any run a check admits exactly when the admissions stamped
      in the last `window` seconds are fewer than the limit, which is when get_remaining is positive. */
  lemma DecisionIsHistory(c: Config, es: seq<Event>)
    requires Run(c, Start, es) && c.window >= 1 && Possible(c, Exec(c, Start, es), Begin)
    ensures var s := Exec(c, Start, es);
            var recent := CountIn(Stamps(s.admitted), s.now.Floor - c.window, s.now.Floor);
            && (|Next(c, s, Begin).pending| > |s.pending| <==> recent < c.limit)
            && Remaining(s.key, c.limit, s.now, c.window) == if recent < c.limit then c.limit - recent else 0
  {
    RunFromStart(c, es);
    CountIsHistory(c, Exec(c, Start, es));
  }

  /** How many instants lie in [a, b]. */
  function CountBetween(times: seq<real>, a: real, b: real): nat {
    if |times| == 0 then 0
    else CountBetween(times[..|times| - 1], a, b) + if a <= times[|times| - 1] <= b then 1 else 0
  }

  lemma {:induction false} BetweenByStamps(times: seq<real>, a: real, b: real)
    ensures CountBetween(times, a, b) <= CountIn(Stamps(times), a.Floor - 1, b.Floor)
  {
    if |times| > 0 {
      BetweenByStamps(times[..|times| - 1], a, b);
      StampsAppend(times[..|times| - 1], times[|times| - 1]);
      CountAppend(Stamps(times[..|times| - 1]), times[|times| - 1].Floor, a.Floor - 1, b.Floor);
    }
  }

  /** In real time the bound is only good for intervals of length `window - 1`, because stamps are cut
      to whole seconds. */
  lemma RealIntervalsBounded(c: Config, es: seq<Event>, a: real, b: real)
    requires Run(c, Start, es) && c.window >= 1 && a <= b <= a + (c.window - 1) as real
    ensures CountBetween(Exec(c, Start, es).admitted, a, b)
            <= if c.limit >= 1 then c.limit - 1 + c.overlap else 0
  {
    var times := Exec(c, Start, es).admitted;
    BetweenByStamps(times, a, b);
    AdmissionsBounded(c, es, a.Floor - 1);
    CountMonotone(Stamps(times), a.Floor - 1, b.Floor, a.Floor - 1, a.Floor - 1 + c.window);
  }

  lemma {:induction false} RunConcat(c: Config, s: State, es: seq<Event>, fs: seq<Event>)
    requires Run(c, s, es) && Run(c, Exec(c, s, es), fs)
    ensures Run(c, s, es + fs) && Exec(c, s, es + fs) == Exec(c, Exec(c, s, es), fs)
    decreases |es|
  {
    if |es| == 0 {
      assert es + fs == fs;
    } else {
      assert (es + fs)[0] == es[0] && (es + fs)[1..] == es[1..] + fs;
      RunConcat(c, Next(c, s, es[0]), es[1..], fs);
    }
  }

  lemma RunOne(c: Config, s: State, e: Event)
    requires Possible(c, s, e)
    ensures Run(c, s, [e]) && Exec(c, s, [e]) == Next(c, s, e)
  {
    assert [e][1..] == [];
    assert Run(c, Next(c, s, e), []);
  }

  // ---- the bounds are attained, for every limit, window and overlap ----

  function Repeat(x: real, n: nat): seq<real> {
    if n == 0 then [] else Repeat(x, n - 1) + [x]
  }

  lemma {:induction false} RepeatSize(x: real, n: nat)
    ensures |Repeat(x, n)| == n && forall i | 0 <= i < n :: Repeat(x, n)[i] == x
  {
    if n > 0 {
      RepeatSize(x, n - 1);
    }
  }

  lemma RepeatStep(times: seq<real>, x: real, n: nat)
    requires n > 0
    ensures times + Repeat(x, n) == times + Repeat(x, n - 1) + [x]
  {
  }

  lemma BetweenAppend(times: seq<real>, x: real, a: real, b: real)
    ensures CountBetween(times + [x], a, b) == CountBetween(times, a, b) + if a <= x <= b then 1 else 0
  {
    assert (times + [x])[..|times|] == times;
  }

  lemma {:induction false} BetweenRepeat(times: seq<real>, x: real, n: nat, a: real, b: real)
    requires a <= x <= b
    ensures CountBetween(times + Repeat(x, n), a, b) == CountBetween(times, a, b) + n
  {
    if n == 0 {
      assert times + [] == times;
    } else {
      BetweenRepeat(times, x, n - 1, a, b);
      RepeatStep(times, x, n);
      BetweenAppend(times + Repeat(x, n - 1), x, a, b);
    }
  }

  lemma CountStamp(times: seq<real>, x: real, lo: int, hi: int)
    ensures CountIn(Stamps(times + [x]), lo, hi) == CountIn(Stamps(times), lo, hi) + if lo < x.Floor <= hi then 1 else 0
  {
    StampsAppend(times, x);
    CountAppend(Stamps(times), x.Floor, lo, hi);
  }

  lemma {:induction false} StampsRepeat(times: seq<real>, x: real, n: nat, lo: int, hi: int)
    requires lo < x.Floor <= hi
    ensures CountIn(Stamps(times + Repeat(x, n)), lo, hi) == CountIn(Stamps(times), lo, hi) + n
  {
    if n == 0 {
      assert times + [] == times;
    } else {
      StampsRepeat(times, x, n - 1, lo, hi);
      RepeatStep(times, x, n);
      CountStamp(times + Repeat(x, n - 1), x, lo, hi);
    }
  }

  lemma TrimAppend(s: seq<int>, x: int, start: int)
    requires x > start
    ensures Trim(s + [x], start) == Trim(s, start) + [x]
  {
    assert (s + [x])[..|s|] == s;
  }

  lemma {:induction false} TrimAgain(s: seq<int>, start: int)
    ensures Trim(Trim(s, start), start) == Trim(s, start)
  {
    if |s| > 0 {
      TrimAgain(s[..|s| - 1], start);
      var rest, last := Trim(s[..|s| - 1], start), s[|s| - 1];
      assert (rest + [last])[..|rest|] == rest;
    }
  }

  lemma {:induction false} TrimAll(s: seq<int>, start: int)
    requires Within(s, 0, start)
    ensures Trim(s, start) == []
  {
    if |s| > 0 {
      TrimAll(s[..|s| - 1], start);
    }
  }

  function AdmittedKey(k: ZKey, now: real, window: int): ZKey {
    ZKey(Counted(k, now, window) + [now.Floor], Some(now + window as real))
  }

  lemma AdmittedKeyCounts(k: ZKey, now: real, window: int)
    requires window >= 1
    ensures Counted(AdmittedKey(k, now, window), now, window) == Counted(k, now, window) + [now.Floor]
    ensures now >= 0.0 && Within(k.scores, 0, now.Floor) ==> Within(AdmittedKey(k, now, window).scores, 0, now.Floor)
  {
    var start := now.Floor - window;
    TrimAgain(Live(k, now), start);
    TrimAppend(Counted(k, now, window), now.Floor, start);
    if now >= 0.0 && Within(k.scores, 0, now.Floor) {
      TrimSize(Live(k, now), start, now.Floor);
    }
  }

  /** One undisturbed check below the limit. */
  lemma AdmitOnce(c: Config, s: State) returns (es: seq<Event>, n: State)
    requires c.overlap >= 1 && s.pending == []
    requires |Counted(s.key, s.now, c.window)| < c.limit
    ensures Run(c, s, es) && n == Exec(c, s, es)
    ensures n == State(s.now, AdmittedKey(s.key, s.now, c.window), [], s.admitted + [s.now])
  {
    var s1 := Next(c, s, Begin);
    n := Next(c, s1, Finish(0));
    RunOne(c, s, Begin);
    RunOne(c, s1, Finish(0));
    RunConcat(c, s, [Begin], [Finish(0)]);
    es := [Begin] + [Finish(0)];
    assert Live(s1.key, s.now) == Counted(s.key, s.now, c.window);
  }

  /** From `s`, `times` checks at one instant were admitted and nothing else happened. */
  predicate Burst(c: Config, s: State, n: State, times: nat) {
    && n.now == s.now && n.pending == [] && n.admitted == s.admitted + Repeat(s.now, times)
    && |Counted(n.key, s.now, c.window)| == |Counted(s.key, s.now, c.window)| + times
    && (s.now >= 0.0 && Within(s.key.scores, 0, s.now.Floor) ==> Within(n.key.scores, 0, s.now.Floor))
  }

  lemma BurstGrows(c: Config, s: State, m: State, times: nat)
    requires c.window >= 1 && Burst(c, s, m, times)
    ensures Burst(c, s, State(m.now, AdmittedKey(m.key, m.now, c.window), [], m.admitted + [m.now]), times + 1)
  {
    AdmittedKeyCounts(m.key, m.now, c.window);
    RepeatStep(s.admitted, s.now, times + 1);
  }

  /** Any number of undisturbed checks at one instant, up to the limit. */
  lemma {:induction false} AdmitMany(c: Config, s: State, times: nat) returns (es: seq<Event>, n: State)
    requires c.window >= 1 && c.overlap >= 1 && s.pending == []
    requires |Counted(s.key, s.now, c.window)| + times <= c.limit
    ensures Run(c, s, es) && n == Exec(c, s, es) && Burst(c, s, n, times)
    decreases times
  {
    if times == 0 {
      es, n := [], s;
      assert s.admitted + [] == s.admitted;
    } else {
      var fs, m := AdmitMany(c, s, times - 1);
      var once;
      once, n := AdmitOnce(c, m);
      BurstGrows(c, s, m, times - 1);
      RunConcat(c, s, fs, once);
      es := fs + once;
    }
  }

  /** A limit's worth of admissions in the second 0, and again as the second `window` begins. */
  lemma TwoBursts(limit: int, window: int, first: real) returns (es: seq<Event>)
    requires limit >= 1 && window >= 1 && 0.0 <= first < 1.0
    ensures var c := Config(limit, window, 1);
            Run(c, Start, es)
            && Exec(c, Start, es).admitted == Repeat(first, limit) + Repeat(window as real, limit)
  {
    var c := Config(limit, window, 1);
    var s1 := Next(c, Start, Tick(first));
    RunOne(c, Start, Tick(first));
    assert Counted(s1.key, first, window) == [];
    var burst, s2 := AdmitMany(c, s1, limit);
    RunConcat(c, Start, [Tick(first)], burst);
    var wait := Tick(window as real - first);
    var s3 := Next(c, s2, wait);
    RunOne(c, s2, wait);
    RunConcat(c, Start, [Tick(first)] + burst, [wait]);
    assert s3.now == window as real && s3.now.Floor == window;
    TrimAll(s3.key.scores, 0);
    assert Counted(s3.key, s3.now, window) == [];
    var again, s4 := AdmitMany(c, s3, limit);
    RunConcat(c, Start, [Tick(first)] + burst + [wait], again);
    es := [Tick(first)] + burst + [wait] + again;
    assert [] + Repeat(first, limit) == Repeat(first, limit);
  }

  /** `window - 1` is the exact length: for every limit, any longer interval can hold twice the limit,
      with no two checks overlapping. */
  lemma LongerIntervalsExceed(limit: int, window: int, length: real) returns (es: seq<Event>, a: real)
    requires limit >= 1 && window >= 1 && length > (window - 1) as real
    ensures Run(Config(limit, window, 1), Start, es)
    ensures CountBetween(Exec(Config(limit, window, 1), Start, es).admitted, a, a + length) == 2 * limit
  {
    a := if length > window as real then 0.0 else window as real - length;
    es := TwoBursts(limit, window, a);
    assert [] + Repeat(a, limit) == Repeat(a, limit);
    BetweenRepeat([], a, limit, a, a + length);
    BetweenRepeat(Repeat(a, limit), window as real, limit, a, a + length);
  }

  /** Checks that all pass their count before any of them adds. */
  lemma {:induction false} BeginMany(c: Config, s: State, times: nat) returns (es: seq<Event>, n: State)
    requires |Counted(s.key, s.now, c.window)| < c.limit && |s.pending| + times <= c.overlap
    ensures Run(c, s, es) && n == Exec(c, s, es)
    ensures n.now == s.now && n.admitted == s.admitted && n.pending == s.pending + Repeat(s.now, times)
    ensures |Counted(n.key, s.now, c.window)| < c.limit
    decreases times
  {
    if times == 0 {
      es, n := [], s;
      assert s.pending + [] == s.pending;
    } else {
      RepeatSize(s.now, times - 1);
      RepeatStep(s.pending, s.now, times);
      var fs, m := BeginMany(c, s, times - 1);
      n := Next(c, m, Begin);
      RunOne(c, m, Begin);
      RunConcat(c, s, fs, [Begin]);
      es := fs + [Begin];
      TrimAgain(Live(m.key, m.now), m.now.Floor - c.window);
    }
  }

  lemma RepeatDrop(x: real, times: nat)
    requires times > 0
    ensures Without(Repeat(x, times), 0) == Repeat(x, times - 1)
  {
    RepeatSize(x, times);
    RepeatSize(x, times - 1);
  }

  lemma RepeatFront(times: seq<real>, x: real, n: nat)
    requires n > 0
    ensures times + [x] + Repeat(x, n - 1) == times + Repeat(x, n)
  {
    RepeatSize(x, n);
    RepeatSize(x, n - 1);
  }

  lemma {:induction false} FinishMany(c: Config, s: State, x: real, times: nat) returns (es: seq<Event>, n: State)
    requires s.pending == Repeat(x, times)
    ensures Run(c, s, es) && n == Exec(c, s, es) && n.admitted == s.admitted + Repeat(x, times)
    decreases times
  {
    if times == 0 {
      es, n := [], s;
      assert s.admitted + [] == s.admitted;
    } else {
      RepeatSize(x, times);
      RepeatDrop(x, times);
      RepeatFront(s.admitted, x, times);
      var m := Next(c, s, Finish(0));
      RunOne(c, s, Finish(0));
      var fs;
      fs, n := FinishMany(c, m, x, times - 1);
      RunConcat(c, s, [Finish(0)], fs);
      es := [Finish(0)] + fs;
    }
  }

  lemma OverlapRun(c: Config) returns (es: seq<Event>)
    requires c.limit >= 1 && c.window >= 1 && c.overlap >= 1
    ensures Run(c, Start, es)
    ensures Exec(c, Start, es).admitted == Repeat(0.0, c.limit - 1) + Repeat(0.0, c.overlap)
  {
    assert Counted(NoKey, 0.0, c.window) == [];
    var first, s1 := AdmitMany(c, Start, c.limit - 1);
    var begins, s2 := BeginMany(c, s1, c.overlap);
    assert [] + Repeat(0.0, c.overlap) == Repeat(0.0, c.overlap);
    var ends, s3 := FinishMany(c, s2, 0.0, c.overlap);
    RunConcat(c, Start, first, begins);
    RunConcat(c, Start, first + begins, ends);
    es := first + begins + ends;
    assert [] + Repeat(0.0, c.limit - 1) == Repeat(0.0, c.limit - 1);
  }

  lemma StampsOfTwoRepeats(x: real, m: nat, n: nat, lo: int, hi: int)
    requires lo < x.Floor <= hi
    ensures CountIn(Stamps(Repeat(x, m) + Repeat(x, n)), lo, hi) == m + n
  {
    StampsRepeat([], x, m, lo, hi);
    assert [] + Repeat(x, m) == Repeat(x, m);
    StampsRepeat(Repeat(x, m), x, n, lo, hi);
  }

  /** The bound with overlapping checks is attained: for every limit and every overlap, `limit - 1`
      checks one by one and then `overlap` at once all pass, with stamps in one window. */
  lemma OverlapBoundAttained(limit: int, window: int, overlap: nat) returns (es: seq<Event>)
    requires limit >= 1 && window >= 1 && overlap >= 1
    ensures var c := Config(limit, window, overlap);
            Run(c, Start, es)
            && CountIn(Stamps(Exec(c, Start, es).admitted), -1, -1 + window) == limit - 1 + overlap
  {
    es := OverlapRun(Config(limit, window, overlap));
    StampsOfTwoRepeats(0.0, limit - 1, overlap, -1, -1 + window);
  }
}
