/** The channel circuit breaker: three Redis keys per channel, each with its own jittered TTL. Missing
    state means CLOSED. One recorded outcome or one admission question is one step. */
module CircuitBreaker {
  import opened Jitter
  import opened Wrappers

  datatype Mode = Closed | Open | HalfOpen

  /** A stored value; without a deadline it never lapses. */
  datatype Timed<T> = Timed(value: T, deadline: Option<real>)

  datatype Keys = Keys(state: Option<Timed<Mode>>, fails: Option<Timed<int>>, openedAt: Option<Timed<real>>)

  const NoKeys := Keys(None, None, None)

  datatype Config = Config(threshold: int, recovery: int, ttl: int)

  function Peek<T>(k: Option<Timed<T>>, now: real): Option<T> {
    if k.Some? && (k.value.deadline.Some? ==> now < k.value.deadline.value) then Some(k.value.value) else None
  }

  /** The TTLs `_jitter_ttl` may draw. */
  predicate Draw(c: Config, ttl: int) {
    Jittered(c.ttl, ttl)
  }

  function Store<T>(value: T, now: real, ttl: int): Option<Timed<T>> {
    Some(Timed(value, Some(now + ttl as real)))
  }

  function RawMode(k: Keys, now: real): Mode {
    match Peek(k.state, now) case None => Closed case Some(m) => m
  }

  /** An open breaker whose recovery time has passed. */
  predicate Recovered(c: Config, k: Keys, now: real) {
    && RawMode(k, now) == Open
    && Peek(k.openedAt, now).Some?
    && now - Peek(k.openedAt, now).value >= c.recovery as real
  }

  /** What get_state answers. */
  function ModeAt(c: Config, k: Keys, now: real): Mode {
    if Recovered(c, k, now) then HalfOpen else RawMode(k, now)
  }

  /** What get_state leaves behind. */
  function Looked(c: Config, k: Keys, now: real, ttl: int): Keys {
    if Recovered(c, k, now) then k.(state := Store(HalfOpen, now, ttl)) else k
  }

  function Opened(k: Keys, now: real, ttl: int, ttl2: int): Keys {
    k.(state := Store(Open, now, ttl), openedAt := Store(now, now, ttl2))
  }

  function FailCount(k: Keys, now: real): int {
    match Peek(k.fails, now) case None => 0 case Some(n) => n
  }

  /** TTL draws, one per SET that may happen in a step. */
  datatype Draws = Draws(look: int, state: int, fails: int, openedAt: int)

  function Succeeded(now: real, ttl: int): Keys {
    Keys(Store(Closed, now, ttl), None, None)
  }

  function FailedOnce(c: Config, k: Keys, now: real, d: Draws): Keys {
    var seen := Looked(c, k, now, d.look);
    if ModeAt(c, k, now) == HalfOpen then Opened(seen, now, d.state, d.openedAt)
    else
      var count := FailCount(k, now) + 1;
      var counted := seen.(fails := Store(count, now, d.fails));
      if count >= c.threshold then Opened(counted, now, d.state, d.openedAt) else counted
  }

  /** When a failure opens the breaker: from half open, or when the count reaches the threshold. */
  predicate TripsAt(c: Config, k: Keys, now: real) {
    ModeAt(c, k, now) == HalfOpen || FailCount(k, now) + 1 >= c.threshold
  }

  /** What a recorded failure leaves when it opens the breaker and the process dies after that SET. */
  function TornOpen(c: Config, k: Keys, now: real, d: Draws): Keys {
    var whole := FailedOnce(c, k, now, d);
    if TripsAt(c, k, now) then whole.(state := Some(Timed(Open, None)), openedAt := k.openedAt) else whole
  }

  class Breaker {
    const config: Config
    var keys: Keys

    constructor (config: Config)
      ensures this.config == config && keys == NoKeys
    {
      this.config := config;
      keys := NoKeys;
    }

    method GetState(now: real, ttl: int) returns (m: Mode)
      modifies this
      ensures m == ModeAt(config, old(keys), now)
      ensures keys == Looked(config, old(keys), now, ttl)
    {
      var state := Peek(keys.state, now);
      if state == None {
        return Closed;
      }
      if state.value == Open {
        var openedAt := Peek(keys.openedAt, now);
        if openedAt.Some? && now - openedAt.value >= config.recovery as real {
          keys := keys.(state := Store(HalfOpen, now, ttl));
          return HalfOpen;
        }
      }
      return state.value;
    }

    method AllowRequest(now: real, ttl: int) returns (ok: bool)
      modifies this
      ensures ok <==> ModeAt(config, old(keys), now) != Open
      ensures keys == Looked(config, old(keys), now, ttl)
    {
      var state := GetState(now, ttl);
      ok := state != Open;
    }

    method RecordSuccess(now: real, d: Draws)
      modifies this
      ensures keys == Succeeded(now, d.state)
    {
      var current := GetState(now, d.look);
      keys := keys.(state := Store(Closed, now, d.state));
      keys := keys.(fails := None);
      keys := keys.(openedAt := None);
    }

    method RecordFailure(now: real, d: Draws)
      modifies this
      ensures keys == FailedOnce(config, old(keys), now, d)
    {
      var current := GetState(now, d.look);
      if current == HalfOpen {
        OpenUp(now, d);
        return;
      }
      var count := IncrFailCount(now, d.fails);
      if count >= config.threshold {
        OpenUp(now, d);
      }
    }

    method OpenUp(now: real, d: Draws)
      modifies this
      ensures keys == Opened(old(keys), now, d.state, d.openedAt)
    {
      keys := keys.(state := Store(Open, now, d.state));
      keys := keys.(openedAt := Store(now, now, d.openedAt));
    }

    method IncrFailCount(now: real, ttl: int) returns (count: int)
      modifies this
      ensures count == FailCount(old(keys), now) + 1
      ensures keys == old(keys).(fails := Store(count, now, ttl))
    {
      var current := Peek(keys.fails, now);
      count := if current.Some? then current.value else 0;
      count := count + 1;
      keys := keys.(fails := Store(count, now, ttl));
    }

    method Reset()
      modifies this
      ensures keys == NoKeys
    {
      keys := NoKeys;
    }
  }

  // ---- runs ----

  datatype Which = StateKey | FailsKey | OpenedAtKey

  /** `Evict` is Redis dropping a key at any moment it likes. `Torn` is a process that dies while it opens
      the breaker, between the SET of the state and its EXPIRE. */
  datatype Event =
    | Tick(d: real)
    | Allow(ttl: int)
    | Success(draws: Draws)
    | Failure(draws: Draws)
    | Torn(draws: Draws)
    | Reset
    | Evict(which: Which)

  /** `failures` counts failures recorded since the last success or reset: history. */
  datatype State = State(now: real, keys: Keys, failures: nat)

  const Start := State(0.0, NoKeys, 0)

  predicate DrawsOk(c: Config, d: Draws) {
    Draw(c, d.look) && Draw(c, d.state) && Draw(c, d.fails) && Draw(c, d.openedAt)
  }

  predicate Possible(c: Config, e: Event) {
    match e
    case Tick(d) => d >= 0.0
    case Allow(ttl) => Draw(c, ttl)
    case Success(d) => DrawsOk(c, d)
    case Failure(d) => DrawsOk(c, d)
    case Torn(d) => DrawsOk(c, d)
    case Reset => true
    case Evict(_) => true
  }

  function Next(c: Config, s: State, e: Event): State {
    match e
    case Tick(d) => s.(now := s.now + d)
    case Allow(ttl) => s.(keys := Looked(c, s.keys, s.now, ttl))
    case Success(d) => s.(keys := Succeeded(s.now, d.state), failures := 0)
    case Failure(d) => s.(keys := FailedOnce(c, s.keys, s.now, d), failures := s.failures + 1)
    case Torn(d) => s.(keys := TornOpen(c, s.keys, s.now, d), failures := s.failures + 1)
    case Reset => s.(keys := NoKeys, failures := 0)
    case Evict(StateKey) => s.(keys := s.keys.(state := None))
    case Evict(FailsKey) => s.(keys := s.keys.(fails := None))
    case Evict(OpenedAtKey) => s.(keys := s.keys.(openedAt := None))
  }

  predicate Run(c: Config, es: seq<Event>) {
    forall i | 0 <= i < |es| :: Possible(c, es[i])
  }

  function Exec(c: Config, s: State, es: seq<Event>): State {
    if |es| == 0 then s else Next(c, Exec(c, s, es[..|es| - 1]), es[|es| - 1])
  }

  predicate Admits(c: Config, s: State) {
    ModeAt(c, s.keys, s.now) != Open
  }

  // ---- the breaker opens only after enough failures in a row ----

  predicate Justified(c: Config, s: State) {
    && (s.keys.fails.Some? ==> s.keys.fails.value.value <= s.failures)
    && (s.keys.state.Some? && s.keys.state.value.value != Closed ==> s.failures >= c.threshold)
  }

  /** In every run, with keys expiring or evicted at any time, a breaker that refuses requests has
      recorded at least `threshold` failures and no success since the last success or reset. */
  lemma {:induction false} OpenNeedsFailures(c: Config, es: seq<Event>)
    requires Run(c, es)
    ensures Justified(c, Exec(c, Start, es))
    ensures !Admits(c, Exec(c, Start, es)) ==> Exec(c, Start, es).failures >= c.threshold
  {
    if |es| > 0 {
      OpenNeedsFailures(c, es[..|es| - 1]);
    }
  }

  function LongestTtl(c: Config): real {
    (c.ttl + c.ttl / 5) as real
  }

  function ShortestTtl(c: Config): real {
    (c.ttl - c.ttl / 5) as real
  }

  // ---- and enough failures open it ----

  /** No success and no lost key: failures, admission questions and time. */
  predicate Failing(c: Config, es: seq<Event>) {
    Run(c, es) && forall i | 0 <= i < |es| :: es[i].Tick? || es[i].Allow? || es[i].Failure?
  }

  function FailuresIn(es: seq<Event>): nat {
    if |es| == 0 then 0 else FailuresIn(es[..|es| - 1]) + if es[|es| - 1].Failure? then 1 else 0
  }

  predicate LastsUntil<T>(k: Option<Timed<T>>, end: real) {
    k.Some? && (k.value.deadline.Some? ==> k.value.deadline.value >= end)
  }

  /** Since `start`: tripped in the stretch, or all its failures are still counted. */
  predicate TrippedOrCounted(c: Config, s: State, start: real, failures: nat) {
    var end := start + ShortestTtl(c);
    || (LastsUntil(s.keys.state, end) && s.keys.state.value.value != Closed
        && LastsUntil(s.keys.openedAt, end) && s.keys.openedAt.value.value >= start)
    || (failures < c.threshold
        && (failures > 0 ==> LastsUntil(s.keys.fails, end) && s.keys.fails.value.value >= failures))
  }

  lemma {:induction false} FailingTripsOrCounts(c: Config, s: State, es: seq<Event>)
    requires c.ttl >= 1 && c.threshold >= 1 && Failing(c, es)
    requires s.keys.fails.Some? ==> s.keys.fails.value.value >= 0
    requires Exec(c, s, es).now < s.now + ShortestTtl(c)
    ensures TrippedOrCounted(c, Exec(c, s, es), s.now, FailuresIn(es))
    ensures s.now <= Exec(c, s, es).now
    ensures Exec(c, s, es).keys.fails.Some? ==> Exec(c, s, es).keys.fails.value.value >= 0
  {
    if |es| > 0 {
      FailingTripsOrCounts(c, s, es[..|es| - 1]);
    }
  }

  lemma {:induction false} CountNotNegative(c: Config, es: seq<Event>)
    requires Run(c, es)
    ensures var k := Exec(c, Start, es).keys.fails; k.Some? ==> k.value.value >= 0
  {
    if |es| > 0 {
      CountNotNegative(c, es[..|es| - 1]);
    }
  }

  /** After any run, as many failures as the threshold, with no success between, no key lost, and less than
      the shortest TTL in all, trip the breaker; while it is open it then refuses at least until the
      recovery time has passed since they began. */
  lemma FailuresTrip(c: Config, before: seq<Event>, es: seq<Event>)
    requires c.ttl >= 1 && c.threshold >= 1 && Run(c, before) && Failing(c, es) && FailuresIn(es) >= c.threshold
    requires var s := Exec(c, Start, before); Exec(c, s, es).now < s.now + ShortestTtl(c)
    ensures var s := Exec(c, Start, before);
            var n := Exec(c, s, es);
            && RawMode(n.keys, n.now) != Closed
            && (RawMode(n.keys, n.now) == Open && n.now < s.now + c.recovery as real ==> !Admits(c, n))
  {
    CountNotNegative(c, before);
    FailingTripsOrCounts(c, Exec(c, Start, before), es);
  }

  // ---- left alone, it admits again, exactly unless an opening was torn ----

  /** No outcome is recorded: only admission questions, time, and Redis losing keys. */
  predicate Idle(c: Config, es: seq<Event>) {
    Run(c, es) && forall i | 0 <= i < |es| :: es[i].Tick? || es[i].Allow? || es[i].Evict?
  }

  /** OPEN without a deadline: what a torn opening leaves, and what TTL on the key shows. */
  predicate StuckOpen(k: Keys) {
    k.state.Some? && k.state.value.value == Open && k.state.value.deadline == None
  }

  /** An OPEN entry that has a deadline is gone by `latest`, and so is the opening time. */
  predicate OpenUntil(k: Keys, latest: real) {
    && (k.state.Some? && k.state.value.value == Open && k.state.value.deadline.Some? ==>
          k.state.value.deadline.value <= latest)
    && (k.openedAt.Some? ==> k.openedAt.value.deadline.Some? && k.openedAt.value.deadline.value <= latest)
  }

  predicate GoneBy<T>(k: Option<Timed<T>>, latest: real) {
    k.Some? ==> k.value.deadline.Some? && k.value.deadline.value <= latest
  }

  /** Every key is gone by `latest`, except a state that is stuck. */
  predicate AllGoneBy(k: Keys, latest: real) {
    (StuckOpen(k) || GoneBy(k.state, latest)) && GoneBy(k.fails, latest) && GoneBy(k.openedAt, latest)
  }

  lemma FailedIsBounded(c: Config, k: Keys, now: real, d: Draws)
    requires c.ttl >= 1 && DrawsOk(c, d) && AllGoneBy(k, now + LongestTtl(c))
    ensures AllGoneBy(FailedOnce(c, k, now, d), now + LongestTtl(c))
  {
  }

  lemma NextIsBounded(c: Config, s: State, e: Event)
    requires c.ttl >= 1 && Possible(c, e) && AllGoneBy(s.keys, s.now + LongestTtl(c))
    ensures AllGoneBy(Next(c, s, e).keys, Next(c, s, e).now + LongestTtl(c))
  {
    match e
    case Failure(d) => FailedIsBounded(c, s.keys, s.now, d);
    case Torn(d) => FailedIsBounded(c, s.keys, s.now, d);
    case _ =>
  }

  lemma {:induction false} KeysAreBounded(c: Config, es: seq<Event>)
    requires Run(c, es) && c.ttl >= 1
    ensures AllGoneBy(Exec(c, Start, es).keys, Exec(c, Start, es).now + LongestTtl(c))
  {
    if |es| > 0 {
      KeysAreBounded(c, es[..|es| - 1]);
      NextIsBounded(c, Exec(c, Start, es[..|es| - 1]), es[|es| - 1]);
    }
  }

  /** After any run, the longest TTL in silence leaves nothing stored, if and only if the state is not stuck. */
  lemma ForgottenExactly(c: Config, es: seq<Event>, wait: real)
    requires Run(c, es) && c.ttl >= 1 && wait >= LongestTtl(c)
    ensures var n := Next(c, Exec(c, Start, es), Tick(wait));
            (Peek(n.keys.state, n.now) == None && Peek(n.keys.fails, n.now) == None
             && Peek(n.keys.openedAt, n.now) == None)
            <==> !StuckOpen(Exec(c, Start, es).keys)
  {
    KeysAreBounded(c, es);
  }

  lemma {:induction false} IdleKeepsBound(c: Config, s: State, es: seq<Event>, latest: real)
    requires Idle(c, es) && OpenUntil(s.keys, latest) && !StuckOpen(s.keys)
    ensures OpenUntil(Exec(c, s, es).keys, latest) && !StuckOpen(Exec(c, s, es).keys)
  {
    if |es| > 0 {
      IdleKeepsBound(c, s, es[..|es| - 1], latest);
    }
  }

  ghost predicate AdmitsWheneverIdle(c: Config, s: State) {
    forall idle | Idle(c, idle) && Exec(c, s, idle).now >= s.now + LongestTtl(c) :: Admits(c, Exec(c, s, idle))
  }

  /** After any run, with keys expiring or evicted and openings torn at any time: every stretch without
      recorded outcomes that lasts the longest TTL ends admitting, if and only if the state key is not OPEN
      without a deadline. */
  lemma AdmitsAgainExactly(c: Config, es: seq<Event>)
    requires Run(c, es) && c.ttl >= 1
    ensures AdmitsWheneverIdle(c, Exec(c, Start, es)) <==> !StuckOpen(Exec(c, Start, es).keys)
  {
    var s := Exec(c, Start, es);
    KeysAreBounded(c, es);
    if StuckOpen(s.keys) {
      var wait := [Tick(LongestTtl(c))];
      assert wait[..0] == [];
      assert Exec(c, s, wait) == Next(c, s, Tick(LongestTtl(c)));
      assert Idle(c, wait) && !Admits(c, Exec(c, s, wait));
    } else {
      forall idle | Idle(c, idle) && Exec(c, s, idle).now >= s.now + LongestTtl(c)
        ensures Admits(c, Exec(c, s, idle))
      {
        IdleKeepsBound(c, s, idle, s.now + LongestTtl(c));
      }
    }
  }

  /** A torn opening always leaves the state key stuck and the opening time as it was, and counts like any
      failure; a failure that opens nothing cannot be torn. */
  lemma TornLeavesStuck(c: Config, s: State, d: Draws)
    requires DrawsOk(c, d)
    ensures var torn, whole := Next(c, s, Torn(d)), Next(c, s, Failure(d));
            if TripsAt(c, s.keys, s.now) then
              StuckOpen(torn.keys) && torn.keys.openedAt == s.keys.openedAt && torn.keys.fails == whole.keys.fails
            else torn == whole
  {
  }

  /** An opening time from before is stored long enough to be seen after the recovery time. */
  predicate Rescued(c: Config, s: State) {
    && s.keys.openedAt.Some?
    && (s.keys.openedAt.value.deadline.Some? ==>
          && s.now < s.keys.openedAt.value.deadline.value
          && s.keys.openedAt.value.value + c.recovery as real < s.keys.openedAt.value.deadline.value)
  }

  lemma {:induction false} StuckStays(c: Config, s: State, es: seq<Event>)
    requires StuckOpen(s.keys) && !Rescued(c, s) && Idle(c, es) && Evict(StateKey) !in es
    ensures StuckOpen(Exec(c, s, es).keys) && !Rescued(c, Exec(c, s, es)) && s.now <= Exec(c, s, es).now
  {
    if |es| > 0 {
      assert es[|es| - 1] in es;
      StuckStays(c, s, es[..|es| - 1]);
    }
  }

  predicate AdmitsAfter(c: Config, s: State, es: seq<Event>) {
    Idle(c, es) && Evict(StateKey) !in es && Admits(c, Exec(c, s, es))
  }

  /** A stuck breaker can admit again without an outcome and without losing its state key if and only if an
      opening time from before lasts beyond its recovery time; otherwise it refuses forever. */
  lemma StuckAdmitsExactlyWhenRescued(c: Config, s: State)
    requires StuckOpen(s.keys)
    ensures (exists es :: AdmitsAfter(c, s, es)) <==> Rescued(c, s)
  {
    if Rescued(c, s) {
      var ready := s.keys.openedAt.value.value + c.recovery as real;
      var wait := if ready > s.now then ready - s.now else 0.0;
      assert [Tick(wait)][..0] == [];
      assert Exec(c, s, [Tick(wait)]) == Next(c, s, Tick(wait));
      assert AdmitsAfter(c, s, [Tick(wait)]);
    } else {
      forall es | Idle(c, es) && Evict(StateKey) !in es
        ensures !Admits(c, Exec(c, s, es))
      {
        StuckStays(c, s, es);
      }
    }
  }

  // ---- and not before its recovery time ----

  predicate DeadlineFrom(c: Config, at: real, deadline: Option<real>) {
    deadline.Some? && at + ShortestTtl(c) <= deadline.value <= at + LongestTtl(c)
  }

  /** The breaker was opened at `s.now`, with some draws for the two TTLs. */
  predicate JustOpened(c: Config, s: State) {
    && s.keys.state.Some? && s.keys.state.value.value == Open
    && DeadlineFrom(c, s.now, s.keys.state.value.deadline)
    && s.keys.openedAt.Some? && s.keys.openedAt.value.value == s.now
    && DeadlineFrom(c, s.now, s.keys.openedAt.value.deadline)
  }

  predicate Trips(c: Config, s: State) {
    TripsAt(c, s.keys, s.now)
  }

  lemma FailureOpens(c: Config, s: State, d: Draws)
    requires DrawsOk(c, d) && c.ttl >= 1
    ensures Trips(c, s) ==> JustOpened(c, Next(c, s, Failure(d)))
    ensures !Trips(c, s) ==> ModeAt(c, Next(c, s, Failure(d)).keys, s.now) == ModeAt(c, s.keys, s.now)
  {
  }

  /** A failure of a breaker that is not half open counts on, for as long as the TTL drawn for the count; one that
      is half open opens again without counting. */
  lemma FailureCounts(c: Config, s: State, d: Draws, wait: real)
    requires wait >= 0.0
    ensures var n := Next(c, Next(c, s, Failure(d)), Tick(wait));
            if ModeAt(c, s.keys, s.now) == HalfOpen then n.keys.fails == s.keys.fails
            else FailCount(n.keys, n.now) == if wait < d.fails as real then FailCount(s.keys, s.now) + 1 else 0
  {
  }

  /** Idle since it opened at `at`: each key that is still there is the one then written, or the half
      open state written after the recovery time. */
  predicate SinceOpened(c: Config, s: State, at: real) {
    && at <= s.now
    && (s.keys.openedAt.Some? ==>
          s.keys.openedAt.value.value == at && DeadlineFrom(c, at, s.keys.openedAt.value.deadline))
    && (s.keys.state.Some? ==>
          match s.keys.state.value.value
          case Open => DeadlineFrom(c, at, s.keys.state.value.deadline)
          case HalfOpen => s.now >= at + c.recovery as real
          case Closed => false)
  }

  lemma {:induction false} IdleKeepsSinceOpened(c: Config, s: State, es: seq<Event>)
    requires c.ttl >= 1 && JustOpened(c, s) && Idle(c, es)
    ensures SinceOpened(c, Exec(c, s, es), s.now)
  {
    if |es| > 0 {
      IdleKeepsSinceOpened(c, s, es[..|es| - 1]);
    }
  }

  /** Before the recovery time, however Redis loses keys, a breaker that was tripped and records no
      further outcome admits exactly when its state key is gone. */
  lemma EarlyExactlyWhenStateLost(c: Config, s: State, d: Draws, es: seq<Event>)
    requires c.ttl >= 1 && DrawsOk(c, d) && Trips(c, s) && Idle(c, es)
    requires Exec(c, Next(c, s, Failure(d)), es).now < s.now + c.recovery as real
    ensures var n := Exec(c, Next(c, s, Failure(d)), es);
            Admits(c, n) <==> Peek(n.keys.state, n.now) == None
  {
    FailureOpens(c, s, d);
    IdleKeepsSinceOpened(c, Next(c, s, Failure(d)), es);
  }

  predicate NothingEvicted(es: seq<Event>) {
    forall i | 0 <= i < |es| :: !es[i].Evict?
  }

  lemma {:induction false} KeysStay(c: Config, s: State, es: seq<Event>)
    requires Idle(c, es) && NothingEvicted(es) && s.keys.state.Some? && s.keys.openedAt.Some?
    ensures Exec(c, s, es).keys.state.Some? && Exec(c, s, es).keys.openedAt.Some?
  {
    if |es| > 0 {
      KeysStay(c, s, es[..|es| - 1]);
    }
  }

  /** While nothing is evicted and no draw can have let its keys lapse, it admits exactly from the
      recovery time on. A failure recorded while open trips it again and starts the time over. */
  lemma RecoveryIsExact(c: Config, s: State, d: Draws, es: seq<Event>)
    requires c.ttl >= 1 && DrawsOk(c, d) && Trips(c, s) && Idle(c, es) && NothingEvicted(es)
    requires Exec(c, Next(c, s, Failure(d)), es).now < s.now + ShortestTtl(c)
    ensures var n := Exec(c, Next(c, s, Failure(d)), es);
            Admits(c, n) <==> n.now >= s.now + c.recovery as real
  {
    var tripped := Next(c, s, Failure(d));
    FailureOpens(c, s, d);
    IdleKeepsSinceOpened(c, tripped, es);
    KeysStay(c, tripped, es);
  }

  /** Between the shortest and the longest TTL nothing better can be said: when the opening time's key
      happens to lapse first and nobody asked before, the breaker refuses even when its recovery time
      is over. */
  lemma MayRefuseAfterRecovery(c: Config, s: State, wait: real) returns (d: Draws)
    requires c.ttl >= 5 && Trips(c, s) && ShortestTtl(c) <= wait < LongestTtl(c)
    ensures DrawsOk(c, d) && Idle(c, [Tick(wait)]) && NothingEvicted([Tick(wait)])
    ensures !Admits(c, Exec(c, Next(c, s, Failure(d)), [Tick(wait)]))
  {
    var least, most := c.ttl - c.ttl / 5, c.ttl + c.ttl / 5;
    d := Draws(least, most, least, least);
    var tripped := Next(c, s, Failure(d));
    assert [Tick(wait)][..0] == [];
    assert Exec(c, tripped, [Tick(wait)]) == Next(c, tripped, Tick(wait));
  }

  // ---- an admission stands until an outcome is recorded ----

  /** The state key is absent, not OPEN, or an OPEN entry that has lapsed. */
  predicate NotOpen(s: State) {
    s.keys.state.Some? && s.keys.state.value.value == Open ==>
      s.keys.state.value.deadline.Some? && s.keys.state.value.deadline.value <= s.now
  }

  lemma {:induction false} IdleKeepsNotOpen(c: Config, s: State, es: seq<Event>)
    requires NotOpen(s) && Idle(c, es)
    ensures NotOpen(Exec(c, s, es)) && s.now <= Exec(c, s, es).now
  {
    if |es| > 0 {
      IdleKeepsNotOpen(c, s, es[..|es| - 1]);
    }
  }

  /** Once a question is answered yes every later one is answered yes, however keys lapse or are lost, until
      an outcome is recorded. */
  lemma AdmissionStands(c: Config, s: State, ttl: int, es: seq<Event>)
    requires Draw(c, ttl) && Admits(c, s) && Idle(c, es)
    ensures Admits(c, Exec(c, Next(c, s, Allow(ttl)), es))
  {
    IdleKeepsNotOpen(c, Next(c, s, Allow(ttl)), es);
  }

  /** The question matters: with the recovery time below the shortest TTL, for some draws a tripped breaker
      would admit at its recovery time; but if nobody asks then, it refuses at `wait`, and if somebody does, it
      admits at `wait` too. */
  lemma AskingMatters(c: Config, s: State, ttl: int, wait: real) returns (d: Draws)
    requires c.ttl >= 5 && Trips(c, s) && 0.0 <= c.recovery as real < ShortestTtl(c) && Draw(c, ttl)
    requires ShortestTtl(c) <= wait < LongestTtl(c)
    ensures DrawsOk(c, d)
    ensures var tripped, rest := Next(c, s, Failure(d)), Tick(wait - c.recovery as real);
            && Admits(c, Exec(c, tripped, [Tick(c.recovery as real)]))
            && !Admits(c, Exec(c, tripped, [Tick(wait)]))
            && Admits(c, Exec(c, Next(c, Exec(c, tripped, [Tick(c.recovery as real)]), Allow(ttl)), [rest]))
  {
    d := MayRefuseAfterRecovery(c, s, wait);
    var tripped := Next(c, s, Failure(d));
    var early := [Tick(c.recovery as real)];
    assert early[..0] == [];
    assert Exec(c, tripped, early) == Next(c, tripped, Tick(c.recovery as real));
    RecoveryIsExact(c, s, d, early);
    AdmissionStands(c, Exec(c, tripped, early), ttl, [Tick(wait - c.recovery as real)]);
  }

  // ---- what an outcome leaves behind ----

  lemma {:induction false} CountStays(c: Config, s: State, es: seq<Event>)
    requires Idle(c, es) && Evict(FailsKey) !in es
    ensures Exec(c, s, es).keys.fails == s.keys.fails
  {
    if |es| > 0 {
      assert es[|es| - 1] in es;
      CountStays(c, s, es[..|es| - 1]);
    }
  }

  /** Opening keeps the count: a breaker tripped by its count opens again at the next failure, also when its
      state was lost in between, until the count can have lapsed. */
  lemma OpensAgain(c: Config, s: State, d: Draws, es: seq<Event>, later: Draws)
    requires c.ttl >= 1 && DrawsOk(c, d) && DrawsOk(c, later)
    requires ModeAt(c, s.keys, s.now) != HalfOpen && FailCount(s.keys, s.now) + 1 >= c.threshold
    requires Idle(c, es) && Evict(FailsKey) !in es
    requires Exec(c, Next(c, s, Failure(d)), es).now < s.now + ShortestTtl(c)
    ensures var n := Next(c, Exec(c, Next(c, s, Failure(d)), es), Failure(later));
            RawMode(n.keys, n.now) == Open
  {
    CountStays(c, Next(c, s, Failure(d)), es);
  }

  predicate NothingKnown(c: Config, s: State, closed: Option<Timed<Mode>>) {
    s.keys == Keys(closed, None, None)
  }

  lemma {:induction false} IdleKeepsClosed(c: Config, s: State, es: seq<Event>, closed: Option<Timed<Mode>>)
    requires NothingKnown(c, s, closed) && closed.Some? && closed.value.value == Closed
    requires Idle(c, es) && Evict(StateKey) !in es
    ensures NothingKnown(c, Exec(c, s, es), closed)
  {
    if |es| > 0 {
      assert es[|es| - 1] in es;
      IdleKeepsClosed(c, s, es[..|es| - 1], closed);
    }
  }

  /** A success is remembered and everything else forgotten: until its TTL can have lapsed the state key says
      CLOSED, and no count and no opening time is left. */
  lemma SuccessIsStored(c: Config, s: State, d: Draws, es: seq<Event>)
    requires DrawsOk(c, d) && Idle(c, es) && Evict(StateKey) !in es && c.ttl >= 1
    requires Exec(c, Next(c, s, Success(d)), es).now < s.now + ShortestTtl(c)
    ensures var n := Exec(c, Next(c, s, Success(d)), es);
            && Peek(n.keys.state, n.now) == Some(Closed)
            && FailCount(n.keys, n.now) == 0 && Peek(n.keys.openedAt, n.now) == None
  {
    var n := Next(c, s, Success(d));
    IdleKeepsClosed(c, n, es, n.keys.state);
  }

  /** Once it answers half open, it keeps admitting until an outcome is recorded. */
  lemma {:induction false} AdmitsFromThenOn(c: Config, s: State, es: seq<Event>)
    requires c.ttl >= 1 && Idle(c, es)
    requires s.keys.state.None? || s.keys.state.value.value != Open
    ensures Admits(c, Exec(c, s, es))
    ensures Exec(c, s, es).keys.state == None || Exec(c, s, es).keys.state == s.keys.state
  {
    if |es| > 0 {
      AdmitsFromThenOn(c, s, es[..|es| - 1]);
    }
  }
}
