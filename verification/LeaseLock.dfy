/** One Redis lock key under the lease protocol of LockUtil: atomic acquire and release scripts, a
    renewal made of three separate commands, crashes, and a shared monotone clock. */
module LeaseLock {
  import opened Jitter
  import opened Wrappers
  import opened LockValue
  import opened Text

  /** What a lock value says: `stamp` is the expiry written into it, `ttl` the key's own deadline. */
  datatype Entry = Entry(owner: string, stamp: real, ttl: Option<real>)

  type Key = Option<Entry>

  /** A key whose deadline has passed is gone. */
  function Visible(k: Key, now: real): Key {
    if k.Some? && k.value.ttl.Some? && k.value.ttl.value <= now then None else k
  }

  /** When others may take the lock: at its TTL or at its stamp, whichever is first. */
  function Until(e: Entry): real {
    if e.ttl.Some? && e.ttl.value < e.stamp then e.ttl.value else e.stamp
  }

  function Stamp(sample: real, term: int): real {
    sample + term as real + 1.0
  }

  /** An acquire succeeds: the key is gone, or its stamp can be read and has passed. */
  predicate Grants(k: Key, now: real, sample: real) {
    var v := Visible(k, now);
    v == None || (Readable(v.value.owner) && v.value.stamp < sample)
  }

  function Granted(owner: string, now: real, sample: real, term: int): Entry {
    Entry(owner, Stamp(sample, term), Some(now + term as real))
  }

  predicate HeldBy(k: Key, now: real, owner: string) {
    Visible(k, now).Some? && Visible(k, now).value.owner == owner
  }

  /** A release deletes: its test takes the caller for the holder. */
  predicate Deletes(k: Key, now: real, owner: string) {
    Visible(k, now).Some? && NameMatches(Visible(k, now).value.owner, owner)
  }

  /** A renewal goes on: it reads the caller's own name back. */
  predicate Renews(k: Key, now: real, owner: string) {
    HeldBy(k, now, owner) && Readable(owner)
  }

  function Expired(k: Key, now: real, ttl: int): Key {
    if Visible(k, now).Some? then Some(k.value.(ttl := Some(now + ttl as real))) else k
  }

  // ---- the key as the commands see it: text ----

  /** How clock readings are written into the value and read back. */
  datatype Clock = Clock(show: real -> string, read: string -> Option<real>)

  ghost predicate Faithful(c: Clock) {
    && (forall x: real :: ':' !in c.show(x) && c.read(c.show(x)) == Some(x))
    && (forall s: string | ':' in s :: c.read(s) == None)
  }

  datatype Raw = Raw(val: string, ttl: Option<real>)

  function TextOf(c: Clock, e: Entry): Raw {
    Raw(Render(e.owner, c.show(e.stamp)), e.ttl)
  }

  /** `now` is the server clock when a command runs; `sample` is the client's clock reading sent along. */
  class RedisKey {
    const clock: Clock
    var raw: Option<Raw>
    ghost var entry: Key

    ghost predicate Valid()
      reads this
    {
      Faithful(clock) && raw == match entry case None => None case Some(e) => Some(TextOf(clock, e))
    }

    constructor (clock: Clock)
      requires Faithful(clock)
      ensures Valid() && this.clock == clock && entry == None
    {
      this.clock := clock;
      raw, entry := None, None;
    }

    /** GET */
    method Get(now: real) returns (val: Option<string>)
      requires Valid()
      ensures val.Some? <==> Visible(entry, now).Some?
      ensures val.Some? ==> val.value == Render(entry.value.owner, clock.show(entry.value.stamp))
    {
      if raw == None || (raw.value.ttl.Some? && raw.value.ttl.value <= now) {
        return None;
      }
      return Some(raw.value.val);
    }

    /** _LOCK_ACQUIRE_LUA */
    method Acquire(owner: string, now: real, sample: real, term: int) returns (ok: bool)
      requires Valid()
      modifies this
      ensures Valid() && ok == Grants(old(entry), now, sample)
      ensures entry == if ok then Some(Granted(owner, now, sample, term)) else old(entry)
    {
      var val := Get(now);
      if val == None {
        Set(owner, Stamp(sample, term));
        Expire(now, term);
        return true;
      }
      ReadersAgree(entry.value.owner, clock.show(entry.value.stamp));
      var text := StampText(val.value);
      if text.Some? {
        var expireTs := clock.read(text.value);
        if expireTs.Some? && expireTs.value < sample {
          Set(owner, Stamp(sample, term));
          Expire(now, term);
          return true;
        }
      }
      return false;
    }

    /** _LOCK_RELEASE_LUA */
    method Release(owner: string, now: real) returns (ok: bool)
      requires Valid()
      modifies this
      ensures Valid() && ok == Deletes(old(entry), now, owner)
      ensures entry == if ok then None else old(entry)
    {
      var val := Get(now);
      if val == None {
        return false;
      }
      ReleaseTestMeaning(entry.value.owner, clock.show(entry.value.stamp), owner);
      ok := ReleaseTest(val.value, owner);
      if ok {
        raw, entry := None, None;
      }
    }

    /** The first command of a renewal: GET, and the owner compared. */
    method RenewalReads(owner: string, now: real) returns (ok: bool)
      requires Valid()
      ensures ok == Renews(entry, now, owner)
    {
      var val := Get(now);
      if val == None {
        return false;
      }
      ReadersAgree(entry.value.owner, clock.show(entry.value.stamp));
      return ParsedOwner(val.value) == Some(owner);
    }

    /** SET without TTL */
    method Set(owner: string, stamp: real)
      requires Valid()
      modifies this
      ensures Valid() && entry == Some(Entry(owner, stamp, None))
    {
      raw := Some(Raw(Render(owner, clock.show(stamp)), None));
      entry := Some(Entry(owner, stamp, None));
    }

    /** EXPIRE: sets the deadline of whatever is there. */
    method Expire(now: real, ttl: int)
      requires Valid()
      modifies this
      ensures Valid() && entry == Expired(old(entry), now, ttl)
    {
      if raw.Some? && (raw.value.ttl == None || now < raw.value.ttl.value) {
        raw := Some(raw.value.(ttl := Some(now + ttl as real)));
        entry := Some(entry.value.(ttl := Some(now + ttl as real)));
      }
    }
  }

  // ---- the protocol ----

  /** Where a client is. A renewal has read a lease that ran until `lease`, at time `at`. */
  datatype Stage =
    | Holding
    | Reading(lease: real, at: real)
    | Wrote(lease: real, at: real)
    | Gone

  /** `lease` is until when this client may believe it holds the lock. The last refresh (acquire or
      finished renewal) began at `since` and was done at `done`. */
  datatype Client = Client(term: int, lease: real, since: real, done: real, stage: Stage)

  datatype State = State(now: real, key: Key, clients: map<string, Client>)

  const Start := State(0.0, None, map[])

  datatype Event =
    | Tick(d: real)
    | Acquire(o: string, sample: real, term: int)
    | Release(o: string)
    | Crash(o: string)
    | Get(o: string)
    | Put(o: string, sample: real)
    | Expire(o: string, ttl: int)

  /** What may happen next. Owner names are fresh; a client sends the reading it took. */
  predicate Possible(s: State, e: Event) {
    match e
    case Tick(d) => d >= 0.0
    case Acquire(o, sample, term) => o !in s.clients && sample <= s.now && term >= 1
    case Release(o) => o in s.clients && !s.clients[o].stage.Gone?
    case Crash(o) => o in s.clients && !s.clients[o].stage.Gone?
    case Get(o) => o in s.clients && s.clients[o].stage.Holding?
    case Put(o, sample) =>
      o in s.clients && s.clients[o].stage.Reading? && s.clients[o].stage.at <= sample <= s.now
    case Expire(o, ttl) =>
      o in s.clients && s.clients[o].stage.Wrote? && Jittered(s.clients[o].term, ttl)
  }

  function Next(s: State, e: Event): State
    requires Possible(s, e)
  {
    match e
    case Tick(d) => s.(now := s.now + d)
    case Acquire(o, sample, term) =>
      if Grants(s.key, s.now, sample) then
        var entry := Granted(o, s.now, sample, term);
        s.(key := Some(entry), clients := s.clients[o := Client(term, Until(entry), sample, s.now, Holding)])
      else s
    case Release(o) =>
      var c := s.clients[o].(lease := s.now, stage := Gone);
      s.(key := if Deletes(s.key, s.now, o) then None else s.key, clients := s.clients[o := c])
    case Crash(o) => s.(clients := s.clients[o := s.clients[o].(stage := Gone)])
    case Get(o) =>
      if Renews(s.key, s.now, o) then
        s.(clients := s.clients[o := s.clients[o].(stage := Reading(Until(s.key.value), s.now))])
      else s
    case Put(o, sample) =>
      var c := s.clients[o];
      var stamp := Stamp(sample, c.term);
      s.(key := Some(Entry(o, stamp, None)),
         clients := s.clients[o := c.(lease := stamp, stage := Wrote(c.stage.lease, c.stage.at))])
    case Expire(o, ttl) =>
      var c := s.clients[o];
      var key := Expired(s.key, s.now, ttl);
      var lease := if HeldBy(s.key, s.now, o) then Until(key.value) else c.lease;
      s.(key := key,
         clients := s.clients[o := c.(lease := lease, since := c.stage.at, done := s.now, stage := Holding)])
  }

  predicate Run(s: State, es: seq<Event>)
    decreases |es|
  {
    |es| > 0 ==> Possible(s, es[0]) && Run(Next(s, es[0]), es[1..])
  }

  function Exec(s: State, es: seq<Event>): State
    requires Run(s, es)
    decreases |es|
  {
    if |es| == 0 then s else Exec(Next(s, es[0]), es[1..])
  }

  // ---- what a run may be asked to respect ----

  /** The key is not another owner's whose lease still runs: the check of a compare-and-set. */
  predicate Unclaimed(s: State, o: string) {
    s.key.Some? && s.key.value.owner != o ==> Until(s.key.value) <= s.now
  }

  /** `Named`: owner names without a colon. `Guarded`: and a renewal writes only to an unclaimed key.
      `Timely`: and a renewal's commands run before the lease it read lapses. */
  datatype Rule = Named | Guarded | Timely

  predicate Obeys(s: State, e: Event, rule: Rule)
    requires Possible(s, e)
  {
    match e
    case Acquire(o, _, _) => Readable(o)
    case Put(o, _) =>
      (rule == Guarded ==> Unclaimed(s, o)) && (rule == Timely ==> s.now < s.clients[o].stage.lease)
    case Expire(o, _) =>
      (rule == Guarded ==> Unclaimed(s, o)) && (rule == Timely ==> s.now < s.clients[o].stage.lease)
    case _ => true
  }

  predicate AllObey(s: State, es: seq<Event>, rule: Rule)
    requires Run(s, es)
    decreases |es|
  {
    |es| > 0 ==> Obeys(s, es[0], rule) && AllObey(Next(s, es[0]), es[1..], rule)
  }

  // ---- invariant ----

  /** The part of a term that every jitter draw leaves. */
  function Assured(term: int): real {
    (term - term / 5) as real
  }

  predicate ClientOk(s: State, o: string)
    requires o in s.clients
  {
    var c := s.clients[o];
    && Readable(o)
    && c.term >= 1
    && c.since <= c.done <= s.now
    // an unexpired lease is the one in the store
    && (c.lease > s.now ==> s.key.Some? && s.key.value.owner == o && Until(s.key.value) == c.lease)
    && (!c.stage.Gone? ==> c.lease >= c.since + Assured(c.term))
    && (c.stage.Reading? ==>
          && c.done <= c.stage.at <= s.now
          && c.stage.lease <= Stamp(c.stage.at, c.term)
          && (s.now < c.stage.lease ==> c.lease == c.stage.lease))
    && (c.stage.Wrote? ==>
          && c.done <= c.stage.at <= s.now
          && c.lease >= Stamp(c.stage.at, c.term)
          && (s.key.Some? && s.key.value.owner == o ==> s.key.value.stamp == c.lease)
          && (s.now < c.stage.lease ==> c.lease >= c.stage.lease))
  }

  predicate KeyOk(s: State) {
    s.key.Some? ==>
      var e := s.key.value;
      && e.owner in s.clients
      && e.stamp <= Stamp(s.now, s.clients[e.owner].term)
      && (Until(e) > s.now ==> s.clients[e.owner].lease == Until(e))
  }

  predicate Inv(s: State) {
    KeyOk(s) && forall o | o in s.clients :: ClientOk(s, o)
  }

  /** A step of another client, or of the clock, keeps what `o` may rely on. */
  lemma OthersKeepClient(s: State, e: Event, o: string)
    requires Inv(s) && Possible(s, e) && Obeys(s, e, Guarded)
    requires o in s.clients && (e.Tick? || e.o != o)
    ensures o in Next(s, e).clients && ClientOk(Next(s, e), o)
  {
    assert ClientOk(s, o);
    if e.Release? && s.key.Some? {
      assert ClientOk(s, s.key.value.owner);
      PlainNameMatches(s.key.value.owner, e.o);
    }
  }

  lemma OwnStepKeepsClient(s: State, e: Event)
    requires Inv(s) && Possible(s, e) && Obeys(s, e, Guarded) && !e.Tick?
    ensures e.o in Next(s, e).clients ==> ClientOk(Next(s, e), e.o)
  {
    if e.o in s.clients {
      assert ClientOk(s, e.o);
    }
  }

  lemma NextKeepsKey(s: State, e: Event)
    requires Inv(s) && Possible(s, e) && Obeys(s, e, Guarded)
    ensures KeyOk(Next(s, e))
  {
    if !e.Tick? && e.o in s.clients {
      assert ClientOk(s, e.o);
    }
    if e.Release? && s.key.Some? {
      assert ClientOk(s, s.key.value.owner);
      PlainNameMatches(s.key.value.owner, e.o);
    }
  }

  lemma NextKeepsInv(s: State, e: Event)
    requires Inv(s) && Possible(s, e) && Obeys(s, e, Guarded)
    ensures Inv(Next(s, e))
  {
    NextKeepsKey(s, e);
    forall o | o in Next(s, e).clients
      ensures ClientOk(Next(s, e), o)
    {
      if !e.Tick? && e.o == o {
        OwnStepKeepsClient(s, e);
      } else {
        OthersKeepClient(s, e, o);
      }
    }
  }

  lemma {:induction false} RunKeepsInv(s: State, es: seq<Event>)
    requires Inv(s) && Run(s, es) && AllObey(s, es, Guarded)
    ensures Inv(Exec(s, es))
    decreases |es|
  {
    if |es| > 0 {
      NextKeepsInv(s, es[0]);
      RunKeepsInv(Next(s, es[0]), es[1..]);
    }
  }

  lemma RunFromStart(es: seq<Event>)
    requires Run(Start, es) && AllObey(Start, es, Guarded)
    ensures Inv(Exec(Start, es))
  {
    RunKeepsInv(Start, es);
  }

  /** A renewal in time finds the key unclaimed. */
  lemma TimelyStepIsGuarded(s: State, e: Event)
    requires Inv(s) && Possible(s, e) && Obeys(s, e, Timely)
    ensures Obeys(s, e, Guarded)
  {
    if e.Put? || e.Expire? {
      assert ClientOk(s, e.o);
    }
  }

  /** So runs whose renewals finish before the lease they read lapses are guarded runs. */
  lemma {:induction false} TimelyIsGuarded(s: State, es: seq<Event>)
    requires Inv(s) && Run(s, es) && AllObey(s, es, Timely)
    ensures AllObey(s, es, Guarded)
    decreases |es|
  {
    if |es| > 0 {
      TimelyStepIsGuarded(s, es[0]);
      NextKeepsInv(s, es[0]);
      TimelyIsGuarded(Next(s, es[0]), es[1..]);
    }
  }

  // ---- mutual exclusion, and exactly when a late renewal breaks it ----

  predicate Exclusive(s: State) {
    forall o, p | o in s.clients && p in s.clients && s.clients[o].lease > s.now && s.clients[p].lease > s.now ::
      o == p
  }

  /** Nobody else is granted the lock before a lease that is believed in has run out. */
  predicate Protected(s: State) {
    forall o | o in s.clients && s.clients[o].lease > s.now ::
      s.key.Some? && s.key.value.owner == o && Until(s.key.value) >= s.clients[o].lease
  }

  /** Over every interleaving of scripts, renewals, crashes and ticks in which owner names have no colon
      and renewals write only to an unclaimed key, no two owners have unexpired leases, and the owner
      of one is the owner the store names. */
  lemma MutualExclusion(es: seq<Event>)
    requires Run(Start, es) && AllObey(Start, es, Guarded)
    ensures var s := Exec(Start, es);
            && Exclusive(s) && Protected(s)
            && forall o | o in s.clients && s.clients[o].lease > s.now :: HeldBy(s.key, s.now, o)
  {
    RunFromStart(es);
    var s := Exec(Start, es);
    forall o | o in s.clients && s.clients[o].lease > s.now
      ensures HeldBy(s.key, s.now, o) && s.key.value.owner == o && Until(s.key.value) >= s.clients[o].lease
    {
      assert ClientOk(s, o);
    }
  }

  /** In particular when every renewal finishes before the lease it read lapses. */
  lemma TimelyRunsExclude(es: seq<Event>)
    requires Run(Start, es) && AllObey(Start, es, Timely)
    ensures Exclusive(Exec(Start, es)) && Protected(Exec(Start, es))
  {
    TimelyIsGuarded(Start, es);
    MutualExclusion(es);
  }

  /** The SET of a renewal, however late, keeps exclusion if and only if the stamp it writes has already
      passed or the key is not another's with a running lease; and it keeps the holder protected if
      and only if the latter holds. */
  lemma PutSafeExactly(s: State, o: string, sample: real)
    requires Inv(s) && Possible(s, Put(o, sample))
    ensures Exclusive(Next(s, Put(o, sample)))
            <==> Stamp(sample, s.clients[o].term) <= s.now || Unclaimed(s, o)
    ensures Protected(Next(s, Put(o, sample))) <==> Unclaimed(s, o)
  {
    assert ClientOk(s, o);
    var n := Next(s, Put(o, sample));
    if Unclaimed(s, o) {
      NextKeepsInv(s, Put(o, sample));
      InvIsExclusive(n);
    } else {
      var p := s.key.value.owner;
      assert p in n.clients && n.clients[p].lease > n.now && n.key.value.owner == o != p;
      assert o in n.clients && n.clients[o].lease == Stamp(sample, s.clients[o].term);
      if Stamp(sample, s.clients[o].term) <= s.now {
        InvIsExclusive(s);
      }
    }
  }

  /** The EXPIRE of a renewal, however late, keeps the holder protected if and only if the key is not
      another's with a running lease, or the new deadline does not cut that lease short. */
  lemma ExpireSafeExactly(s: State, o: string, ttl: int)
    requires Inv(s) && Possible(s, Expire(o, ttl))
    ensures Exclusive(Next(s, Expire(o, ttl)))
    ensures Protected(Next(s, Expire(o, ttl)))
            <==> Unclaimed(s, o) || s.now + ttl as real >= Until(s.key.value)
  {
    assert ClientOk(s, o);
    InvIsExclusive(s);
    var n := Next(s, Expire(o, ttl));
    if Unclaimed(s, o) {
      NextKeepsInv(s, Expire(o, ttl));
      InvIsExclusive(n);
    } else {
      var p := s.key.value.owner;
      assert ClientOk(s, p);
      assert n.clients[p].lease == Until(s.key.value) > n.now;
      assert forall q | q in s.clients && q != p :: ClientOk(s, q) && s.clients[q].lease <= s.now;
    }
  }

  lemma InvIsExclusive(s: State)
    requires Inv(s)
    ensures Exclusive(s) && Protected(s)
  {
    forall o | o in s.clients && s.clients[o].lease > s.now
      ensures s.key.Some? && s.key.value.owner == o && Until(s.key.value) >= s.clients[o].lease
    {
      assert ClientOk(s, o);
    }
  }

  // ---- runs that break it ----

  lemma {:induction false} RunConcat(s: State, es: seq<Event>, fs: seq<Event>)
    requires Run(s, es) && Run(Exec(s, es), fs)
    ensures Run(s, es + fs) && Exec(s, es + fs) == Exec(Exec(s, es), fs)
    ensures forall rule :: AllObey(s, es, rule) && AllObey(Exec(s, es), fs, rule) ==> AllObey(s, es + fs, rule)
    decreases |es|
  {
    if |es| == 0 {
      assert es + fs == fs;
    } else {
      assert (es + fs)[0] == es[0] && (es + fs)[1..] == es[1..] + fs;
      RunConcat(Next(s, es[0]), es[1..], fs);
    }
  }

  lemma RunOne(s: State, e: Event)
    requires Possible(s, e)
    ensures Run(s, [e]) && Exec(s, [e]) == Next(s, e)
    ensures forall rule | Obeys(s, e, rule) :: AllObey(s, [e], rule)
  {
    assert [e][1..] == [];
    assert Run(Next(s, e), []);
    assert forall rule :: AllObey(Next(s, e), [], rule);
  }

  lemma RunSnoc(s: State, es: seq<Event>, e: Event)
    requires Run(s, es) && Possible(Exec(s, es), e)
    ensures Run(s, es + [e]) && Exec(s, es + [e]) == Next(Exec(s, es), e)
    ensures forall rule :: AllObey(s, es, rule) && Obeys(Exec(s, es), e, rule) ==> AllObey(s, es + [e], rule)
  {
    RunOne(Exec(s, es), e);
    RunConcat(s, es, [e]);
  }

  /** For any two plain names and any term, a renewal whose SET comes after the lease it read has lapsed
      overwrites the next owner's lock. */
  lemma LateRenewalBreaksExclusion(a: string, b: string, term: int) returns (es: seq<Event>)
    requires a != b && Readable(a) && Readable(b) && term >= 1
    ensures Run(Start, es) && AllObey(Start, es, Named) && !Exclusive(Exec(Start, es))
  {
    var end := term as real;
    RunOne(Start, Acquire(a, 0.0, term));
    es := [Acquire(a, 0.0, term)];
    RunSnoc(Start, es, Get(a));
    es := es + [Get(a)];
    RunSnoc(Start, es, Tick(end));
    es := es + [Tick(end)];
    RunSnoc(Start, es, Acquire(b, end, term));
    es := es + [Acquire(b, end, term)];
    RunSnoc(Start, es, Put(a, end));
    es := es + [Put(a, end)];
    var s := Exec(Start, es);
    assert s.clients[a].lease > s.now && s.clients[b].lease > s.now;
  }

  /** A SET in time is not enough. For any three plain names and any term of five or more, a renewal whose
      EXPIRE comes after its own lease has lapsed cuts the next owner's TTL short, and a third owner is
      granted the lock while the second still believes in it. */
  lemma LateExpireBreaksExclusion(a: string, p: string, q: string, term: int) returns (es: seq<Event>)
    requires a != p && p != q && a != q && Readable(a) && Readable(p) && Readable(q) && term >= 5
    ensures Run(Start, es) && AllObey(Start, es, Named) && !Exclusive(Exec(Start, es))
    ensures exists i: nat :: i < |es| && es[i] == Put(a, 0.0) && (forall j | 0 <= j < |es| && es[j].Put? :: j == i)
  {
    var short := term - term / 5;
    var first := term as real + 2.0;
    var second := first + short as real;
    var one := LapsedRenewal(a, p, term);
    RunSnoc(Start, one, Expire(a, short));
    es := one + [Expire(a, short)];
    RunSnoc(Start, es, Tick(short as real));
    es := es + [Tick(short as real)];
    RunSnoc(Start, es, Acquire(q, second, term));
    es := es + [Acquire(q, second, term)];
    var s := Exec(Start, es);
    assert s.clients[p].lease == first + term as real > s.now && s.clients[q].lease > s.now;
    assert es[2] == Put(a, 0.0);
  }

  /** The SET of `a` comes at once, its EXPIRE not yet; meanwhile its lease lapses and `p` is granted. */
  lemma LapsedRenewal(a: string, p: string, term: int) returns (es: seq<Event>)
    requires a != p && Readable(a) && Readable(p) && term >= 1
    ensures Run(Start, es) && AllObey(Start, es, Named)
    ensures es == [Acquire(a, 0.0, term), Get(a), Put(a, 0.0), Tick(term as real + 2.0),
                   Acquire(p, term as real + 2.0, term)]
    ensures var s := Exec(Start, es);
            && s.now == term as real + 2.0
            && s.key == Some(Granted(p, s.now, s.now, term))
            && s.clients.Keys == {a, p} && s.clients[a].term == term && s.clients[a].stage.Wrote?
            && s.clients[p].lease == s.now + term as real
  {
    var first := term as real + 2.0;
    RunOne(Start, Acquire(a, 0.0, term));
    es := [Acquire(a, 0.0, term)];
    RunSnoc(Start, es, Get(a));
    es := es + [Get(a)];
    RunSnoc(Start, es, Put(a, 0.0));
    es := es + [Put(a, 0.0)];
    RunSnoc(Start, es, Tick(first));
    es := es + [Tick(first)];
    RunSnoc(Start, es, Acquire(p, first, term));
    es := es + [Acquire(p, first, term)];
  }

  /** For any owner whose name has a colon, the owner named like its first part can break exclusion by a
      late release alone, with no renewal at all. */
  lemma ColonBreaksExclusion(holder: string, other: string, term: int) returns (es: seq<Event>)
    requires !Readable(holder) && other != holder && other != holder[..Find(holder, ':')] && term >= 1
    ensures Run(Start, es) && (forall e | e in es :: !e.Put? && !e.Expire?) && !Exclusive(Exec(Start, es))
  {
    ColonNameMatches(holder);
    var short := holder[..Find(holder, ':')];
    var end := term as real;
    RunOne(Start, Acquire(short, 0.0, term));
    es := [Acquire(short, 0.0, term)];
    RunSnoc(Start, es, Tick(end));
    es := es + [Tick(end)];
    RunSnoc(Start, es, Acquire(holder, end, term));
    es := es + [Acquire(holder, end, term)];
    RunSnoc(Start, es, Release(short));
    es := es + [Release(short)];
    RunSnoc(Start, es, Acquire(other, end, term));
    es := es + [Acquire(other, end, term)];
    var s := Exec(Start, es);
    assert s.clients[holder].lease > s.now && s.clients[other].lease > s.now;
  }

  // ---- how long a lease runs ----

  /** A lease that was granted runs for its whole term exactly when the reading sent along was at most a second
      old: the stamp lies a second beyond the TTL. */
  lemma AcquiredLease(s: State, o: string, sample: real, term: int)
    requires Possible(s, Acquire(o, sample, term)) && Grants(s.key, s.now, sample)
    ensures var n := Next(s, Acquire(o, sample, term));
            && o in n.clients && HeldBy(n.key, n.now, o)
            && n.clients[o].lease
               == if s.now - sample <= 1.0 then s.now + term as real else sample + term as real + 1.0
  {
  }

  /** A renewed lease runs for the TTL drawn, counted from the EXPIRE, but never beyond the stamp of its SET. */
  lemma RenewedLease(s: State, o: string, sample: real, d: real, ttl: int) returns (n: State)
    requires Possible(s, Put(o, sample)) && d >= 0.0 && Jittered(s.clients[o].term, ttl)
    ensures Run(s, [Put(o, sample)] + [Tick(d)] + [Expire(o, ttl)])
    ensures n == Exec(s, [Put(o, sample)] + [Tick(d)] + [Expire(o, ttl)])
    ensures var stamp, end := sample + s.clients[o].term as real + 1.0, s.now + d + ttl as real;
            && o in n.clients && n.clients[o].lease == (if end < stamp then end else stamp)
            && n.clients[o].since == s.clients[o].stage.at && n.clients[o].done == s.now + d
  {
    RunOne(s, Put(o, sample));
    RunSnoc(s, [Put(o, sample)], Tick(d));
    RunSnoc(s, [Put(o, sample)] + [Tick(d)], Expire(o, ttl));
    n := Exec(s, [Put(o, sample)] + [Tick(d)] + [Expire(o, ttl)]);
  }

  /** Only plain names renew, so a lock of another name keeps its TTL. */
  predicate ColonOk(s: State) {
    && (forall o | o in s.clients && !Readable(o) :: !s.clients[o].stage.Reading? && !s.clients[o].stage.Wrote?)
    && (s.key.Some? && !Readable(s.key.value.owner) ==> s.key.value.ttl.Some?)
  }

  lemma {:induction false} RunKeepsColon(s: State, es: seq<Event>)
    requires ColonOk(s) && Run(s, es)
    ensures ColonOk(Exec(s, es))
    decreases |es|
  {
    if |es| > 0 {
      RunKeepsColon(Next(s, es[0]), es[1..]);
    }
  }

  /** A holder whose name has a colon never gets its lock renewed, in any run, and the lock is granted to another
      exactly when its TTL has passed, whatever the clock read. */
  lemma ColonLockLapses(es: seq<Event>, later: real, sample: real)
    requires Run(Start, es) && Exec(Start, es).key.Some? && !Readable(Exec(Start, es).key.value.owner)
    ensures var s := Exec(Start, es);
            var o := s.key.value.owner;
            && (Possible(s, Get(o)) ==> Next(s, Get(o)) == s)
            && s.key.value.ttl.Some? && (Grants(s.key, later, sample) <==> s.key.value.ttl.value <= later)
  {
    RunKeepsColon(Start, es);
  }

  lemma {:induction false} GoneIsSilent(s: State, o: string, es: seq<Event>)
    requires o in s.clients && s.clients[o].stage.Gone? && Run(s, es)
    ensures o in Exec(s, es).clients && Exec(s, es).clients[o] == s.clients[o]
    decreases |es|
  {
    if |es| > 0 {
      GoneIsSilent(Next(s, es[0]), o, es[1..]);
    }
  }

  /** An owner that crashed leaves the key as it is and does nothing more in any run; what it believed of its
      lease stands. */
  lemma CrashIsFinal(s: State, o: string, es: seq<Event>, sample: real, ttl: int)
    requires Possible(s, Crash(o)) && Run(Next(s, Crash(o)), es)
    ensures Next(s, Crash(o)).key == s.key
    ensures var n := Exec(Next(s, Crash(o)), es);
            && o in n.clients && n.clients[o].lease == s.clients[o].lease
            && !Possible(n, Get(o)) && !Possible(n, Put(o, sample)) && !Possible(n, Expire(o, ttl))
            && !Possible(n, Release(o)) && !Possible(n, Acquire(o, sample, ttl))
  {
    GoneIsSilent(Next(s, Crash(o)), o, es);
  }

  // ---- a holder that renews in time keeps the lock ----

  /** As long as its last refresh began less than T - T/5 ago, whatever the jitter drew, an owner that
      neither released nor crashed has the lock, and no other acquire is granted. */
  lemma HolderKeepsLock(es: seq<Event>, o: string)
    requires Run(Start, es) && AllObey(Start, es, Guarded)
    requires var s := Exec(Start, es);
             o in s.clients && !s.clients[o].stage.Gone? && s.now - s.clients[o].since < Assured(s.clients[o].term)
    ensures var s := Exec(Start, es);
            HeldBy(s.key, s.now, o) && forall sample: real | sample <= s.now :: !Grants(s.key, s.now, sample)
  {
    RunFromStart(es);
    assert ClientOk(Exec(Start, es), o);
  }

  /** The renewal loop: sleep half a term after each refresh, every refresh taking at most `delay`. */
  predicate Punctual(s: State, o: string, delay: real)
    requires o in s.clients
  {
    var c := s.clients[o];
    && c.done - c.since <= delay
    && match c.stage
       case Holding => s.now - c.done <= c.term as real / 2.0
       case Reading(_, at) => at - c.done <= c.term as real / 2.0 && s.now - at <= delay
       case Wrote(_, at) => at - c.done <= c.term as real / 2.0 && s.now - at <= delay
       case Gone => false
  }

  /** Every term leaves slack between half of it and the shortest TTL a jitter draw can give. */
  lemma HalfTermIsAssured(term: int)
    requires term >= 1
    ensures term as real / 2.0 < Assured(term)
    ensures Assured(term) - term as real / 2.0 >= 3.0 * term as real / 10.0
  {
    assert 5 * (term / 5) <= term;
    assert 5.0 * (term / 5) as real <= term as real;
  }

  /** Renewing every T/2 never loses the lock, for every T >= 1 and every jitter draw, while each
      refresh takes less than 3T/20. */
  lemma PunctualHolderKeepsLock(es: seq<Event>, o: string, delay: real)
    requires Run(Start, es) && AllObey(Start, es, Guarded)
    requires var s := Exec(Start, es);
             o in s.clients && 0.0 <= delay < 3.0 * s.clients[o].term as real / 20.0 && Punctual(s, o, delay)
    ensures var s := Exec(Start, es);
            HeldBy(s.key, s.now, o) && forall sample: real | sample <= s.now :: !Grants(s.key, s.now, sample)
  {
    RunFromStart(es);
    var s := Exec(Start, es);
    assert ClientOk(s, o);
    HalfTermIsAssured(s.clients[o].term);
    HolderKeepsLock(es, o);
  }

  // ---- no lock is forever ----

  /** A stamp is never further ahead than its owner's term, however late renewals run. */
  predicate StampOk(s: State) {
    && (forall o | o in s.clients :: Readable(o))
    && (s.key.Some? ==>
          && s.key.value.owner in s.clients
          && s.key.value.stamp <= Stamp(s.now, s.clients[s.key.value.owner].term))
  }

  lemma {:induction false} RunKeepsStamp(s: State, es: seq<Event>)
    requires StampOk(s) && Run(s, es) && AllObey(s, es, Named)
    ensures StampOk(Exec(s, es))
    decreases |es|
  {
    if |es| > 0 {
      RunKeepsStamp(Next(s, es[0]), es[1..]);
    }
  }

  /** No lock outlives its stamp: in every reachable state, renewals late or not, also with the TTL
      stripped by a renewal that crashed half way, the stamp lies at most T + 1 ahead; and an acquire is granted
      exactly when the TTL has passed or the clock it reads is beyond the stamp. */
  lemma NoLockIsForever(es: seq<Event>, later: real, sample: real)
    requires Run(Start, es) && AllObey(Start, es, Named) && Exec(Start, es).key.Some?
    ensures var s := Exec(Start, es);
            var e := s.key.value;
            && (Grants(s.key, later, sample) <==> (e.ttl.Some? && e.ttl.value <= later) || e.stamp < sample)
            && e.owner in s.clients
            && e.stamp <= s.now + s.clients[e.owner].term as real + 1.0
  {
    RunKeepsStamp(Start, es);
  }
}
