/** Runs of all writers over arbitrarily many users and orders. A service call is two steps, its check and
    later its transaction, so calls overlap in any way; orders arrive with any status, and the channel
    sync writes any status at any time. Only freezing and unfreezing hold an operation lock. */
module LedgerRuns {
  import opened LedgerTables
  import opened LedgerInvariant
  import opened LedgerSteps

  datatype State = State(t: Tables, calls: seq<Call>)

  const Start := State(EmptyTables, [])

  /** `commit` is the database's answer at commit time. */
  datatype Event =
    | NewOrder(order: int, user: int, status: OrderStatus)
    | Write(order: int, to: OrderStatus)
    | MarkPaid(row: nat)
    | Check(call: Call)
    | Finish(k: nat, commit: bool)

  /** How a transaction ends: `Rejected` is a ValueError, `RolledBack` a failed commit. */
  datatype Outcome = Committed | RolledBack | Rejected

  function Ending(accepted: bool, commit: bool): Outcome {
    if !accepted then Rejected else if commit then Committed else RolledBack
  }

  function CallEnding(t: Tables, c: Call, commit: bool): Outcome
    requires Names(t, c)
  {
    Ending(Accepts(t, c), commit)
  }

  /** What may happen next. The rows that a call under way names are always still there. */
  predicate Possible(s: State, e: Event) {
    match e
    case NewOrder(o, _, _) => o !in s.t.orders
    case Write(o, _) => o in s.t.orders
    case MarkPaid(i) => i < |s.t.settlements| && PaidOut in AllowedSettlementTargets(s.t.settlements[i].status)
    case Check(c) => CheckPasses(s.t, c) && forall k | 0 <= k < |s.calls| :: !SameLock(s.calls[k], c)
    case Finish(k, _) => k < |s.calls| && Names(s.t, s.calls[k])
  }

  function Without(calls: seq<Call>, k: nat): seq<Call>
    requires k < |calls|
  {
    calls[..k] + calls[k + 1..]
  }

  function AfterCall(t: Tables, c: Call, commit: bool): Tables
    requires Names(t, c)
  {
    if CallEnding(t, c, commit) == Committed then Effect(t, c) else t
  }

  function Next(s: State, e: Event): State
    requires Possible(s, e)
  {
    match e
    case NewOrder(o, user, status) => s.(t := s.t.(orders := s.t.orders[o := Order(user, status)]))
    case Write(o, to) => s.(t := MoveEffect(s.t, o, to))
    case MarkPaid(i) => s.(t := PaidEffect(s.t, i))
    case Check(c) => s.(calls := s.calls + [c])
    case Finish(k, commit) => State(AfterCall(s.t, s.calls[k], commit), Without(s.calls, k))
  }

  predicate Run(s: State, es: seq<Event>)
    decreases |es|
  {
    |es| > 0 ==> Possible(s, es[0]) && Run(Next(s, es[0]), es[1..])
  }

  function Exec(s: State, es: seq<Event>): State
    requires Run(s, es)
    decreases |es|
  {
    if |es| == 0 then s else Exec(Next(s, es[0]), es[1..])
  }

  // ---- invariant ----

  ghost predicate Inv(s: State) {
    TablesOk(s.t) && CallsOk(s.t, s.calls)
  }

  lemma WithoutIsOthers(calls: seq<Call>, k: nat, i: nat)
    requires k < |calls| && i < |calls| - 1
    ensures Without(calls, k)[i] == if i < k then calls[i] else calls[i + 1]
  {
  }

  lemma FinishKeepsCalls(s: State, k: nat, commit: bool)
    requires Inv(s) && Possible(s, Finish(k, commit))
    ensures CallsOk(Next(s, Finish(k, commit)).t, Without(s.calls, k))
  {
    var n := Next(s, Finish(k, commit)).t;
    forall i | 0 <= i < |s.calls| && i != k
      ensures CallOk(n, s.calls[i])
    {
      assert !SameLock(s.calls[k], s.calls[i]);
      if CallEnding(s.t, s.calls[k], commit) == Committed {
        EffectKeepsCall(s.t, s.calls[k], s.calls[i]);
      }
    }
    forall i | 0 <= i < |s.calls| - 1
      ensures CallOk(n, Without(s.calls, k)[i])
    {
      WithoutIsOthers(s.calls, k, i);
    }
    forall i, j | 0 <= i < j < |s.calls| - 1
      ensures !SameLock(Without(s.calls, k)[i], Without(s.calls, k)[j])
    {
      WithoutIsOthers(s.calls, k, i);
      WithoutIsOthers(s.calls, k, j);
    }
  }

  /** Steps that change no flow, no posting and no settlement keep every call under way. */
  lemma OrdersKeepCalls(t: Tables, n: Tables, calls: seq<Call>)
    requires CallsOk(t, calls) && n == t.(orders := n.orders)
    requires forall o | o in t.orders :: o in n.orders && n.orders[o].user == t.orders[o].user
    ensures CallsOk(n, calls)
  {
    forall k | 0 <= k < |calls|
      ensures CallOk(n, calls[k])
    {
      if calls[k].FreezeCall? { NoNewSettlement(t, n, calls[k].order); }
      CallSurvives(t, n, calls[k]);
    }
  }

  lemma PaidKeepsCalls(t: Tables, i: nat, calls: seq<Call>)
    requires CallsOk(t, calls) && i < |t.settlements| && PaidOut in AllowedSettlementTargets(t.settlements[i].status)
    ensures CallsOk(PaidEffect(t, i), calls)
  {
    var n := PaidEffect(t, i);
    forall k | 0 <= k < |calls|
      ensures CallOk(n, calls[k])
    {
      if calls[k].FreezeCall? { NoNewSettlement(t, n, calls[k].order); }
      CallSurvives(t, n, calls[k]);
    }
  }

  lemma CheckKeepsCalls(s: State, c: Call)
    requires CallsOk(s.t, s.calls) && Possible(s, Check(c))
    ensures CallsOk(s.t, s.calls + [c])
  {
  }

  lemma NextKeepsInv(s: State, e: Event)
    requires Inv(s) && Possible(s, e)
    ensures Inv(Next(s, e))
  {
    match e
    case NewOrder(_, _, _) =>
      OrdersKeepTables(s.t, Next(s, e).t);
      OrdersKeepCalls(s.t, Next(s, e).t, s.calls);
    case Write(_, _) =>
      OrdersKeepTables(s.t, Next(s, e).t);
      OrdersKeepCalls(s.t, Next(s, e).t, s.calls);
    case MarkPaid(i) =>
      PaidKeepsTables(s.t, i);
      PaidKeepsCalls(s.t, i, s.calls);
    case Check(c) => CheckKeepsCalls(s, c);
    case Finish(k, commit) =>
      FinishKeepsCalls(s, k, commit);
      if CallEnding(s.t, s.calls[k], commit) == Committed {
        EffectKeepsTables(s.t, s.calls[k]);
      }
  }

  lemma {:induction false} RunKeepsInv(s: State, es: seq<Event>)
    requires Inv(s) && Run(s, es)
    ensures Inv(Exec(s, es))
    decreases |es|
  {
    if |es| > 0 {
      NextKeepsInv(s, es[0]);
      RunKeepsInv(Next(s, es[0]), es[1..]);
    }
  }

  lemma RunFromStart(es: seq<Event>)
    requires Run(Start, es)
    ensures Inv(Exec(Start, es))
  {
    RunKeepsInv(Start, es);
  }

  // ---- what every run keeps ----

  /** Whether a committed event changes this user's account. */
  predicate Touches(s: State, e: Event, user: int)
    requires Possible(s, e)
  {
    e.Finish? && CallEnding(s.t, s.calls[e.k], e.commit) == Committed &&
    match s.calls[e.k]
    case FreezeCall(o, _) => s.t.orders[o].user == user
    case UnfreezeCall(i) => s.t.settlements[i].user == user
    case SettleCall(o, _) => s.t.orders[o].user == user
    case RefundCall(o, _, seen) => s.t.orders[o].user == user && seen != InFlight
    case GenerateCall(_, _) => false
  }

  /** How many committed events of a run changed this user's account. */
  function Changes(s: State, es: seq<Event>, user: int): nat
    requires Run(s, es)
    decreases |es|
  {
    if |es| == 0 then 0
    else (if Touches(s, es[0], user) then 1 else 0) + Changes(Next(s, es[0]), es[1..], user)
  }

  lemma {:induction false} VersionCounts(s: State, es: seq<Event>, user: int)
    requires Run(s, es)
    ensures AccountOf(Exec(s, es).t, user).version == AccountOf(s.t, user).version + Changes(s, es, user)
    decreases |es|
  {
    if |es| > 0 {
      VersionCounts(Next(s, es[0]), es[1..], user);
    }
  }

  /** After any run: frozen is the confirmed settlements, total is available and frozen, the version is
      the number of commits that changed the account, and available is ORDER successes minus deductions
      plus what was posted and later marked FAILED. */
  lemma AccountsReconcile(es: seq<Event>, user: int)
    requires Run(Start, es)
    ensures var t := Exec(Start, es).t;
            var a := AccountOf(t, user);
            && InRange(t.flows, t.posted)
            && a.frozen == FrozenTotal(t.settlements, user)
            && a.total == a.available + a.frozen
            && a.version == Changes(Start, es, user)
            && a.available == SignedTotal(t.flows, user) + Lost(t.flows, t.posted, user)
            && Lost(t.flows, t.posted, user) >= 0
  {
    RunFromStart(es);
    VersionCounts(Start, es, user);
    var t := Exec(Start, es).t;
    assert FrozenOk(t, user) && AvailableOk(t, user);
    NothingLostExactly(t, user);
  }

  /** After any run, no balance is negative. */
  lemma BalancesNeverNegative(es: seq<Event>, user: int)
    requires Run(Start, es)
    ensures var a := AccountOf(Exec(Start, es).t, user);
            a.frozen >= 0 && a.available >= 0 && a.total >= 0
  {
    RunFromStart(es);
    assert FrozenOk(Exec(Start, es).t, user) && AvailableOk(Exec(Start, es).t, user);
    FrozenNonNegative(Exec(Start, es).t, user);
  }

  /** After any run, per user, the postings chain in commit order from zero to the available balance; each
      is listed once and moved the balance by its own amount, and every successful flow is among them. */
  lemma PostingsChain(es: seq<Event>, user: int)
    requires Run(Start, es)
    ensures var t := Exec(Start, es).t;
            && PostedOk(t.flows, t.posted)
            && Chained(t.flows, t.posted, user)
            && LastBalance(t.flows, t.posted, user) == AccountOf(t, user).available
  {
    RunFromStart(es);
    assert AvailableOk(Exec(Start, es).t, user);
  }

  /** In any run, an unfreeze under way never fails the overdraft check, and an order has at most one
      settlement. */
  lemma UnfreezeNeverRejected(es: seq<Event>, k: nat, commit: bool)
    requires Run(Start, es) && k < |Exec(Start, es).calls| && Exec(Start, es).calls[k].UnfreezeCall?
    ensures Possible(Exec(Start, es), Finish(k, commit))
    ensures CallEnding(Exec(Start, es).t, Exec(Start, es).calls[k], commit) == if commit then Committed else RolledBack
    ensures UniqueSettlements(Exec(Start, es).t.settlements)
  {
    RunFromStart(es);
    var s := Exec(Start, es);
    assert CallOk(s.t, s.calls[k]);
    ConfirmedIsCovered(s.t, s.calls[k].row);
  }

  // ---- putting runs together ----

  lemma {:induction false} RunConcat(s: State, es: seq<Event>, fs: seq<Event>)
    requires Run(s, es) && Run(Exec(s, es), fs)
    ensures Run(s, es + fs) && Exec(s, es + fs) == Exec(Exec(s, es), fs)
    decreases |es|
  {
    if |es| == 0 {
      assert es + fs == fs;
    } else {
      assert (es + fs)[0] == es[0] && (es + fs)[1..] == es[1..] + fs;
      RunConcat(Next(s, es[0]), es[1..], fs);
    }
  }

  lemma RunOne(s: State, e: Event)
    requires Possible(s, e)
    ensures Run(s, [e]) && Exec(s, [e]) == Next(s, e)
  {
    assert [e][1..] == [];
    assert Run(Next(s, e), []);
  }

  /** A run goes on with one more step. */
  lemma RunSnoc(s: State, es: seq<Event>, e: Event)
    requires Run(s, es) && Possible(Exec(s, es), e)
    ensures Run(s, es + [e]) && Exec(s, es + [e]) == Next(Exec(s, es), e)
  {
    RunOne(Exec(s, es), e);
    RunConcat(s, es, [e]);
  }
}
