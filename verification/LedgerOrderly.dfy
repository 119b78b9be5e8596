/** Runs in which statuses follow the transition table, nothing else happens to an order while a call on it
    is under way, and no flow is generated beside the pipelines: there the conditions checked before a call
    are the conditions that hold when it commits. */
module LedgerOrderly {
  import opened Sums
  import opened LedgerTables
  import opened LedgerInvariant
  import opened LedgerSteps
  import opened LedgerRuns
  import opened LedgerExactly

  function OrderOf(t: Tables, c: Call): int {
    match c
    case FreezeCall(o, _) => o
    case UnfreezeCall(i) => if i < |t.settlements| then t.settlements[i].order else 0
    case SettleCall(o, _) => o
    case RefundCall(o, _, _) => o
    case GenerateCall(o, _) => o
  }

  predicate NoCallOn(s: State, o: int) {
    forall k | 0 <= k < |s.calls| :: OrderOf(s.t, s.calls[k]) != o
  }

  predicate Orderly(s: State, e: Event)
    requires Possible(s, e)
  {
    match e
    case Write(o, to) => to in AllowedOrderTargets(s.t.orders[o].status) && NoCallOn(s, o)
    case Check(c) => !c.GenerateCall? && NoCallOn(s, OrderOf(s.t, c))
    case _ => true
  }

  predicate AllOrderly(s: State, es: seq<Event>)
    requires Run(s, es)
    decreases |es|
  {
    |es| > 0 ==> Orderly(s, es[0]) && AllOrderly(Next(s, es[0]), es[1..])
  }

  // ---- invariant ----

  predicate Confirmable(s: OrderStatus) {
    s == Settlable || s == Settled || s == Invalid || s == Refunded
  }

  predicate FlowMatchesStatus(t: Tables, f: Flow) {
    && f.order in t.orders
    && Confirmable(t.orders[f.order].status)
    && (f.kind == DeductFlow || f.transfer == Failed ==> t.orders[f.order].status == Refunded)
  }

  /** An order that can still be frozen has no flow. */
  predicate FlowsBacked(t: Tables) {
    forall k | 0 <= k < |t.flows| && HasStatus(t, t.flows[k].order, Settlable) ::
      HasSettlement(t, t.flows[k].order)
  }

  predicate TableOk(t: Tables) {
    (forall k | 0 <= k < |t.flows| :: FlowMatchesStatus(t, t.flows[k])) && FlowsBacked(t)
  }

  /** The check of every call under way still passes, and no two are on one order. */
  predicate StillChecked(s: State) {
    && (forall k | 0 <= k < |s.calls| :: CheckPasses(s.t, s.calls[k]) && !s.calls[k].GenerateCall?)
    && (forall i, j | 0 <= i < j < |s.calls| :: OrderOf(s.t, s.calls[i]) != OrderOf(s.t, s.calls[j]))
  }

  ghost predicate OrderlyInv(s: State) {
    Inv(s) && StatusesAgree(s.t) && TableOk(s.t) && StillChecked(s)
  }

  lemma PostedIsSuccess(t: Tables, k: nat)
    requires PostedOk(t.flows, t.posted) && StatusesAgree(t) && k < |t.flows|
    ensures k in t.posted <==> t.flows[k].transfer == Success
  {
    if k in t.posted {
      var i :| 0 <= i < |t.posted| && t.posted[i] == k;
    }
  }

  // ---- changes to one order leave calls on others alone ----

  predicate OnlyOrder(t: Tables, n: Tables, o: int) {
    && (forall p | p in t.orders && p != o :: p in n.orders && n.orders[p] == t.orders[p])
    && |t.flows| <= |n.flows| && |t.settlements| <= |n.settlements|
    && (forall k | 0 <= k < |t.flows| :: n.flows[k] == t.flows[k] || (t.flows[k].order == o == n.flows[k].order))
    && (forall k | |t.flows| <= k < |n.flows| :: n.flows[k].order == o)
    && (forall i | 0 <= i < |t.settlements| ::
          n.settlements[i] == t.settlements[i] || (t.settlements[i].order == o == n.settlements[i].order))
    && (forall i | |t.settlements| <= i < |n.settlements| :: n.settlements[i].order == o)
  }

  lemma OtherFlows(t: Tables, n: Tables, o: int, p: int, f: nat)
    requires OnlyOrder(t, n, o) && p != o
    ensures FirstFlow(n, p, f) <==> FirstFlow(t, p, f)
    ensures forall kind :: HasFlow(n, p, kind) <==> HasFlow(t, p, kind)
  {
    forall kind
      ensures HasFlow(n, p, kind) <==> HasFlow(t, p, kind)
    {
      if HasFlow(t, p, kind) {
        var k :| 0 <= k < |t.flows| && t.flows[k].order == p && t.flows[k].kind == kind;
        assert n.flows[k] == t.flows[k];
      }
    }
  }

  lemma OtherCheck(t: Tables, n: Tables, o: int, d: Call)
    requires OnlyOrder(t, n, o) && CheckPasses(t, d) && OrderOf(t, d) != o && !d.GenerateCall?
    ensures CheckPasses(n, d) && OrderOf(n, d) == OrderOf(t, d)
  {
    match d
    case FreezeCall(p, _) =>
    case UnfreezeCall(i) => assert n.settlements[i] == t.settlements[i];
    case SettleCall(p, _) =>
      forall f | 0 <= f < |n.flows| && FirstFlow(n, p, f)
        ensures n.flows[f].transfer != Success
      {
        OtherFlows(t, n, o, p, f);
        assert n.flows[f] == t.flows[f];
      }
    case RefundCall(p, f, _) =>
      OtherFlows(t, n, o, p, f);
      assert n.flows[f] == t.flows[f];
  }

  lemma EffectOnlyOrder(t: Tables, c: Call)
    requires TablesOk(t) && CallOk(t, c) && Accepts(t, c)
    ensures OnlyOrder(t, Effect(t, c), OrderOf(t, c))
  {
    if c.UnfreezeCall? {
      assert SettlementOk(t, t.settlements[c.row]);
    }
  }

  // ---- each step keeps it ----

  lemma WriteKeepsTable(t: Tables, o: int, to: OrderStatus)
    requires TableOk(t) && o in t.orders && to in AllowedOrderTargets(t.orders[o].status)
    ensures TableOk(MoveEffect(t, o, to))
  {
    var n := MoveEffect(t, o, to);
    forall k | 0 <= k < |n.flows|
      ensures FlowMatchesStatus(n, n.flows[k])
    {
      assert FlowMatchesStatus(t, t.flows[k]);
    }
    forall k | 0 <= k < |n.flows| && HasStatus(n, n.flows[k].order, Settlable)
      ensures HasSettlement(n, n.flows[k].order)
    {
      assert FlowMatchesStatus(t, t.flows[k]);
      assert HasSettlement(t, t.flows[k].order);
    }
  }

  lemma StillHasSettlement(t: Tables, n: Tables, o: int)
    requires HasSettlement(t, o) && |t.settlements| <= |n.settlements|
    requires forall i | 0 <= i < |t.settlements| :: n.settlements[i].order == t.settlements[i].order
    ensures HasSettlement(n, o)
  {
    var i :| 0 <= i < |t.settlements| && t.settlements[i].order == o;
    assert n.settlements[i].order == o;
  }

  lemma SameOrdersKeepTable(t: Tables, n: Tables)
    requires TableOk(t) && n.orders == t.orders && |t.flows| <= |n.flows| && |t.settlements| <= |n.settlements|
    requires forall i | 0 <= i < |t.settlements| :: n.settlements[i].order == t.settlements[i].order
    requires forall k | 0 <= k < |t.flows| :: n.flows[k].order == t.flows[k].order
    requires forall k | 0 <= k < |n.flows| && (k >= |t.flows| || n.flows[k] != t.flows[k]) ::
               FlowMatchesStatus(n, n.flows[k])
    requires forall k | |t.flows| <= k < |n.flows| && HasStatus(n, n.flows[k].order, Settlable) ::
               HasSettlement(n, n.flows[k].order)
    ensures TableOk(n)
  {
    forall k | 0 <= k < |n.flows|
      ensures FlowMatchesStatus(n, n.flows[k])
    {
      if k < |t.flows| && n.flows[k] == t.flows[k] {
        assert FlowMatchesStatus(t, t.flows[k]);
      }
    }
    forall k | 0 <= k < |n.flows| && HasStatus(n, n.flows[k].order, Settlable)
      ensures HasSettlement(n, n.flows[k].order)
    {
      if k < |t.flows| {
        StillHasSettlement(t, n, t.flows[k].order);
      }
    }
  }

  lemma EffectKeepsTable(t: Tables, c: Call)
    requires TablesOk(t) && TableOk(t) && CallOk(t, c) && Accepts(t, c) && CheckPasses(t, c) && !c.GenerateCall?
    ensures TableOk(Effect(t, c))
  {
    var n := Effect(t, c);
    match c
    case FreezeCall(o, _) =>
      assert n.settlements[|t.settlements|].order == o;
      SameOrdersKeepTable(t, n);
    case UnfreezeCall(i) =>
      assert SettlementOk(t, t.settlements[i]);
      SameOrdersKeepTable(t, n);
    case SettleCall(o, _) => SameOrdersKeepTable(t, n);
    case RefundCall(o, f, seen) => SameOrdersKeepTable(t, n);
  }

  lemma NewOrderKeepsTable(t: Tables, o: int, user: int, status: OrderStatus)
    requires TableOk(t) && o !in t.orders
    ensures TableOk(t.(orders := t.orders[o := Order(user, status)]))
  {
    var n := t.(orders := t.orders[o := Order(user, status)]);
    forall k | 0 <= k < |n.flows|
      ensures FlowMatchesStatus(n, n.flows[k])
    {
      assert FlowMatchesStatus(t, t.flows[k]);
    }
    forall k | 0 <= k < |n.flows| && HasStatus(n, n.flows[k].order, Settlable)
      ensures HasSettlement(n, n.flows[k].order)
    {
      assert FlowMatchesStatus(t, t.flows[k]);
      assert HasSettlement(t, t.flows[k].order);
    }
  }

  lemma PaidKeepsTable(t: Tables, i: nat)
    requires TableOk(t) && i < |t.settlements|
    ensures TableOk(PaidEffect(t, i))
  {
    SameOrdersKeepTable(t, PaidEffect(t, i));
  }

  lemma NextKeepsTable(s: State, e: Event)
    requires OrderlyInv(s) && Possible(s, e) && Orderly(s, e)
    ensures TableOk(Next(s, e).t)
  {
    match e
    case NewOrder(o, user, status) => NewOrderKeepsTable(s.t, o, user, status);
    case Write(o, to) => WriteKeepsTable(s.t, o, to);
    case MarkPaid(i) => PaidKeepsTable(s.t, i);
    case Check(_) =>
    case Finish(k, commit) =>
      if CallEnding(s.t, s.calls[k], commit) == Committed {
        assert CallOk(s.t, s.calls[k]);
        EffectKeepsTable(s.t, s.calls[k]);
      }
  }

  /** Calls on other orders still pass their checks when one order's rows change. */
  lemma OthersStillChecked(s: State, n: Tables, o: int, k: nat)
    requires StillChecked(s) && OnlyOrder(s.t, n, o)
    requires k < |s.calls| && OrderOf(s.t, s.calls[k]) != o
    ensures CheckPasses(n, s.calls[k]) && OrderOf(n, s.calls[k]) == OrderOf(s.t, s.calls[k])
  {
    OtherCheck(s.t, n, o, s.calls[k]);
  }

  lemma WriteKeepsChecked(s: State, o: int, n: Tables)
    requires StillChecked(s) && OnlyOrder(s.t, n, o) && NoCallOn(s, o)
    ensures StillChecked(State(n, s.calls))
  {
    forall k | 0 <= k < |s.calls|
      ensures CheckPasses(n, s.calls[k]) && OrderOf(n, s.calls[k]) == OrderOf(s.t, s.calls[k])
    {
      OthersStillChecked(s, n, o, k);
    }
  }

  lemma FinishKeepsChecked(s: State, k: nat, n: Tables)
    requires StillChecked(s) && k < |s.calls|
    requires n == s.t || OnlyOrder(s.t, n, OrderOf(s.t, s.calls[k]))
    ensures StillChecked(State(n, Without(s.calls, k)))
  {
    forall i | 0 <= i < |s.calls| && i != k
      ensures CheckPasses(n, s.calls[i]) && OrderOf(n, s.calls[i]) == OrderOf(s.t, s.calls[i])
    {
      assert OrderOf(s.t, s.calls[i]) != OrderOf(s.t, s.calls[k]);
      if n != s.t {
        OthersStillChecked(s, n, OrderOf(s.t, s.calls[k]), i);
      }
    }
    forall i | 0 <= i < |s.calls| - 1
      ensures CheckPasses(n, Without(s.calls, k)[i]) && !Without(s.calls, k)[i].GenerateCall?
    {
      WithoutIsOthers(s.calls, k, i);
    }
    forall i, j | 0 <= i < j < |s.calls| - 1
      ensures OrderOf(n, Without(s.calls, k)[i]) != OrderOf(n, Without(s.calls, k)[j])
    {
      WithoutIsOthers(s.calls, k, i);
      WithoutIsOthers(s.calls, k, j);
    }
  }

  /** A fresh order, or one whose rows no call under way is about. */
  lemma NewOrderTouchesNoCall(s: State, o: int)
    requires Inv(s) && o !in s.t.orders
    ensures NoCallOn(s, o)
  {
    forall k | 0 <= k < |s.calls|
      ensures OrderOf(s.t, s.calls[k]) != o
    {
      assert CallOk(s.t, s.calls[k]);
      if s.calls[k].UnfreezeCall? {
        assert SettlementOk(s.t, s.t.settlements[s.calls[k].row]);
      }
    }
  }

  lemma PaidKeepsChecked(s: State, i: nat)
    requires StillChecked(s) && i < |s.t.settlements| && s.t.settlements[i].status == Unfrozen
    ensures StillChecked(State(PaidEffect(s.t, i), s.calls))
  {
    var n := PaidEffect(s.t, i);
    forall k | 0 <= k < |s.calls|
      ensures CheckPasses(n, s.calls[k]) && OrderOf(n, s.calls[k]) == OrderOf(s.t, s.calls[k])
    {
      PaidKeepsCheck(s.t, i, s.calls[k]);
    }
  }

  lemma PaidKeepsCheck(t: Tables, i: nat, c: Call)
    requires CheckPasses(t, c) && !c.GenerateCall? && i < |t.settlements| && t.settlements[i].status == Unfrozen
    ensures CheckPasses(PaidEffect(t, i), c) && OrderOf(PaidEffect(t, i), c) == OrderOf(t, c)
  {
    var n := PaidEffect(t, i);
    match c
    case FreezeCall(o, _) => NoNewSettlement(t, n, o);
    case SettleCall(o, _) =>
      assert forall f | 0 <= f < |n.flows| && FirstFlow(n, o, f) :: FirstFlow(t, o, f);
    case RefundCall(o, f, _) => assert FirstFlow(n, o, f) && !HasFlow(n, o, DeductFlow);
    case _ =>
  }

  lemma NextKeepsChecked(s: State, e: Event)
    requires OrderlyInv(s) && Possible(s, e) && Orderly(s, e)
    ensures StillChecked(Next(s, e))
  {
    match e
    case NewOrder(o, _, _) =>
      NewOrderTouchesNoCall(s, o);
      WriteKeepsChecked(s, o, Next(s, e).t);
    case Write(o, _) => WriteKeepsChecked(s, o, Next(s, e).t);
    case MarkPaid(i) => PaidKeepsChecked(s, i);
    case Check(_) =>
    case Finish(k, commit) =>
      if CallEnding(s.t, s.calls[k], commit) == Committed {
        assert CallOk(s.t, s.calls[k]);
        EffectOnlyOrder(s.t, s.calls[k]);
      }
      FinishKeepsChecked(s, k, Next(s, e).t);
  }

  /** No orderly step is stale: a refund that saw its flow in flight still finds it so. */
  lemma OrderlyIsNotStale(s: State, e: Event)
    requires OrderlyInv(s) && Possible(s, e)
    ensures !Stale(s, e)
  {
    if e.Finish? {
      assert CheckPasses(s.t, s.calls[e.k]);
    }
  }

  lemma NextKeepsOrderly(s: State, e: Event)
    requires OrderlyInv(s) && Possible(s, e) && Orderly(s, e)
    ensures OrderlyInv(Next(s, e))
  {
    NextKeepsInv(s, e);
    OrderlyIsNotStale(s, e);
    NextAgreesExactly(s, e);
    NextKeepsTable(s, e);
    NextKeepsChecked(s, e);
  }

  lemma {:induction false} RunKeepsOrderly(s: State, es: seq<Event>)
    requires OrderlyInv(s) && Run(s, es) && AllOrderly(s, es)
    ensures OrderlyInv(Exec(s, es))
    decreases |es|
  {
    if |es| > 0 {
      NextKeepsOrderly(s, es[0]);
      RunKeepsOrderly(Next(s, es[0]), es[1..]);
    }
  }

  lemma OrderlyFromStart(es: seq<Event>)
    requires Run(Start, es) && AllOrderly(Start, es)
    ensures OrderlyInv(Exec(Start, es))
  {
    RunKeepsOrderly(Start, es);
  }

  // ---- paid at most once, by conditions checked before the call ----

  /** In orderly runs an order on the freeze list has no flow of either pipeline. */
  lemma FreezeListedHasNoFlow(s: State, o: int)
    requires OrderlyInv(s) && FreezeListed(s.t, o)
    ensures forall k | 0 <= k < |s.t.flows| :: s.t.flows[k].order != o
  {
  }

  /** The condition of the payment work list, and the transfer status that the pre-validation of
      execute_refund_deduction asks for. */
  predicate Validated(t: Tables, c: Call) {
    match c
    case SettleCall(o, _) => SettleListed(t, o)
    case RefundCall(_, _, seen) => seen != Failed
    case _ => true
  }

  predicate ValidatedStep(s: State, e: Event)
    requires Possible(s, e)
  {
    e.Finish? && CallEnding(s.t, s.calls[e.k], e.commit) == Committed ==> Validated(s.t, s.calls[e.k])
  }

  predicate AllValidated(s: State, es: seq<Event>)
    requires Run(s, es)
    decreases |es|
  {
    |es| > 0 ==> ValidatedStep(s, es[0]) && AllValidated(Next(s, es[0]), es[1..])
  }

  /** What was to be validated before the call is what is due when it commits. */
  lemma DueIsValidated(s: State, k: nat)
    requires OrderlyInv(s) && k < |s.calls|
    ensures Due(s.t, s.calls[k]) <==> Validated(s.t, s.calls[k])
  {
    assert CheckPasses(s.t, s.calls[k]);
    match s.calls[k]
    case FreezeCall(o, _) => FreezeListedHasNoFlow(s, o);
    case RefundCall(o, f, seen) => PostedIsSuccess(s.t, f);
    case _ =>
  }

  lemma {:induction false} AllDueIsAllValidated(s: State, es: seq<Event>)
    requires OrderlyInv(s) && Run(s, es) && AllOrderly(s, es)
    ensures AllDue(s, es) <==> AllValidated(s, es)
    decreases |es|
  {
    if |es| > 0 {
      if es[0].Finish? { DueIsValidated(s, es[0].k); }
      NextKeepsOrderly(s, es[0]);
      AllDueIsAllValidated(Next(s, es[0]), es[1..]);
    }
  }

  /** At the end of an orderly run the successful flows account for every balance; and every order was paid
      and deducted at most once, each deduction taking back what had been paid, if and only if every
      payment that committed was on the work list and every refund that committed was validated. */
  lemma PaidOnceExactlyWhenValidated(es: seq<Event>)
    requires Run(Start, es) && AllOrderly(Start, es)
    ensures var t := Exec(Start, es).t;
            && SuccessesReconcile(t)
            && InRange(t.flows, t.posted)
            && (Clean(t) <==> AllValidated(Start, es))
  {
    OrderlyFromStart(es);
    ReconcileIsAgree(Exec(Start, es).t);
    CleanExactlyWhenDue(es);
    AllDueIsAllValidated(Start, es);
  }

  // ---- in a clean ledger, what is available is what was paid and not taken back ----

  /** Successful ORDER flows whose order is among `orders`, or is not. */
  function PaidWeight(user: int, orders: set<int>): Flow -> int {
    (f: Flow) => if f.user == user && f.transfer == Success && f.kind == OrderFlow && f.order in orders
                 then f.amount else 0
  }

  function RetainedWeight(user: int, deducted: set<int>): Flow -> int {
    (f: Flow) => if f.user == user && f.transfer == Success && f.kind == OrderFlow && f.order !in deducted
                 then f.amount else 0
  }

  function TakenWeight(user: int, orders: set<int>): Flow -> int {
    (f: Flow) => if f.user == user && f.transfer == Success && f.kind == DeductFlow && f.order in orders
                 then f.amount else 0
  }

  function Deducted(flows: seq<Flow>): set<int> {
    set k | 0 <= k < |flows| && flows[k].kind == DeductFlow :: flows[k].order
  }

  ghost predicate CleanBooks(t: Tables) {
    TablesOk(t) && StatusesAgree(t) && Clean(t)
  }

  lemma {:induction false} SignedSplits(flows: seq<Flow>, user: int, orders: set<int>)
    requires forall k | 0 <= k < |flows| && flows[k].kind == DeductFlow :: flows[k].order in orders
    ensures SignedTotal(flows, user)
            == Sum(flows, RetainedWeight(user, orders)) + Sum(flows, PaidWeight(user, orders))
               - Sum(flows, TakenWeight(user, orders))
  {
    if |flows| > 0 {
      SignedSplits(flows[..|flows| - 1], user, orders);
    }
  }

  /** A deducted order was paid by one flow and taken back by another of the same amount and user. */
  lemma DeductPair(t: Tables, o: int) returns (p: nat, d: nat)
    requires CleanBooks(t) && o in Deducted(t.flows)
    ensures p < |t.flows| && d < |t.flows|
    ensures t.flows[p].kind == OrderFlow && t.flows[p].transfer == Success && t.flows[p].order == o
    ensures t.flows[d].kind == DeductFlow && t.flows[d].transfer == Success && t.flows[d].order == o
    ensures t.flows[p].amount == t.flows[d].amount && t.flows[p].user == t.flows[d].user
    ensures forall j | 0 <= j < |t.flows| && t.flows[j].order == o :: j == p || j == d
  {
    d :| d < |t.flows| && t.flows[d].kind == DeductFlow && t.flows[d].order == o;
    assert FlowOk(t.orders, t.flows[d]);
    var m :| 0 <= m < |t.posted| && t.posted[m] == d;
    assert Covered(t, m);
    var j :| 0 <= j < m && Pays(t.flows[t.posted[j]], t.flows[t.posted[m]]);
    p := t.posted[j];
    assert FlowOk(t.orders, t.flows[p]);
  }

  lemma OnePairMore(t: Tables, user: int, o: int, orders: set<int>)
    requires CleanBooks(t) && o in Deducted(t.flows) && o !in orders
    ensures Sum(t.flows, PaidWeight(user, orders + {o})) - Sum(t.flows, PaidWeight(user, orders))
            == Sum(t.flows, TakenWeight(user, orders + {o})) - Sum(t.flows, TakenWeight(user, orders))
  {
    var p, d := DeductPair(t, o);
    SumDiffAt(t.flows, p, PaidWeight(user, orders), PaidWeight(user, orders + {o}));
    SumDiffAt(t.flows, d, TakenWeight(user, orders), TakenWeight(user, orders + {o}));
  }

  lemma {:induction false} PairsCancel(t: Tables, user: int, orders: set<int>)
    requires CleanBooks(t) && orders <= Deducted(t.flows)
    ensures Sum(t.flows, PaidWeight(user, orders)) == Sum(t.flows, TakenWeight(user, orders))
    decreases orders
  {
    if orders == {} {
      SumZero(t.flows, PaidWeight(user, orders));
      SumZero(t.flows, TakenWeight(user, orders));
    } else {
      var o :| o in orders;
      PairsCancel(t, user, orders - {o});
      OnePairMore(t, user, o, orders - {o});
      assert orders - {o} + {o} == orders;
    }
  }

  /** In a clean ledger the available balance is the successful ORDER flows of orders not deducted. */
  lemma AvailableIsRetained(t: Tables, user: int)
    requires CleanBooks(t)
    ensures AccountOf(t, user).available == Sum(t.flows, RetainedWeight(user, Deducted(t.flows)))
  {
    ReconcileIsAgree(t);
    assert AccountOf(t, user).available == SignedTotal(t.flows, user);
    SignedSplits(t.flows, user, Deducted(t.flows));
    PairsCancel(t, user, Deducted(t.flows));
  }

  /** So taking back a successful flow that was not deducted never overdraws. */
  lemma RefundIsCovered(t: Tables, o: int, f: nat)
    requires CleanBooks(t) && RefundAllowed(t, o, f) && t.flows[f].transfer == Success
    ensures DeductGuard(t, o, f)
  {
    var user := t.orders[o].user;
    assert FlowOk(t.orders, t.flows[f]);
    AvailableIsRetained(t, user);
    var w := RetainedWeight(user, Deducted(t.flows));
    forall j | 0 <= j < |t.flows|
      ensures w(t.flows[j]) >= 0
    {
      assert FlowOk(t.orders, t.flows[j]);
    }
    SumAtLeastTerm(t.flows, w);
    assert o !in Deducted(t.flows);
    assert w(t.flows[f]) == t.flows[f].amount;
  }

  /** In orderly validated runs, no validated call is turned down for lack of balance: the only rejection is
      of an amount that is not positive. */
  lemma GuardsNeverFire(es: seq<Event>, k: nat)
    requires Run(Start, es) && AllOrderly(Start, es) && AllValidated(Start, es)
    requires k < |Exec(Start, es).calls| && Validated(Exec(Start, es).t, Exec(Start, es).calls[k])
    ensures var s := Exec(Start, es);
            Names(s.t, s.calls[k])
            && (!Accepts(s.t, s.calls[k])
                <==> (s.calls[k].FreezeCall? || s.calls[k].SettleCall?) && s.calls[k].amount <= 0)
  {
    OrderlyFromStart(es);
    PaidOnceExactlyWhenValidated(es);
    var s := Exec(Start, es);
    assert CallOk(s.t, s.calls[k]) && CheckPasses(s.t, s.calls[k]);
    match s.calls[k]
    case UnfreezeCall(i) => ConfirmedIsCovered(s.t, i);
    case RefundCall(o, f, seen) =>
      if seen == Success { RefundIsCovered(s.t, o, f); }
    case _ =>
  }

  /** In a clean ledger an order on the SQL deduct list has exactly one ORDER flow, the first one, and
      refunding it is allowed and validated. */
  lemma DeductListNamesOneFlow(t: Tables, o: int) returns (f: nat)
    requires CleanBooks(t) && DeductListed(t, o)
    ensures CheckPasses(t, RefundCall(o, f, Success)) && Validated(t, RefundCall(o, f, Success))
    ensures forall k | 0 <= k < |t.flows| && t.flows[k].order == o && t.flows[k].kind == OrderFlow :: k == f
  {
    f :| 0 <= f < |t.flows| && t.flows[f].order == o && t.flows[f].kind == OrderFlow && t.flows[f].transfer == Success;
  }

  /** And those are the only orders with a successful flow whose refund passes its check: the list and the single
      refund agree. */
  lemma DeductListedExactly(t: Tables, o: int)
    requires CleanBooks(t)
    ensures DeductListed(t, o) <==> exists f: nat :: CheckPasses(t, RefundCall(o, f, Success))
  {
    if DeductListed(t, o) {
      var f := DeductListNamesOneFlow(t, o);
    }
    if f: nat :| CheckPasses(t, RefundCall(o, f, Success)) {
      assert t.flows[f].order == o && t.flows[f].kind == OrderFlow && t.flows[f].transfer == Success;
    }
  }

  // ---- rows only move forward ----

  lemma NextOnlyResolves(s: State, e: Event)
    requires OrderlyInv(s) && Possible(s, e)
    ensures var n := Next(s, e).t;
            && |s.t.flows| <= |n.flows| && |s.t.settlements| <= |n.settlements|
            && (forall k | 0 <= k < |s.t.flows| && s.t.flows[k].transfer != InFlight :: n.flows[k] == s.t.flows[k])
            && (forall i | 0 <= i < |s.t.settlements| && n.settlements[i] != s.t.settlements[i] ::
                  n.settlements[i].status in AllowedSettlementTargets(s.t.settlements[i].status))
  {
    if e.Finish? && CallEnding(s.t, s.calls[e.k], e.commit) == Committed {
      assert CheckPasses(s.t, s.calls[e.k]);
      if s.calls[e.k].UnfreezeCall? {
        assert SettlementOk(s.t, s.t.settlements[s.calls[e.k].row]);
        PostedIsSuccess(s.t, s.t.settlements[s.calls[e.k].row].flow.value);
        assert FlowMatchesStatus(s.t, s.t.flows[s.t.settlements[s.calls[e.k].row].flow.value]);
      }
    }
  }

  /** A flow that succeeded or failed is never written again, in any orderly continuation. */
  lemma {:induction false} ResolvedFlowsNeverChange(s: State, es: seq<Event>, k: nat)
    requires OrderlyInv(s) && Run(s, es) && AllOrderly(s, es)
    requires k < |s.t.flows| && s.t.flows[k].transfer != InFlight
    ensures k < |Exec(s, es).t.flows| && Exec(s, es).t.flows[k] == s.t.flows[k]
    decreases |es|
  {
    if |es| > 0 {
      NextKeepsOrderly(s, es[0]);
      NextOnlyResolves(s, es[0]);
      ResolvedFlowsNeverChange(Next(s, es[0]), es[1..], k);
    }
  }

  // ---- which frozen commission can still be released ----

  predicate Stranded(t: Tables, i: nat, row: Settlement) {
    && i < |t.settlements|
    && t.settlements[i] == row
    && row.status == Confirmed
    && (HasStatus(t, row.order, Invalid) || HasStatus(t, row.order, Refunded))
  }

  lemma NextKeepsStranded(s: State, e: Event, i: nat, row: Settlement)
    requires OrderlyInv(s) && Possible(s, e) && Orderly(s, e) && Stranded(s.t, i, row)
    ensures Stranded(Next(s, e).t, i, row)
  {
    if e.Finish? && CallEnding(s.t, s.calls[e.k], e.commit) == Committed {
      assert CheckPasses(s.t, s.calls[e.k]);
    }
  }

  lemma {:induction false} RunKeepsStranded(s: State, es: seq<Event>, i: nat, row: Settlement)
    requires OrderlyInv(s) && Run(s, es) && AllOrderly(s, es) && Stranded(s.t, i, row)
    ensures Stranded(Exec(s, es).t, i, row)
    decreases |es|
  {
    if |es| > 0 {
      NextKeepsOrderly(s, es[0]);
      NextKeepsStranded(s, es[0], i, row);
      RunKeepsStranded(Next(s, es[0]), es[1..], i, row);
    }
  }

  /** Once an order becomes invalid or refunded while its settlement is still frozen, no orderly continuation
      ever releases that amount: the frozen balance stays at least that high. */
  lemma FrozenForever(s: State, es: seq<Event>, i: nat)
    requires OrderlyInv(s) && Run(s, es) && AllOrderly(s, es)
    requires i < |s.t.settlements| && Stranded(s.t, i, s.t.settlements[i])
    ensures var n := Exec(s, es).t;
            && i < |n.settlements| && n.settlements[i] == s.t.settlements[i]
            && AccountOf(n, s.t.settlements[i].user).frozen >= s.t.settlements[i].amount
  {
    RunKeepsStranded(s, es, i, s.t.settlements[i]);
    RunKeepsOrderly(s, es);
    assert FrozenOk(Exec(s, es).t, s.t.settlements[i].user);
    FrozenCovers(Exec(s, es).t, i);
  }

  /** The run `es` releases the amount frozen by settlement `i`. */
  predicate Releases(s: State, es: seq<Event>, i: nat) {
    && Run(s, es)
    && i < |Exec(s, es).t.settlements|
    && Exec(s, es).t.settlements[i].status != Confirmed
  }

  predicate ReleasesOrderly(s: State, es: seq<Event>, i: nat) {
    Releases(s, es, i) && AllOrderly(s, es)
  }

  lemma {:induction false} OrderlyConcat(s: State, es: seq<Event>, fs: seq<Event>)
    requires Run(s, es) && Run(Exec(s, es), fs) && AllOrderly(s, es) && AllOrderly(Exec(s, es), fs)
    ensures Run(s, es + fs) && Exec(s, es + fs) == Exec(Exec(s, es), fs) && AllOrderly(s, es + fs)
    decreases |es|
  {
    if |es| == 0 {
      assert es + fs == fs;
    } else {
      assert (es + fs)[0] == es[0] && (es + fs)[1..] == es[1..] + fs;
      OrderlyConcat(Next(s, es[0]), es[1..], fs);
    }
  }

  lemma OrderlyOne(s: State, e: Event)
    requires Possible(s, e) && Orderly(s, e)
    ensures Run(s, [e]) && Exec(s, [e]) == Next(s, e) && AllOrderly(s, [e])
  {
    RunOne(s, e);
    assert [e][1..] == [];
    assert AllOrderly(Next(s, e), []);
  }

  lemma OrderlySnoc(s: State, es: seq<Event>, e: Event)
    requires Run(s, es) && AllOrderly(s, es) && Possible(Exec(s, es), e) && Orderly(Exec(s, es), e)
    ensures Run(s, es + [e]) && Exec(s, es + [e]) == Next(Exec(s, es), e) && AllOrderly(s, es + [e])
  {
    OrderlyOne(Exec(s, es), e);
    OrderlyConcat(s, es, [e]);
  }

  /** Checking a call and committing it with nothing in between. */
  lemma CallsThrough(s: State, es: seq<Event>, c: Call) returns (fs: seq<Event>)
    requires Run(s, es) && AllOrderly(s, es)
    requires CheckPasses(Exec(s, es).t, c) && !c.GenerateCall? && NoCallOn(Exec(s, es), OrderOf(Exec(s, es).t, c))
    requires Inv(Exec(s, es)) && Names(Exec(s, es).t, c) && Accepts(Exec(s, es).t, c)
    ensures Run(s, fs) && AllOrderly(s, fs)
    ensures Exec(s, fs) == State(Effect(Exec(s, es).t, c), Exec(s, es).calls)
  {
    var m := Exec(s, es);
    NoLockOnFreeOrder(m, c);
    OrderlySnoc(s, es, Check(c));
    var n := Next(m, Check(c));
    assert n.calls[|m.calls|] == c;
    OrderlySnoc(s, es + [Check(c)], Finish(|m.calls|, true));
    assert Without(n.calls, |m.calls|) == m.calls;
    fs := es + [Check(c)] + [Finish(|m.calls|, true)];
  }

  lemma NoLockOnFreeOrder(s: State, c: Call)
    requires Inv(s) && Names(s.t, c) && NoCallOn(s, OrderOf(s.t, c))
    ensures forall k | 0 <= k < |s.calls| :: !SameLock(s.calls[k], c)
  {
  }

  /** A settlement of a settlable or settled order can be released, once no call on the order is under way. */
  lemma ReleasesFree(s: State, start: seq<Event>, i: nat) returns (es: seq<Event>)
    requires Run(s, start) && AllOrderly(s, start) && OrderlyInv(Exec(s, start))
    requires var m := Exec(s, start);
             && i < |m.t.settlements| && m.t.settlements[i].status == Confirmed
             && NoCallOn(m, m.t.settlements[i].order)
             && (HasStatus(m.t, m.t.settlements[i].order, Settlable)
                 || HasStatus(m.t, m.t.settlements[i].order, Settled))
    ensures ReleasesOrderly(s, es, i)
  {
    var m := Exec(s, start);
    var o := m.t.settlements[i].order;
    if HasStatus(m.t, o, Settled) {
      ConfirmedIsCovered(m.t, i);
      es := CallsThrough(s, start, UnfreezeCall(i));
    } else {
      OrderlySnoc(s, start, Write(o, Settled));
      NextKeepsOrderly(m, Write(o, Settled));
      ConfirmedIsCovered(Next(m, Write(o, Settled)).t, i);
      es := CallsThrough(s, start + [Write(o, Settled)], UnfreezeCall(i));
    }
  }

  /** A call under way can be rolled back, which frees its order. */
  lemma RollsBack(s: State, k: nat) returns (n: State)
    requires OrderlyInv(s) && k < |s.calls|
    ensures Possible(s, Finish(k, false)) && n == Next(s, Finish(k, false)) && OrderlyInv(n)
    ensures n.t == s.t && NoCallOn(n, OrderOf(s.t, s.calls[k]))
  {
    assert CallOk(s.t, s.calls[k]);
    NextKeepsOrderly(s, Finish(k, false));
    n := Next(s, Finish(k, false));
    forall j | 0 <= j < |n.calls|
      ensures OrderOf(n.t, n.calls[j]) != OrderOf(s.t, s.calls[k])
    {
      WithoutIsOthers(s.calls, k, j);
    }
  }

  /** A confirmed settlement can still be released by some orderly continuation if and only if its order is
      settlable or settled. */
  lemma ReleasableExactly(s: State, i: nat)
    requires OrderlyInv(s) && i < |s.t.settlements| && s.t.settlements[i].status == Confirmed
    ensures (exists es :: ReleasesOrderly(s, es, i))
            <==> HasStatus(s.t, s.t.settlements[i].order, Settlable)
                 || HasStatus(s.t, s.t.settlements[i].order, Settled)
  {
    var o := s.t.settlements[i].order;
    assert SettlementOk(s.t, s.t.settlements[i]);
    assert FlowMatchesStatus(s.t, s.t.flows[s.t.settlements[i].flow.value]);
    if HasStatus(s.t, o, Settled) || HasStatus(s.t, o, Settlable) {
      if k: nat :| k < |s.calls| && OrderOf(s.t, s.calls[k]) == o {
        var n := RollsBack(s, k);
        OrderlyOne(s, Finish(k, false));
        var es := ReleasesFree(s, [Finish(k, false)], i);
        assert ReleasesOrderly(s, es, i);
      } else {
        var es := ReleasesFree(s, [], i);
        assert ReleasesOrderly(s, es, i);
      }
    } else {
      forall es | Run(s, es) && AllOrderly(s, es)
        ensures !Releases(s, es, i)
      {
        FrozenForever(s, es, i);
      }
    }
  }

  /** When statuses need not follow the table, every confirmed settlement can still be released, from every
      reachable state: the channel only has to report its order settled once more. */
  lemma AnyStatusReleases(s: State, i: nat) returns (es: seq<Event>)
    requires Inv(s) && i < |s.t.settlements| && s.t.settlements[i].status == Confirmed
    ensures Releases(s, es, i)
  {
    var c := UnfreezeCall(i);
    if k: nat :| k < |s.calls| && SameLock(s.calls[k], c) {
      ConfirmedIsCovered(s.t, i);
      es := [Finish(k, true)];
      RunOne(s, Finish(k, true));
    } else {
      var o := s.t.settlements[i].order;
      assert SettlementOk(s.t, s.t.settlements[i]);
      var m := Next(s, Write(o, Settled));
      NextKeepsInv(s, Write(o, Settled));
      ConfirmedIsCovered(m.t, i);
      RunOne(s, Write(o, Settled));
      RunSnoc(s, [Write(o, Settled)], Check(c));
      assert Next(m, Check(c)).calls[|m.calls|] == c;
      RunSnoc(s, [Write(o, Settled)] + [Check(c)], Finish(|m.calls|, true));
      es := [Write(o, Settled)] + [Check(c)] + [Finish(|m.calls|, true)];
    }
  }
}
