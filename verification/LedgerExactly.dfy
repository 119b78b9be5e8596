/** What the services' checks alone do not give a run: that successes account for every balance, that nothing
    is paid twice or taken back unpaid, and that an order is deducted once; each with its exact condition
    at commit time, or its bound. */
module LedgerExactly {
  import opened Sums
  import opened LedgerTables
  import opened LedgerInvariant
  import opened LedgerSteps
  import opened LedgerRuns

  // ---- exactly when the successful flows account for everything ----

  /** A refund that saw its flow in flight commits after that flow was paid. */
  predicate Stale(s: State, e: Event)
    requires Possible(s, e)
  {
    && e.Finish? && CallEnding(s.t, s.calls[e.k], e.commit) == Committed
    && s.calls[e.k].RefundCall? && s.calls[e.k].seen == InFlight
    && s.t.flows[s.calls[e.k].flow].transfer == Success
  }

  predicate NothingStale(s: State, es: seq<Event>)
    requires Run(s, es)
    decreases |es|
  {
    |es| > 0 ==> !Stale(s, es[0]) && NothingStale(Next(s, es[0]), es[1..])
  }

  /** Every posting is still successful. */
  predicate StatusesAgree(t: Tables) {
    forall i | 0 <= i < |t.posted| :: t.posted[i] < |t.flows| && t.flows[t.posted[i]].transfer == Success
  }

  /** One step keeps postings successful exactly when they were and it is not stale. */
  lemma NextAgreesExactly(s: State, e: Event)
    requires Inv(s) && Possible(s, e)
    ensures StatusesAgree(Next(s, e).t) <==> StatusesAgree(s.t) && !Stale(s, e)
  {
    if e.Finish? && CallEnding(s.t, s.calls[e.k], e.commit) == Committed {
      var c := s.calls[e.k];
      assert CallOk(s.t, c);
      match c
      case UnfreezeCall(i) =>
        assert SettlementOk(s.t, s.t.settlements[i]);
        UnfreezePosts(s.t, i);
        PostsAgree(s.t, Effect(s.t, c), s.t.settlements[i].flow.value);
      case SettleCall(o, _) =>
        assert AvailableOk(s.t, s.t.orders[o].user);
        PostsAgree(s.t, Effect(s.t, c), |s.t.flows|);
      case RefundCall(o, f, seen) =>
        assert FlowOk(s.t.orders, s.t.flows[f]);
        if seen == InFlight {
          FailAgrees(s.t, f);
        } else {
          PostsAgree(s.t, Effect(s.t, c), |s.t.flows|);
        }
      case _ => SameAgree(s.t, Effect(s.t, c));
    }
  }

  lemma SameAgree(t: Tables, n: Tables)
    requires n.posted == t.posted && InRange(t.flows, t.posted) && |t.flows| <= |n.flows|
    requires forall k | 0 <= k < |t.flows| :: n.flows[k] == t.flows[k]
    ensures StatusesAgree(n) <==> StatusesAgree(t)
  {
    forall i | 0 <= i < |t.posted|
      ensures n.flows[t.posted[i]] == t.flows[t.posted[i]]
    {
    }
  }

  lemma PostsAgree(t: Tables, n: Tables, k: nat)
    requires PostedOk(t.flows, t.posted) && Posts(t, n, k) && (|n.flows| > |t.flows| ==> k == |t.flows|)
    ensures StatusesAgree(n) <==> StatusesAgree(t)
  {
    PostsKeepsPosted(t, n, k);
    assert forall i | 0 <= i < |t.posted| :: n.posted[i] == t.posted[i];
    assert n.posted[|t.posted|] == k;
    if StatusesAgree(n) {
      forall i | 0 <= i < |t.posted|
        ensures t.flows[t.posted[i]].transfer == Success
      {
        assert n.flows[n.posted[i]].transfer == Success;
      }
    }
  }

  lemma FailAgrees(t: Tables, f: nat)
    requires PostedOk(t.flows, t.posted) && f < |t.flows|
    ensures StatusesAgree(t.(flows := Fail(t.flows, f))) <==> StatusesAgree(t) && t.flows[f].transfer != Success
  {
    var n := t.(flows := Fail(t.flows, f));
    if t.flows[f].transfer == Success {
      var i :| 0 <= i < |t.posted| && t.posted[i] == f;
      assert n.flows[n.posted[i]].transfer == Failed;
    }
    if StatusesAgree(n) {
      forall i | 0 <= i < |t.posted|
        ensures t.flows[t.posted[i]].transfer == Success
      {
        assert n.flows[n.posted[i]].transfer == Success;
      }
    }
  }

  lemma {:induction false} RunAgreesExactly(s: State, es: seq<Event>)
    requires Inv(s) && Run(s, es)
    ensures StatusesAgree(Exec(s, es).t) <==> StatusesAgree(s.t) && NothingStale(s, es)
    decreases |es|
  {
    if |es| > 0 {
      NextKeepsInv(s, es[0]);
      NextAgreesExactly(s, es[0]);
      RunAgreesExactly(Next(s, es[0]), es[1..]);
    }
  }

  /** Every user's available balance is ORDER successes minus deductions. */
  ghost predicate SuccessesReconcile(t: Tables) {
    forall user :: AccountOf(t, user).available == SignedTotal(t.flows, user)
  }

  lemma ReconcileIsAgree(t: Tables)
    requires TablesOk(t)
    ensures SuccessesReconcile(t) <==> StatusesAgree(t)
  {
    if StatusesAgree(t) {
      forall user
        ensures AccountOf(t, user).available == SignedTotal(t.flows, user)
      {
        assert AvailableOk(t, user);
        NothingLostExactly(t, user);
      }
    } else {
      var i: nat :| i < |t.posted| && t.flows[t.posted[i]].transfer != Success;
      var user := t.flows[t.posted[i]].user;
      assert PostedFlow(t.flows[t.posted[i]]);
      assert FailedPosting(t.flows, t.posted, i, user);
      assert AvailableOk(t, user);
      NothingLostExactly(t, user);
      assert AccountOf(t, user).available != SignedTotal(t.flows, user);
    }
  }

  /** At the end of any run the successful flows account for every available balance if and only if no
      refund committed that saw in flight what had been paid by then. */
  lemma SuccessesReconcileExactly(es: seq<Event>)
    requires Run(Start, es)
    ensures SuccessesReconcile(Exec(Start, es).t) <==> NothingStale(Start, es)
  {
    RunFromStart(es);
    RunAgreesExactly(Start, es);
    ReconcileIsAgree(Exec(Start, es).t);
  }

  // ---- exactly when nothing is paid twice or taken back unpaid ----

  predicate UniqueFlows(flows: seq<Flow>) {
    forall i, j | 0 <= i < j < |flows| && flows[i].order == flows[j].order :: flows[i].kind != flows[j].kind
  }

  /** Posting `m` deducts what an earlier posting paid for the same order. */
  predicate Covered(t: Tables, m: nat)
    requires InRange(t.flows, t.posted) && m < |t.posted|
  {
    exists j | 0 <= j < m :: Pays(t.flows[t.posted[j]], t.flows[t.posted[m]])
  }

  predicate Pays(p: Flow, d: Flow) {
    p.kind == OrderFlow && p.order == d.order && p.amount == d.amount
  }

  predicate DeductsCovered(t: Tables)
    requires InRange(t.flows, t.posted)
  {
    forall m | 0 <= m < |t.posted| && t.flows[t.posted[m]].kind == DeductFlow :: Covered(t, m)
  }

  /** Every order has at most one ORDER and one DEDUCT flow, and every deduction took back what had been
      paid for its order before. */
  predicate Clean(t: Tables)
    requires InRange(t.flows, t.posted)
  {
    UniqueFlows(t.flows) && DeductsCovered(t)
  }

  /** What would have to hold when a call commits: no ORDER flow yet for one that adds it; no DEDUCT flow
      yet and a posted ORDER flow for one that takes back. */
  predicate Due(t: Tables, c: Call) {
    match c
    case FreezeCall(o, _) => !HasFlow(t, o, OrderFlow)
    case UnfreezeCall(_) => true
    case SettleCall(o, _) => !HasFlow(t, o, OrderFlow)
    case RefundCall(o, f, seen) => seen == InFlight || (!HasFlow(t, o, DeductFlow) && f in t.posted)
    case GenerateCall(o, _) => !HasFlow(t, o, OrderFlow)
  }

  predicate DueStep(s: State, e: Event)
    requires Possible(s, e)
  {
    e.Finish? && CallEnding(s.t, s.calls[e.k], e.commit) == Committed ==> Due(s.t, s.calls[e.k])
  }

  predicate AllDue(s: State, es: seq<Event>)
    requires Run(s, es)
    decreases |es|
  {
    |es| > 0 ==> DueStep(s, es[0]) && AllDue(Next(s, es[0]), es[1..])
  }

  lemma UniqueAppended(flows: seq<Flow>, f: Flow)
    ensures UniqueFlows(flows + [f]) <==>
            UniqueFlows(flows)
            && forall k | 0 <= k < |flows| :: !(flows[k].order == f.order && flows[k].kind == f.kind)
  {
    var more := flows + [f];
    assert forall k | 0 <= k < |flows| :: more[k] == flows[k];
    if UniqueFlows(more) {
      assert more[|flows|] == f;
    }
  }

  lemma UniqueFrame(flows: seq<Flow>, other: seq<Flow>)
    requires |flows| == |other|
    requires forall k | 0 <= k < |flows| :: other[k].order == flows[k].order && other[k].kind == flows[k].kind
    ensures UniqueFlows(other) <==> UniqueFlows(flows)
  {
  }

  predicate SameDue(f: Flow, g: Flow) {
    f.order == g.order && f.kind == g.kind && f.amount == g.amount
  }

  /** Postings already made stay covered or not, whatever is added or rewritten later. */
  lemma CoveredFrame(t: Tables, n: Tables, m: nat)
    requires InRange(t.flows, t.posted) && InRange(n.flows, n.posted) && m < |t.posted| && t.posted <= n.posted
    requires forall i | 0 <= i < |t.posted| :: SameDue(t.flows[t.posted[i]], n.flows[t.posted[i]])
    ensures Covered(n, m) <==> Covered(t, m)
  {
    assert forall i | 0 <= i <= m :: n.posted[i] == t.posted[i] && SameDue(t.flows[t.posted[i]], n.flows[t.posted[i]]);
  }

  lemma CoveredSame(t: Tables, n: Tables)
    requires InRange(t.flows, t.posted) && InRange(n.flows, n.posted) && n.posted == t.posted
    requires forall i | 0 <= i < |t.posted| :: SameDue(t.flows[t.posted[i]], n.flows[t.posted[i]])
    ensures DeductsCovered(n) <==> DeductsCovered(t)
  {
    forall m | 0 <= m < |t.posted|
      ensures (Covered(n, m) <==> Covered(t, m)) && n.flows[n.posted[m]].kind == t.flows[t.posted[m]].kind
    {
      assert SameDue(t.flows[t.posted[m]], n.flows[t.posted[m]]);
      CoveredFrame(t, n, m);
    }
  }

  lemma CoveredPosted(t: Tables, n: Tables, k: nat)
    requires InRange(t.flows, t.posted) && InRange(n.flows, n.posted) && n.posted == t.posted + [k]
    requires |t.flows| <= |n.flows| && k < |n.flows|
    requires forall i | 0 <= i < |t.posted| :: SameDue(t.flows[t.posted[i]], n.flows[t.posted[i]])
    ensures DeductsCovered(n) <==>
            DeductsCovered(t) && (n.flows[k].kind == DeductFlow ==> Covered(n, |t.posted|))
  {
    assert n.posted[|t.posted|] == k;
    forall m | 0 <= m < |t.posted|
      ensures (Covered(n, m) <==> Covered(t, m)) && n.flows[n.posted[m]].kind == t.flows[t.posted[m]].kind
    {
      assert SameDue(t.flows[t.posted[m]], n.flows[t.posted[m]]);
      CoveredFrame(t, n, m);
    }
  }

  /** A deduction of flow `f` is covered when `f` was posted, and in a ledger with unique flows only then. */
  lemma RefundCoveredExactly(t: Tables, n: Tables, o: int, f: nat)
    requires RowsOk(t) && PostedOk(t.flows, t.posted) && o in t.orders && f < |t.flows|
    requires t.flows[f].order == o && t.flows[f].kind == OrderFlow
    requires n == RefundEffect(t, o, f, Success) && InRange(n.flows, n.posted)
    ensures f in t.posted ==> Covered(n, |t.posted|)
    ensures UniqueFlows(t.flows) && Covered(n, |t.posted|) ==> f in t.posted
  {
    var d := n.flows[n.posted[|t.posted|]];
    assert forall i | 0 <= i < |t.posted| :: n.posted[i] == t.posted[i] && n.flows[n.posted[i]] == t.flows[t.posted[i]];
    if f in t.posted {
      var j :| 0 <= j < |t.posted| && t.posted[j] == f;
      assert Pays(n.flows[n.posted[j]], d);
    }
    if UniqueFlows(t.flows) && Covered(n, |t.posted|) {
      var j :| 0 <= j < |t.posted| && Pays(n.flows[n.posted[j]], d);
      assert t.posted[j] == f;
    }
  }

  lemma RefundCleanExactly(t: Tables, o: int, f: nat, seen: TransferStatus)
    requires TablesOk(t) && CallOk(t, RefundCall(o, f, seen)) && Accepts(t, RefundCall(o, f, seen))
    ensures var n := RefundEffect(t, o, f, seen);
            InRange(n.flows, n.posted) && (Clean(n) <==> Clean(t) && Due(t, RefundCall(o, f, seen)))
  {
    var n := RefundEffect(t, o, f, seen);
    if seen == InFlight {
      UniqueFrame(t.flows, n.flows);
      CoveredSame(t, n);
    } else {
      assert n == RefundEffect(t, o, f, Success);
      UniqueAppended(t.flows, n.flows[|t.flows|]);
      CoveredPosted(t, n, |t.flows|);
      RefundCoveredExactly(t, n, o, f);
    }
  }

  /** Committing a call leaves a clean ledger exactly when it was clean and the call was due. */
  lemma EffectCleanExactly(t: Tables, c: Call)
    requires TablesOk(t) && CallOk(t, c) && Accepts(t, c)
    ensures var n := Effect(t, c);
            InRange(n.flows, n.posted) && (Clean(n) <==> Clean(t) && Due(t, c))
  {
    var n := Effect(t, c);
    match c
    case FreezeCall(o, _) =>
      UniqueAppended(t.flows, n.flows[|t.flows|]);
      CoveredSame(t, n);
    case UnfreezeCall(i) =>
      assert SettlementOk(t, t.settlements[i]);
      UniqueFrame(t.flows, n.flows);
      CoveredPosted(t, n, t.settlements[i].flow.value);
    case SettleCall(o, _) =>
      UniqueAppended(t.flows, n.flows[|t.flows|]);
      CoveredPosted(t, n, |t.flows|);
    case RefundCall(o, f, seen) => RefundCleanExactly(t, o, f, seen);
    case GenerateCall(o, _) =>
      UniqueAppended(t.flows, n.flows[|t.flows|]);
      CoveredSame(t, n);
  }

  lemma NextCleanExactly(s: State, e: Event)
    requires Inv(s) && Possible(s, e)
    ensures var n := Next(s, e);
            InRange(n.t.flows, n.t.posted) && (Clean(n.t) <==> Clean(s.t) && DueStep(s, e))
  {
    if e.Finish? && CallEnding(s.t, s.calls[e.k], e.commit) == Committed {
      assert CallOk(s.t, s.calls[e.k]);
      EffectCleanExactly(s.t, s.calls[e.k]);
    } else {
      CoveredSame(s.t, Next(s, e).t);
    }
  }

  lemma {:induction false} RunCleanExactly(s: State, es: seq<Event>)
    requires Inv(s) && Run(s, es)
    ensures var n := Exec(s, es);
            InRange(n.t.flows, n.t.posted) && (Clean(n.t) <==> Clean(s.t) && AllDue(s, es))
    decreases |es|
  {
    if |es| > 0 {
      NextKeepsInv(s, es[0]);
      NextCleanExactly(s, es[0]);
      RunCleanExactly(Next(s, es[0]), es[1..]);
    }
  }

  /** At the end of any run, with any overlap and any statuses written, every order was paid and deducted
      at most once and every deduction took back what had been paid, if and only if every call that
      committed was due at that moment. No later step repairs one that was not. */
  lemma CleanExactlyWhenDue(es: seq<Event>)
    requires Run(Start, es)
    ensures var t := Exec(Start, es).t;
            InRange(t.flows, t.posted) && (Clean(t) <==> AllDue(Start, es))
  {
    RunCleanExactly(Start, es);
  }

  // ---- an order is deducted at most as often as its refunds overlap ----

  function DeductWeight(o: int): Flow -> int {
    (f: Flow) => if f.order == o && f.kind == DeductFlow then 1 else 0
  }

  function RefundWeight(o: int): Call -> int {
    (c: Call) => if c.RefundCall? && c.order == o then 1 else 0
  }

  function Deducts(t: Tables, o: int): int {
    Sum(t.flows, DeductWeight(o))
  }

  function RefundsUnderWay(s: State, o: int): int {
    Sum(s.calls, RefundWeight(o))
  }

  /** Never more than `c` refunds of the order are under way at once. */
  predicate OverlapAtMost(s: State, es: seq<Event>, o: int, c: int)
    requires Run(s, es)
    decreases |es|
  {
    RefundsUnderWay(s, o) <= c && (|es| > 0 ==> OverlapAtMost(Next(s, es[0]), es[1..], o, c))
  }

  lemma {:induction false} SumWithout(calls: seq<Call>, k: nat, w: Call -> int)
    requires k < |calls|
    ensures Sum(Without(calls, k), w) == Sum(calls, w) - w(calls[k])
  {
    var n := |calls| - 1;
    if k == n {
      assert Without(calls, k) == calls[..n];
    } else {
      SumWithout(calls[..n], k, w);
      assert Without(calls, k) == Without(calls[..n], k) + [calls[n]];
      SumAppend(Without(calls[..n], k), calls[n], w);
    }
  }

  lemma NoDeductIsZero(t: Tables, o: int)
    requires !HasFlow(t, o, DeductFlow)
    ensures Deducts(t, o) == 0
  {
    SumZero(t.flows, DeductWeight(o));
  }

  lemma EffectDeducts(t: Tables, c: Call, o: int)
    requires RowsOk(t) && Names(t, c) && Accepts(t, c)
    ensures Deducts(Effect(t, c), o) <= Deducts(t, o) + RefundWeight(o)(c)
  {
    var n := Effect(t, c);
    match c
    case UnfreezeCall(i) =>
      SumUpdate(t.flows, t.settlements[i].flow.value, n.flows[t.settlements[i].flow.value], DeductWeight(o));
    case RefundCall(_, f, seen) =>
      if seen == InFlight {
        SumUpdate(t.flows, f, n.flows[f], DeductWeight(o));
      } else {
        SumAppend(t.flows, n.flows[|t.flows|], DeductWeight(o));
      }
    case _ => SumAppend(t.flows, n.flows[|t.flows|], DeductWeight(o));
  }

  /** A refund passes its check only while nothing is deducted; from then on it counts as one to come. */
  lemma NextDeducts(s: State, e: Event, o: int, c: int)
    requires Inv(s) && Possible(s, e) && Deducts(s.t, o) + RefundsUnderWay(s, o) <= c
    requires RefundsUnderWay(Next(s, e), o) <= c
    ensures Deducts(Next(s, e).t, o) + RefundsUnderWay(Next(s, e), o) <= c
  {
    match e
    case Check(call) =>
      SumAppend(s.calls, call, RefundWeight(o));
      if call.RefundCall? && call.order == o {
        NoDeductIsZero(s.t, o);
      }
    case Finish(k, commit) =>
      SumWithout(s.calls, k, RefundWeight(o));
      if CallEnding(s.t, s.calls[k], commit) == Committed {
        EffectDeducts(s.t, s.calls[k], o);
      }
    case _ =>
  }

  lemma {:induction false} RunDeducts(s: State, es: seq<Event>, o: int, c: int)
    requires Inv(s) && Run(s, es) && OverlapAtMost(s, es, o, c) && Deducts(s.t, o) + RefundsUnderWay(s, o) <= c
    ensures Deducts(Exec(s, es).t, o) + RefundsUnderWay(Exec(s, es), o) <= c
    decreases |es|
  {
    if |es| > 0 {
      NextKeepsInv(s, es[0]);
      assert RefundsUnderWay(Next(s, es[0]), o) <= c;
      NextDeducts(s, es[0], o, c);
      RunDeducts(Next(s, es[0]), es[1..], o, c);
    }
  }

  /** After any run, an order has at most as many DEDUCT flows as refunds of it were under way at once; at
      most one when they did not overlap. */
  lemma DeductedAtMostOverlap(es: seq<Event>, o: int, c: nat)
    requires Run(Start, es) && OverlapAtMost(Start, es, o, c)
    ensures Deducts(Exec(Start, es).t, o) <= c
  {
    RunDeducts(Start, es, o, c);
    RefundsNonNegative(Exec(Start, es).calls, o);
  }

  lemma RefundsNonNegative(calls: seq<Call>, o: int)
    ensures Sum(calls, RefundWeight(o)) >= 0
  {
    SumAtLeastTerm(calls, RefundWeight(o));
  }
}
