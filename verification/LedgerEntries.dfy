/** What a committed call leaves in the rows and balances, told by the call, the rows and the accounts alone;
    and the lives that the two status tables allow. */
module LedgerEntries {
  import opened LedgerTables
  import opened LedgerInvariant
  import opened LedgerSteps
  import opened LedgerRuns

  // ---- the balances a flow records ----

  /** The flow that a commit writes and posts or freezes; generated flows and flows marked FAILED aside. */
  predicate Writes(t: Tables, c: Call, f: nat, user: int, amount: int)
    requires Names(t, c)
  {
    match c
    case FreezeCall(o, a) => f == |t.flows| && user == t.orders[o].user && amount == a
    case UnfreezeCall(i) =>
      t.settlements[i].flow.Some? && f == t.settlements[i].flow.value
      && user == t.settlements[i].user && amount == t.settlements[i].amount
    case SettleCall(o, a) => f == |t.flows| && user == t.orders[o].user && amount == a
    case RefundCall(o, g, seen) =>
      seen != InFlight && f == |t.flows| && user == t.orders[o].user && g < |t.flows| && amount == t.flows[g].amount
    case GenerateCall(_, _) => false
  }

  /** The flow that a commit writes records the user's available balance before and after that commit, as
      the postings tell it, and the amount of the call. Freezing moves no available balance. */
  lemma BalancesRecorded(t: Tables, c: Call, f: nat, user: int, amount: int)
    requires TablesOk(t) && CallOk(t, c) && Accepts(t, c) && Writes(t, c, f, user, amount)
    ensures var n := Effect(t, c);
            && f < |n.flows| && n.flows[f].user == user && n.flows[f].amount == amount
            && InRange(n.flows, n.posted)
            && n.flows[f].before == LastBalance(t.flows, t.posted, user)
            && n.flows[f].after == LastBalance(n.flows, n.posted, user)
            && (c.FreezeCall? ==> n.flows[f].after == n.flows[f].before)
  {
    EffectKeepsTables(t, c);
    assert AvailableOk(t, user) && AvailableOk(Effect(t, c), user);
    if c.UnfreezeCall? {
      assert SettlementOk(t, t.settlements[c.row]);
    }
  }

  // ---- refusals ----

  /** What a committed call takes from the frozen and from the available balance of a user. */
  function Takes(t: Tables, c: Call): (int, int)
    requires Names(t, c)
  {
    match c
    case UnfreezeCall(i) => (t.settlements[i].amount, 0)
    case RefundCall(_, f, seen) => (0, if seen == InFlight then 0 else t.flows[f].amount)
    case _ => (0, 0)
  }

  function UserOf(t: Tables, c: Call): int
    requires Names(t, c)
  {
    match c
    case FreezeCall(o, _) => t.orders[o].user
    case UnfreezeCall(i) => t.settlements[i].user
    case SettleCall(o, _) => t.orders[o].user
    case RefundCall(o, _, _) => t.orders[o].user
    case GenerateCall(o, _) => t.orders[o].user
  }

  /** Whether or not it was checked before, a call is refused exactly when it would take more than there is,
      or freezes or pays no positive amount. */
  lemma RefusedExactly(t: Tables, c: Call, commit: bool)
    requires TablesOk(t) && Names(t, c)
    ensures var a := AccountOf(t, UserOf(t, c));
            CallEnding(t, c, commit) == Rejected
            <==> || a.frozen < Takes(t, c).0 || a.available < Takes(t, c).1
                 || ((c.FreezeCall? || c.SettleCall?) && c.amount <= 0)
  {
    var a := AccountOf(t, UserOf(t, c));
    assert FrozenOk(t, UserOf(t, c)) && AvailableOk(t, UserOf(t, c));
    FrozenNonNegative(t, UserOf(t, c));
    if c.UnfreezeCall? {
      assert SettlementOk(t, t.settlements[c.row]);
    }
  }

  /** So the transactions' own checks keep every balance from going below zero, whatever was checked or
      not before them. */
  lemma AcceptedNeverOverdraws(t: Tables, c: Call, user: int)
    requires TablesOk(t) && Names(t, c) && Accepts(t, c)
    ensures AccountOf(Effect(t, c), user).frozen >= 0 && AccountOf(Effect(t, c), user).available >= 0
  {
    assert FrozenOk(t, user) && AvailableOk(t, user);
    FrozenNonNegative(t, user);
    if c.UnfreezeCall? {
      assert SettlementOk(t, t.settlements[c.row]);
    }
  }

  // ---- generated flows ----

  /** A deduction is never without the ORDER flow it takes back. */
  ghost predicate DeductsBacked(t: Tables) {
    forall o | HasFlow(t, o, DeductFlow) :: HasFlow(t, o, OrderFlow)
  }

  lemma StillHasFlow(t: Tables, n: Tables, o: int, kind: FlowKind)
    requires Extends(t, n) && HasFlow(t, o, kind)
    ensures HasFlow(n, o, kind)
  {
    var k :| 0 <= k < |t.flows| && t.flows[k].order == o && t.flows[k].kind == kind;
    assert n.flows[k].order == o && n.flows[k].kind == kind;
  }

  lemma EffectKeepsBacked(t: Tables, c: Call)
    requires TablesOk(t) && CallOk(t, c) && Accepts(t, c) && DeductsBacked(t)
    ensures DeductsBacked(Effect(t, c))
  {
    var n := Effect(t, c);
    EffectExtends(t, c);
    forall o | HasFlow(n, o, DeductFlow)
      ensures HasFlow(n, o, OrderFlow)
    {
      if HasFlow(t, o, DeductFlow) {
        StillHasFlow(t, n, o, OrderFlow);
      } else {
        assert c.RefundCall? && c.order == o;
        assert n.flows[c.flow].order == o && n.flows[c.flow].kind == OrderFlow;
      }
    }
  }

  lemma SameFlowsKeepBacked(t: Tables, n: Tables)
    requires DeductsBacked(t) && n.flows == t.flows
    ensures DeductsBacked(n)
  {
    forall o | HasFlow(n, o, DeductFlow)
      ensures HasFlow(n, o, OrderFlow)
    {
      assert HasFlow(t, o, DeductFlow) && HasFlow(t, o, OrderFlow);
    }
  }

  lemma {:induction false} RunKeepsBacked(s: State, es: seq<Event>)
    requires Inv(s) && Run(s, es) && DeductsBacked(s.t)
    ensures DeductsBacked(Exec(s, es).t)
    decreases |es|
  {
    if |es| > 0 {
      var e := es[0];
      if e.Finish? && CallEnding(s.t, s.calls[e.k], e.commit) == Committed {
        assert CallOk(s.t, s.calls[e.k]);
        EffectKeepsBacked(s.t, s.calls[e.k]);
      } else {
        SameFlowsKeepBacked(s.t, Next(s, e).t);
      }
      NextKeepsInv(s, e);
      RunKeepsBacked(Next(s, e), es[1..]);
    }
  }

  /** The continuation: generate, commit, the channel reports a refund, and the refund is run. */
  function GenerateThenRefund(s: State, o: int, amount: int): seq<Event> {
    [Check(GenerateCall(o, amount))] + [Finish(|s.calls|, true)] + [Write(o, Refunded)]
    + [Check(RefundCall(o, |s.t.flows|, InFlight))] + [Finish(|s.calls|, true)]
  }

  /** The rows of a generated flow of the order, once the channel reports a refund of it. */
  predicate GeneratedRefunded(s: State, n: State, o: int, amount: int)
    requires o in s.t.orders
  {
    && n.calls == s.calls && n.t.accounts == s.t.accounts && n.t.settlements == s.t.settlements
    && n.t.posted == s.t.posted && HasStatus(n.t, o, Refunded)
    && |n.t.flows| == |s.t.flows| + 1 && n.t.flows[..|s.t.flows|] == s.t.flows
    && var f := n.t.flows[|s.t.flows|];
    && f.order == o && f.user == s.t.orders[o].user && f.kind == OrderFlow && f.amount == amount
    && f.before == 0 && f.after == amount
  }

  /** Generated and reported refunded: a refund that passes its check now has seen that flow, in flight. */
  lemma Generates(s: State, o: int, amount: int) returns (es: seq<Event>, n: State)
    requires Inv(s) && CheckPasses(s.t, GenerateCall(o, amount))
    ensures es == [Check(GenerateCall(o, amount))] + [Finish(|s.calls|, true)] + [Write(o, Refunded)]
    ensures Run(s, es) && n == Exec(s, es) && Inv(n)
    ensures GeneratedRefunded(s, n, o, amount) && n.t.flows[|s.t.flows|].transfer == InFlight
    ensures forall f: nat, seen | CheckPasses(n.t, RefundCall(o, f, seen)) :: f == |s.t.flows| && seen == InFlight
  {
    var c := GenerateCall(o, amount);
    RunOne(s, Check(c));
    var m := Next(s, Check(c));
    assert m.calls[|s.calls|] == c && Without(m.calls, |s.calls|) == s.calls;
    RunSnoc(s, [Check(c)], Finish(|s.calls|, true));
    RunSnoc(s, [Check(c)] + [Finish(|s.calls|, true)], Write(o, Refunded));
    es := [Check(c)] + [Finish(|s.calls|, true)] + [Write(o, Refunded)];
    n := Exec(s, es);
    RunKeepsInv(s, es);
    assert forall f: nat | FirstFlow(n.t, o, f) :: f == |s.t.flows|;
  }

  /** From every reachable state, for an order without an ORDER flow: a flow is generated, the order is
      reported refunded, and its refund is run. In the end the flow is marked FAILED with the amount given, and no
      account has changed. */
  lemma GeneratedRefundTakesNothing(start: seq<Event>, o: int, amount: int) returns (n: State)
    requires Run(Start, start) && CheckPasses(Exec(Start, start).t, GenerateCall(o, amount))
    ensures var s := Exec(Start, start);
            && Run(s, GenerateThenRefund(s, o, amount)) && n == Exec(s, GenerateThenRefund(s, o, amount))
            && GeneratedRefunded(s, n, o, amount) && n.t.flows[|s.t.flows|].transfer == Failed
  {
    var s := Exec(Start, start);
    RunFromStart(start);
    RunKeepsBacked(Start, start);
    var es, m := Generates(s, o, amount);
    assert FirstFlow(m.t, o, |s.t.flows|) && !HasFlow(m.t, o, DeductFlow);
    var r := RefundCall(o, |s.t.flows|, InFlight);
    RunSnoc(s, es, Check(r));
    var p := Next(m, Check(r));
    assert p.calls[|s.calls|] == r && Without(p.calls, |s.calls|) == s.calls;
    RunSnoc(s, es + [Check(r)], Finish(|s.calls|, true));
    n := Exec(s, es + [Check(r)] + [Finish(|s.calls|, true)]);
  }

  /** A flow may be generated whatever the order's status is or becomes, and only once: with an ORDER flow
      there, from either pipeline, the check never passes again in any run. */
  lemma {:induction false} GeneratedOnce(s: State, es: seq<Event>, o: int, amount: int, to: OrderStatus)
    requires Inv(s) && Run(s, es) && o in s.t.orders && amount >= 0
    ensures CheckPasses(MoveEffect(s.t, o, to), GenerateCall(o, amount)) <==> !HasFlow(s.t, o, OrderFlow)
    ensures HasFlow(s.t, o, OrderFlow) ==> !CheckPasses(Exec(s, es).t, GenerateCall(o, amount))
    decreases |es|
  {
    if |es| > 0 && HasFlow(s.t, o, OrderFlow) {
      var n := Next(s, es[0]);
      NextKeepsInv(s, es[0]);
      NextExtends(s, es[0]);
      StillHasFlow(s.t, n.t, o, OrderFlow);
      GeneratedOnce(n, es[1..], o, amount, to);
    }
  }

  lemma NextExtends(s: State, e: Event)
    requires Inv(s) && Possible(s, e)
    ensures Extends(s.t, Next(s, e).t)
  {
    if e.Finish? && CallEnding(s.t, s.calls[e.k], e.commit) == Committed {
      assert CallOk(s.t, s.calls[e.k]);
      EffectExtends(s.t, s.calls[e.k]);
    }
  }

  // ---- the end of a settlement ----

  /** A settlement can be marked paid out exactly when it was unfrozen. That changes its status and nothing
      else, and no run changes it again. */
  lemma PaidOutIsFinal(s: State, i: nat, es: seq<Event>)
    requires Inv(s) && i < |s.t.settlements|
    ensures Possible(s, MarkPaid(i)) <==> s.t.settlements[i].status == Unfrozen
    ensures Possible(s, MarkPaid(i)) ==>
              var n := Next(s, MarkPaid(i));
              && n.calls == s.calls && n.t.flows == s.t.flows && n.t.accounts == s.t.accounts
              && n.t.settlements == s.t.settlements[i := s.t.settlements[i].(status := PaidOut)]
              && (Run(n, es) ==> i < |Exec(n, es).t.settlements|
                                 && Exec(n, es).t.settlements[i] == n.t.settlements[i])
  {
    if Possible(s, MarkPaid(i)) && Run(Next(s, MarkPaid(i)), es) {
      NextKeepsInv(s, MarkPaid(i));
      StaysPaidOut(Next(s, MarkPaid(i)), i, es);
    }
  }

  lemma {:induction false} StaysPaidOut(s: State, i: nat, es: seq<Event>)
    requires Inv(s) && Run(s, es) && i < |s.t.settlements| && s.t.settlements[i].status == PaidOut
    ensures i < |Exec(s, es).t.settlements| && Exec(s, es).t.settlements[i] == s.t.settlements[i]
    decreases |es|
  {
    if |es| > 0 {
      NextKeepsInv(s, es[0]);
      if es[0].Finish? {
        assert CallOk(s.t, s.calls[es[0].k]);
      }
      StaysPaidOut(Next(s, es[0]), i, es[1..]);
    }
  }

  // ---- lives ----

  predicate FollowsTable(line: seq<OrderStatus>) {
    && |line| > 0 && line[0] == Pending
    && forall i | 0 < i < |line| :: line[i] in AllowedOrderTargets(line[i - 1])
  }

  /** The lives of an order from the moment it is paid for. */
  function Lives(): seq<seq<OrderStatus>> {
    [[Pending, Frozen, Settlable, Settled, Refunded],
     [Pending, Frozen, Settlable, Invalid],
     [Pending, Frozen, Invalid],
     [Pending, Invalid],
     [Pending, Refunded]]
  }

  predicate PartOf(line: seq<OrderStatus>, lives: seq<seq<OrderStatus>>) {
    exists k | 0 <= k < |lives| :: line <= lives[k]
  }

  /** Which life goes from one status to the next. */
  function LifeThrough(from: OrderStatus, to: OrderStatus): nat {
    if to == Invalid then (if from == Settlable then 1 else if from == Frozen then 2 else 3)
    else if from == Pending && to == Refunded then 4 else 0
  }

  lemma LivesBranch(k: nat, n: nat, to: OrderStatus)
    requires k < |Lives()| && 0 < n <= |Lives()[k]| && to in AllowedOrderTargets(Lives()[k][n - 1])
    ensures PartOf(Lives()[k][..n] + [to], Lives())
  {
    var j := LifeThrough(Lives()[k][n - 1], to);
    assert Lives()[j][..n + 1] == Lives()[k][..n] + [to];
  }

  lemma LivesFollow(k: nat, n: nat)
    requires k < |Lives()| && 0 < n <= |Lives()[k]|
    ensures FollowsTable(Lives()[k][..n])
  {
  }

  /** A history of an order follows the table if and only if it is one of five lives or the beginning of one:
      so it is settled only after settlable, refunded from pending or settled alone, and never leaves
      invalid or refunded. */
  lemma {:induction false} OrderLives(line: seq<OrderStatus>)
    requires |line| > 0
    ensures FollowsTable(line) <==> PartOf(line, Lives())
    decreases |line|
  {
    if PartOf(line, Lives()) {
      var k :| 0 <= k < |Lives()| && line <= Lives()[k];
      LivesFollow(k, |line|);
    }
    if FollowsTable(line) {
      var n := |line| - 1;
      assert line == line[..n] + [line[n]];
      if n == 0 {
        assert line <= Lives()[0];
      } else {
        OrderLives(line[..n]);
        var k :| 0 <= k < |Lives()| && line[..n] <= Lives()[k];
        LivesBranch(k, n, line[n]);
      }
    }
  }

  predicate FollowsSettlementTable(line: seq<SettlementStatus>) {
    && |line| > 0 && line[0] == Ordered
    && forall i | 0 < i < |line| :: line[i] in AllowedSettlementTargets(line[i - 1])
  }

  /** A settlement has a single life. */
  lemma {:induction false} SettlementLives(line: seq<SettlementStatus>)
    requires |line| > 0
    ensures FollowsSettlementTable(line) <==> line <= [Ordered, Confirmed, Unfrozen, PaidOut]
    decreases |line|
  {
    if |line| > 1 {
      var n := |line| - 1;
      SettlementLives(line[..n]);
      assert line[..n][n - 1] == line[n - 1];
      if line[..n] <= [Ordered, Confirmed, Unfrozen, PaidOut] {
        assert line[n - 1] == [Ordered, Confirmed, Unfrozen, PaidOut][n - 1];
      }
      if line <= [Ordered, Confirmed, Unfrozen, PaidOut] {
        assert line[..n] <= [Ordered, Confirmed, Unfrozen, PaidOut];
      }
      assert FollowsSettlementTable(line) <==>
             FollowsSettlementTable(line[..n]) && line[n] in AllowedSettlementTargets(line[n - 1]);
    }
  }
}
