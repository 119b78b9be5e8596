/** Each transaction, committed for a call that passed its check at some earlier time, keeps the ledger
    right, and so does every write to an order's status. */
module LedgerSteps {
  import opened Sums
  import opened LedgerTables
  import opened LedgerInvariant

  // ---- rows ----

  /** Rows are added and rewritten, but keep their place, order and kind. */
  predicate Extends(t: Tables, n: Tables) {
    && (forall o | o in t.orders :: o in n.orders && n.orders[o].user == t.orders[o].user)
    && |t.flows| <= |n.flows|
    && (forall k | 0 <= k < |t.flows| ::
          n.flows[k].order == t.flows[k].order && n.flows[k].kind == t.flows[k].kind
          && n.flows[k].user == t.flows[k].user && n.flows[k].amount == t.flows[k].amount)
    && |t.settlements| <= |n.settlements|
  }

  /** A settlement keeps what it says while neither it nor whether its flow is posted changes. */
  lemma SettlementSurvives(t: Tables, n: Tables, s: Settlement)
    requires SettlementOk(t, s) && Extends(t, n)
    requires s.flow.value in n.posted <==> s.flow.value in t.posted
    ensures SettlementOk(n, s)
  {
  }

  lemma FreezeKeepsRows(t: Tables, o: int, amount: int)
    requires RowsOk(t) && PostedOk(t.flows, t.posted) && o in t.orders && !HasSettlement(t, o) && amount > 0
    ensures RowsOk(FreezeEffect(t, o, amount)) && Extends(t, FreezeEffect(t, o, amount))
  {
    var n := FreezeEffect(t, o, amount);
    forall i | 0 <= i < |n.settlements|
      ensures SettlementOk(n, n.settlements[i])
    {
      if i < |t.settlements| {
        SettlementSurvives(t, n, t.settlements[i]);
      } else {
        assert |t.flows| !in t.posted;
      }
    }
  }

  lemma UnfreezeKeepsRows(t: Tables, i: nat)
    requires RowsOk(t) && i < |t.settlements| && FlowLinked(t, i) && t.settlements[i].status == Confirmed
    ensures RowsOk(UnfreezeEffect(t, i)) && Extends(t, UnfreezeEffect(t, i))
  {
    var n := UnfreezeEffect(t, i);
    var k := t.settlements[i].flow.value;
    assert SettlementOk(t, t.settlements[i]);
    assert FlowOk(t.orders, t.flows[k]);
    assert n.posted[|t.posted|] == k;
    forall j | 0 <= j < |n.settlements|
      ensures SettlementOk(n, n.settlements[j])
    {
      assert SettlementOk(t, t.settlements[j]);
      if j != i {
        assert t.settlements[j].order != t.settlements[i].order;
        StillPosted(t.posted, k, t.settlements[j].flow.value);
        SettlementSurvives(t, n, t.settlements[j]);
      }
    }
    forall j | 0 <= j < |n.flows|
      ensures FlowOk(n.orders, n.flows[j])
    {
      assert FlowOk(t.orders, t.flows[j]);
    }
  }

  lemma StillPosted(p: seq<nat>, k: nat, j: nat)
    requires j != k
    ensures j in p + [k] <==> j in p
  {
  }

  /** A flow added and posted, for an existing order, keeps the rows. */
  lemma AddedFlowKeepsRows(t: Tables, n: Tables, f: Flow)
    requires RowsOk(t) && FlowOk(t.orders, f)
    requires n.orders == t.orders && n.settlements == t.settlements && n.flows == t.flows + [f]
    requires n.posted == t.posted || n.posted == t.posted + [|t.flows|]
    ensures RowsOk(n) && Extends(t, n)
  {
    forall i | 0 <= i < |n.settlements|
      ensures SettlementOk(n, n.settlements[i])
    {
      assert SettlementOk(t, t.settlements[i]);
      StillPosted(t.posted, |t.flows|, t.settlements[i].flow.value);
      SettlementSurvives(t, n, t.settlements[i]);
    }
  }

  lemma FailKeepsRows(t: Tables, n: Tables, f: nat)
    requires RowsOk(t) && f < |t.flows| && t.flows[f].kind == OrderFlow
    requires n == t.(flows := Fail(t.flows, f))
    ensures RowsOk(n) && Extends(t, n)
  {
    forall k | 0 <= k < |n.flows|
      ensures FlowOk(n.orders, n.flows[k])
    {
      assert FlowOk(t.orders, t.flows[k]);
    }
    forall i | 0 <= i < |n.settlements|
      ensures SettlementOk(n, n.settlements[i])
    {
      SettlementSurvives(t, n, t.settlements[i]);
    }
  }

  // ---- transactions ----

  lemma FreezeKeepsFrozen(t: Tables, o: int, amount: int, user: int)
    requires o in t.orders && FrozenOk(t, user)
    ensures FrozenOk(FreezeEffect(t, o, amount), user)
  {
    SumAppend(t.settlements, FreezeEffect(t, o, amount).settlements[|t.settlements|], FrozenWeight(user));
  }

  lemma FreezeKeepsTables(t: Tables, o: int, amount: int)
    requires TablesOk(t) && o in t.orders && !HasSettlement(t, o) && amount > 0
    ensures TablesOk(FreezeEffect(t, o, amount))
  {
    var n := FreezeEffect(t, o, amount);
    FreezeKeepsRows(t, o, amount);
    forall user
      ensures PostedOk(n.flows, n.posted) && FrozenOk(n, user) && AvailableOk(n, user)
    {
      assert FrozenOk(t, user) && AvailableOk(t, user);
      FreezeKeepsFrozen(t, o, amount, user);
      AddsKeepsAvailable(t, n, n.flows[|t.flows|], user);
    }
  }

  lemma UnfreezeKeepsFrozen(t: Tables, i: nat, user: int)
    requires i < |t.settlements| && FlowLinked(t, i) && t.settlements[i].status == Confirmed && FrozenOk(t, user)
    ensures FrozenOk(UnfreezeEffect(t, i), user)
  {
    SumUpdate(t.settlements, i, UnfreezeEffect(t, i).settlements[i], FrozenWeight(user));
  }

  lemma UnfreezePosts(t: Tables, i: nat)
    requires TablesOk(t) && i < |t.settlements| && FlowLinked(t, i) && t.settlements[i].status == Confirmed
    ensures Posts(t, UnfreezeEffect(t, i), t.settlements[i].flow.value)
  {
    assert SettlementOk(t, t.settlements[i]);
    assert AvailableOk(t, t.settlements[i].user);
  }

  /** A settlement that is confirmed can be unfrozen, and the frozen balance covers it. */
  lemma ConfirmedIsCovered(t: Tables, i: nat)
    requires TablesOk(t) && i < |t.settlements| && t.settlements[i].status == Confirmed
    ensures FlowLinked(t, i) && UnfreezeGuard(t, i)
  {
    assert SettlementOk(t, t.settlements[i]);
    assert FrozenOk(t, t.settlements[i].user);
    FrozenCovers(t, i);
  }

  lemma UnfreezeKeepsTables(t: Tables, i: nat)
    requires TablesOk(t) && i < |t.settlements| && FlowLinked(t, i) && t.settlements[i].status == Confirmed
    ensures TablesOk(UnfreezeEffect(t, i))
  {
    var n := UnfreezeEffect(t, i);
    var k := t.settlements[i].flow.value;
    assert SettlementOk(t, t.settlements[i]);
    UnfreezeKeepsRows(t, i);
    UnfreezePosts(t, i);
    forall user
      ensures PostedOk(n.flows, n.posted) && FrozenOk(n, user) && AvailableOk(n, user)
    {
      assert FrozenOk(t, user) && AvailableOk(t, user);
      UnfreezeKeepsFrozen(t, i, user);
      PostsKeepsAvailable(t, n, k, user);
    }
  }

  /** A flow added and posted, with the account moved to match, keeps the tables. */
  lemma PostedFlowKeepsTables(t: Tables, n: Tables)
    requires TablesOk(t) && |n.flows| == |t.flows| + 1 && Posts(t, n, |t.flows|)
    requires n.orders == t.orders && n.settlements == t.settlements
    requires FlowOk(t.orders, n.flows[|t.flows|])
    requires forall user :: AccountOf(n, user).frozen == AccountOf(t, user).frozen
    requires forall user :: AccountOf(n, user).total - AccountOf(n, user).available
                            == AccountOf(t, user).total - AccountOf(t, user).available
    requires forall user | user != n.flows[|t.flows|].user ::
               AccountOf(n, user).available == AccountOf(t, user).available
    ensures TablesOk(n)
  {
    AddedFlowKeepsRows(t, n, n.flows[|t.flows|]);
    forall user
      ensures PostedOk(n.flows, n.posted) && FrozenOk(n, user) && AvailableOk(n, user)
    {
      assert FrozenOk(t, user) && AvailableOk(t, user);
      PostsKeepsAvailable(t, n, |t.flows|, user);
    }
  }

  lemma SettleKeepsTables(t: Tables, o: int, amount: int)
    requires TablesOk(t) && o in t.orders && amount > 0
    ensures TablesOk(SettleEffect(t, o, amount))
  {
    assert AvailableOk(t, t.orders[o].user);
    PostedFlowKeepsTables(t, SettleEffect(t, o, amount));
  }

  lemma FailKeepsTables(t: Tables, n: Tables, f: nat)
    requires TablesOk(t) && f < |t.flows| && t.flows[f].kind == OrderFlow && n == t.(flows := Fail(t.flows, f))
    ensures TablesOk(n)
  {
    FailKeepsRows(t, n, f);
    forall user
      ensures PostedOk(n.flows, n.posted) && FrozenOk(n, user) && AvailableOk(n, user)
    {
      assert FrozenOk(t, user) && AvailableOk(t, user);
      FailsKeepsAvailable(t, n, f, user);
    }
  }

  lemma RefundKeepsTables(t: Tables, o: int, f: nat, seen: TransferStatus)
    requires TablesOk(t) && o in t.orders && f < |t.flows| && t.flows[f].order == o && t.flows[f].kind == OrderFlow
    requires seen == InFlight || DeductGuard(t, o, f)
    ensures TablesOk(RefundEffect(t, o, f, seen))
  {
    assert FlowOk(t.orders, t.flows[f]);
    if seen == InFlight {
      FailKeepsTables(t, RefundEffect(t, o, f, seen), f);
    } else {
      PostedFlowKeepsTables(t, RefundEffect(t, o, f, seen));
    }
  }

  lemma GenerateKeepsTables(t: Tables, o: int, amount: int)
    requires TablesOk(t) && o in t.orders && amount >= 0
    ensures TablesOk(GenerateEffect(t, o, amount))
  {
    var n := GenerateEffect(t, o, amount);
    AddedFlowKeepsRows(t, n, n.flows[|t.flows|]);
    forall user
      ensures PostedOk(n.flows, n.posted) && FrozenOk(n, user) && AvailableOk(n, user)
    {
      assert FrozenOk(t, user) && AvailableOk(t, user);
      AddsKeepsAvailable(t, n, n.flows[|t.flows|], user);
    }
  }

  /** Whatever happened since its check, a transaction that its own checks accept keeps the tables. */
  lemma EffectKeepsTables(t: Tables, c: Call)
    requires TablesOk(t) && CallOk(t, c) && Accepts(t, c)
    ensures TablesOk(Effect(t, c))
  {
    match c
    case FreezeCall(o, amount) => FreezeKeepsTables(t, o, amount);
    case UnfreezeCall(i) => UnfreezeKeepsTables(t, i);
    case SettleCall(o, amount) => SettleKeepsTables(t, o, amount);
    case RefundCall(o, f, seen) => RefundKeepsTables(t, o, f, seen);
    case GenerateCall(o, amount) => GenerateKeepsTables(t, o, amount);
  }

  /** Only orders that are not named by any flow or settlement's user change; balances and flows stay. */
  lemma OrdersKeepTables(t: Tables, n: Tables)
    requires TablesOk(t) && n == t.(orders := n.orders)
    requires forall o | o in t.orders :: o in n.orders && n.orders[o].user == t.orders[o].user
    ensures TablesOk(n)
  {
    forall k | 0 <= k < |n.flows|
      ensures FlowOk(n.orders, n.flows[k])
    {
      assert FlowOk(t.orders, t.flows[k]);
    }
    forall i | 0 <= i < |n.settlements|
      ensures SettlementOk(n, n.settlements[i])
    {
      SettlementSurvives(t, n, t.settlements[i]);
    }
    forall user
      ensures FrozenOk(n, user) && AvailableOk(n, user)
    {
      assert FrozenOk(t, user) && AvailableOk(t, user);
    }
  }

  lemma PaidKeepsTables(t: Tables, i: nat)
    requires TablesOk(t) && i < |t.settlements| && PaidOut in AllowedSettlementTargets(t.settlements[i].status)
    ensures TablesOk(PaidEffect(t, i))
  {
    var n := PaidEffect(t, i);
    forall j | 0 <= j < |n.settlements|
      ensures SettlementOk(n, n.settlements[j])
    {
      assert SettlementOk(t, t.settlements[j]);
    }
    forall user
      ensures FrozenOk(n, user) && AvailableOk(n, user)
    {
      assert FrozenOk(t, user) && AvailableOk(t, user);
      SumUpdate(t.settlements, i, n.settlements[i], FrozenWeight(user));
    }
  }

  // ---- other calls under way ----

  lemma CallSurvives(t: Tables, n: Tables, d: Call)
    requires CallOk(t, d) && Extends(t, n)
    requires d.FreezeCall? ==> !HasSettlement(n, d.order)
    requires d.UnfreezeCall? ==> n.settlements[d.row].status == Confirmed
    ensures CallOk(n, d)
  {
  }

  lemma EffectExtends(t: Tables, c: Call)
    requires TablesOk(t) && CallOk(t, c) && Accepts(t, c)
    ensures Extends(t, Effect(t, c))
  {
    if c.UnfreezeCall? {
      assert SettlementOk(t, t.settlements[c.row]);
    }
  }

  lemma NoNewSettlement(t: Tables, n: Tables, o: int)
    requires !HasSettlement(t, o) && |n.settlements| == |t.settlements|
    requires forall i | 0 <= i < |t.settlements| :: n.settlements[i].order == t.settlements[i].order
    ensures !HasSettlement(n, o)
  {
  }

  /** A committed transaction leaves what every other call under way relies on. */
  lemma EffectKeepsCall(t: Tables, c: Call, d: Call)
    requires TablesOk(t) && CallOk(t, c) && Accepts(t, c) && CallOk(t, d) && !SameLock(c, d)
    ensures CallOk(Effect(t, c), d)
  {
    EffectExtends(t, c);
    var n := Effect(t, c);
    if d.FreezeCall? && !c.FreezeCall? {
      NoNewSettlement(t, n, d.order);
    }
    CallSurvives(t, n, d);
  }

  // ---- the unfreeze transaction alone ----

  /** The unfreeze transaction does not look at the settlement's status: past the balance check it keeps
      the ledger right if and only if the settlement is still confirmed. */
  lemma UnfreezeSafeExactlyWhenConfirmed(t: Tables, i: nat)
    requires TablesOk(t) && i < |t.settlements| && UnfreezeGuard(t, i)
    ensures FlowLinked(t, i)
    ensures TablesOk(UnfreezeEffect(t, i)) <==> t.settlements[i].status == Confirmed
  {
    var s := t.settlements[i];
    assert SettlementOk(t, s);
    if s.status == Confirmed {
      UnfreezeKeepsTables(t, i);
    } else {
      var n := UnfreezeEffect(t, i);
      assert FrozenOk(t, s.user);
      SumUpdate(t.settlements, i, n.settlements[i], FrozenWeight(s.user));
      assert !FrozenOk(n, s.user);
    }
  }
}
