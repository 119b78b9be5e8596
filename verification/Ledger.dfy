/** The ledger tables as the DAOs write them: each transaction updates rows in place and then commits, or
    restores what it found. The services check first, and hand the transaction what they read. */
module LedgerStore {
  import opened Wrappers
  import opened LedgerTables
  import opened LedgerInvariant
  import opened LedgerRuns

  /** What a service's checks answer: go on with this call, skip the order, or a ValueError. */
  datatype Verdict = GoOn(call: Call) | Skip | Refuse

  class Ledger {
    var orders: map<int, Order>
    var flows: seq<Flow>
    var settlements: seq<Settlement>
    var accounts: map<int, Account>
    ghost var posted: seq<nat>

    ghost function Snapshot(): Tables
      reads this
    {
      Tables(orders, flows, settlements, accounts, posted)
    }

    constructor ()
      ensures Snapshot() == EmptyTables && TablesOk(Snapshot())
    {
      orders, flows, settlements, accounts, posted := map[], [], [], map[], [];
    }

    /** _get_or_create_account_for_update: a missing account starts at zero. */
    method GetOrCreateAccount(user: int) returns (a: Account)
      modifies this`accounts
      ensures a == old(AccountOf(Snapshot(), user))
      ensures accounts == old(accounts)[user := a]
    {
      if user !in accounts {
        accounts := accounts[user := NewAccount];
      }
      a := accounts[user];
    }

    /** freeze_atomic */
    method FreezeAtomic(order: int, amount: int, commit: bool) returns (r: Outcome)
      requires order in orders
      modifies this
      ensures r == CallEnding(old(Snapshot()), FreezeCall(order, amount), commit)
      ensures Snapshot() == AfterCall(old(Snapshot()), FreezeCall(order, amount), commit)
    {
      if amount <= 0 {
        return Rejected;
      }
      var savedFlows, savedSettlements, savedAccounts := flows, settlements, accounts;
      var user := orders[order].user;
      var account := GetOrCreateAccount(user);
      var beforeAvailable := account.available;
      settlements := settlements + [Settlement(order, user, amount, Confirmed, None)];
      flows := flows + [Flow(order, user, OrderFlow, amount, beforeAvailable, beforeAvailable, InFlight)];
      var id := |settlements| - 1;
      settlements := settlements[id := settlements[id].(flow := Some(|flows| - 1))];
      account := account.(frozen := account.frozen + amount);
      account := account.(total := account.total + amount);
      account := account.(version := account.version + 1);
      accounts := accounts[user := account];
      if !commit {
        flows, settlements, accounts := savedFlows, savedSettlements, savedAccounts;
        return RolledBack;
      }
      assert Snapshot() == FreezeEffect(old(Snapshot()), order, amount);
      return Committed;
    }

    /** unfreeze_atomic */
    method UnfreezeAtomic(row: nat, commit: bool) returns (r: Outcome)
      requires row < |settlements|
      modifies this
      ensures r == CallEnding(old(Snapshot()), UnfreezeCall(row), commit)
      ensures Snapshot() == AfterCall(old(Snapshot()), UnfreezeCall(row), commit)
    {
      var savedFlows, savedSettlements, savedAccounts := flows, settlements, accounts;
      var user, amount := settlements[row].user, settlements[row].amount;
      var account := GetOrCreateAccount(user);
      var beforeFrozen, beforeAvailable := account.frozen, account.available;
      if settlements[row].flow == None || settlements[row].flow.value >= |flows| || beforeFrozen < amount {
        accounts := savedAccounts;
        return Rejected;
      }
      var k := settlements[row].flow.value;
      account := account.(frozen := beforeFrozen - amount);
      account := account.(available := beforeAvailable + amount);
      account := account.(version := account.version + 1);
      accounts := accounts[user := account];
      flows := flows[k := flows[k].(transfer := Success, before := beforeAvailable,
                                    after := beforeAvailable + amount)];
      settlements := settlements[row := settlements[row].(status := Unfrozen)];
      if !commit {
        flows, settlements, accounts := savedFlows, savedSettlements, savedAccounts;
        return RolledBack;
      }
      posted := posted + [k];
      assert Snapshot() == UnfreezeEffect(old(Snapshot()), row);
      return Committed;
    }

    /** settle_order_commission_atomic */
    method SettleOrderCommissionAtomic(order: int, amount: int, commit: bool) returns (r: Outcome)
      requires order in orders
      modifies this
      ensures r == CallEnding(old(Snapshot()), SettleCall(order, amount), commit)
      ensures Snapshot() == AfterCall(old(Snapshot()), SettleCall(order, amount), commit)
    {
      if amount <= 0 {
        return Rejected;
      }
      var savedFlows, savedAccounts := flows, accounts;
      var user := orders[order].user;
      var account := GetOrCreateAccount(user);
      var beforeBalance := account.available;
      var afterBalance := beforeBalance + amount;
      flows := flows + [Flow(order, user, OrderFlow, amount, beforeBalance, afterBalance, Success)];
      account := account.(available := afterBalance);
      account := account.(total := account.total + amount);
      account := account.(version := account.version + 1);
      accounts := accounts[user := account];
      if !commit {
        flows, accounts := savedFlows, savedAccounts;
        return RolledBack;
      }
      posted := posted + [|flows| - 1];
      assert Snapshot() == SettleEffect(old(Snapshot()), order, amount);
      return Committed;
    }

    /** deduct_on_refund_atomic. `seen` is the transfer status of the flow object that the caller read; the
        row is not read again. */
    method DeductOnRefundAtomic(order: int, flow: nat, seen: TransferStatus, commit: bool) returns (r: Outcome)
      requires order in orders && flow < |flows|
      modifies this
      ensures r == CallEnding(old(Snapshot()), RefundCall(order, flow, seen), commit)
      ensures Snapshot() == AfterCall(old(Snapshot()), RefundCall(order, flow, seen), commit)
    {
      var amount, user := flows[flow].amount, orders[order].user;
      var savedFlows, savedAccounts := flows, accounts;
      if seen == InFlight {
        flows := flows[flow := flows[flow].(transfer := Failed)];
        if !commit {
          flows := savedFlows;
          return RolledBack;
        }
        return Committed;
      }
      var account := GetOrCreateAccount(user);
      var beforeBalance := account.available;
      var afterBalance := beforeBalance - amount;
      if afterBalance < 0 {
        accounts := savedAccounts;
        return Rejected;
      }
      flows := flows + [Flow(order, user, DeductFlow, amount, beforeBalance, afterBalance, Success)];
      account := account.(available := afterBalance);
      account := account.(total := account.total - amount);
      account := account.(version := account.version + 1);
      accounts := accounts[user := account];
      if !commit {
        flows, accounts := savedFlows, savedAccounts;
        return RolledBack;
      }
      posted := posted + [|flows| - 1];
      assert Snapshot() == RefundEffect(old(Snapshot()), order, flow, seen);
      return Committed;
    }

    /** The write of generate_commission_flows. */
    method CreateGeneratedFlow(order: int, amount: int, commit: bool) returns (r: Outcome)
      requires order in orders
      modifies this
      ensures r == CallEnding(old(Snapshot()), GenerateCall(order, amount), commit)
      ensures Snapshot() == AfterCall(old(Snapshot()), GenerateCall(order, amount), commit)
    {
      if !commit {
        return RolledBack;
      }
      flows := flows + [Flow(order, orders[order].user, OrderFlow, amount, 0, amount, InFlight)];
      assert Snapshot() == GenerateEffect(old(Snapshot()), order, amount);
      return Committed;
    }

    // ---- what the services check before those transactions ----

    /** list_by_order_id, cut down to the first ORDER flow. */
    method FindFirstFlow(order: int) returns (f: Option<nat>)
      ensures f.Some? ==> FirstFlow(Snapshot(), order, f.value)
      ensures f == None ==> !HasFlow(Snapshot(), order, OrderFlow)
    {
      var i := 0;
      while i < |flows|
        invariant i <= |flows|
        invariant forall j | 0 <= j < i :: !(flows[j].order == order && flows[j].kind == OrderFlow)
      {
        if flows[i].order == order && flows[i].kind == OrderFlow {
          return Some(i);
        }
        i := i + 1;
      }
      return None;
    }

    /** get_by_order_id of the settlements. */
    method FindSettlement(order: int) returns (i: Option<nat>)
      ensures i.Some? ==> i.value < |settlements| && settlements[i.value].order == order
      ensures i == None ==> !HasSettlement(Snapshot(), order)
    {
      var j := 0;
      while j < |settlements|
        invariant j <= |settlements|
        invariant forall m | 0 <= m < j :: settlements[m].order != order
      {
        if settlements[j].order == order {
          return Some(j);
        }
        j := j + 1;
      }
      return None;
    }

    method HasDeduct(order: int) returns (found: bool)
      ensures found == HasFlow(Snapshot(), order, DeductFlow)
    {
      found := exists k | 0 <= k < |flows| :: flows[k].order == order && flows[k].kind == DeductFlow;
    }

    /** The checks of the single freeze. */
    method CheckFreeze(order: int, amount: int) returns (v: Verdict)
      ensures v.GoOn? <==> CheckPasses(Snapshot(), FreezeCall(order, amount))
      ensures v.GoOn? ==> v.call == FreezeCall(order, amount)
      ensures v == Skip <==> HasStatus(Snapshot(), order, Settlable) && HasSettlement(Snapshot(), order)
    {
      if order !in orders || orders[order].status != Settlable {
        return Refuse;
      }
      var existing := FindSettlement(order);
      return if existing.Some? then Skip else GoOn(FreezeCall(order, amount));
    }

    /** The checks of unfreeze_on_settled. */
    method CheckUnfreeze(order: int) returns (v: Verdict)
      requires UniqueSettlements(settlements)
      ensures v.GoOn? ==> v.call.UnfreezeCall? && CheckPasses(Snapshot(), v.call)
                          && settlements[v.call.row].order == order
      ensures !v.GoOn? ==> forall i: nat | CheckPasses(Snapshot(), UnfreezeCall(i)) :: settlements[i].order != order
    {
      var i := FindSettlement(order);
      if i == None {
        return Refuse;
      }
      if Unfrozen !in AllowedSettlementTargets(settlements[i.value].status) {
        return Refuse;
      }
      if order !in orders || orders[order].status != Settled {
        return Refuse;
      }
      return GoOn(UnfreezeCall(i.value));
    }

    /** The checks of settle_single_order. */
    method CheckSettle(order: int, amount: int) returns (v: Verdict)
      ensures v.GoOn? <==> CheckPasses(Snapshot(), SettleCall(order, amount))
      ensures v.GoOn? ==> v.call == SettleCall(order, amount)
      ensures v == Refuse <==> !HasStatus(Snapshot(), order, Settled)
    {
      if order !in orders || orders[order].status != Settled {
        return Refuse;
      }
      var f := FindFirstFlow(order);
      if f.Some? && flows[f.value].transfer == Success {
        return Skip;
      }
      return GoOn(SettleCall(order, amount));
    }

    /** The checks of process_single_refund. */
    method CheckRefund(order: int) returns (v: Verdict)
      ensures v.GoOn? ==> v.call.RefundCall? && v.call.order == order && CheckPasses(Snapshot(), v.call)
      ensures !v.GoOn? ==> forall f: nat, seen | f < |flows| :: !CheckPasses(Snapshot(), RefundCall(order, f, seen))
      ensures v == Refuse <==> !HasStatus(Snapshot(), order, Refunded)
    {
      if order !in orders || orders[order].status != Refunded {
        return Refuse;
      }
      var f := FindFirstFlow(order);
      var deducted := HasDeduct(order);
      if f == None || deducted {
        return Skip;
      }
      assert RefundAllowed(Snapshot(), order, f.value);
      return GoOn(RefundCall(order, f.value, flows[f.value].transfer));
    }

    /** The checks of generate_commission_flows, for the commission that the order's row says. */
    method CheckGenerate(order: int, amount: nat) returns (v: Verdict)
      ensures v.GoOn? <==> CheckPasses(Snapshot(), GenerateCall(order, amount))
      ensures v.GoOn? ==> v.call == GenerateCall(order, amount)
      ensures v == Refuse <==> order !in orders
    {
      if order !in orders {
        return Refuse;
      }
      var f := FindFirstFlow(order);
      return if f.Some? then Skip else GoOn(GenerateCall(order, amount));
    }

    /** The transaction that a call under way runs in the end. */
    method Finish(c: Call, commit: bool) returns (r: Outcome)
      requires Names(Snapshot(), c)
      modifies this
      ensures r == CallEnding(old(Snapshot()), c, commit)
      ensures Snapshot() == AfterCall(old(Snapshot()), c, commit)
    {
      match c
      case FreezeCall(o, amount) => r := FreezeAtomic(o, amount, commit);
      case UnfreezeCall(i) => r := UnfreezeAtomic(i, commit);
      case SettleCall(o, amount) => r := SettleOrderCommissionAtomic(o, amount, commit);
      case RefundCall(o, f, seen) => r := DeductOnRefundAtomic(o, f, seen, commit);
      case GenerateCall(o, amount) => r := CreateGeneratedFlow(o, amount, commit);
    }
  }
}
