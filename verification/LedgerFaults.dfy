/** Runs in which the services' own checks let an order be paid or deducted more than once, or something be
    taken back that was never paid. They start from any state of an orderly run. */
module LedgerFaults {
  import opened Sums
  import opened LedgerTables
  import opened LedgerInvariant
  import opened LedgerSteps
  import opened LedgerRuns
  import opened LedgerExactly
  import opened LedgerOrderly

  // ---- faults of orderly runs, one call at a time ----

  /** An order that does not exist has neither flow nor settlement nor call. */
  lemma NoTrace(s: State, o: int)
    requires Inv(s) && o !in s.t.orders
    ensures !HasSettlement(s.t, o) && NoCallOn(s, o)
    ensures forall k | 0 <= k < |s.t.flows| :: s.t.flows[k].order != o
  {
    NewOrderTouchesNoCall(s, o);
    forall k | 0 <= k < |s.t.flows|
      ensures s.t.flows[k].order != o
    {
      assert FlowOk(s.t.orders, s.t.flows[k]);
    }
    forall i | 0 <= i < |s.t.settlements|
      ensures s.t.settlements[i].order != o
    {
      assert SettlementOk(s.t, s.t.settlements[i]);
    }
  }

  function WithOrder(t: Tables, o: int, user: int, status: OrderStatus): Tables {
    t.(orders := t.orders[o := Order(user, status)])
  }

  /** The channel reports a new order with this status. */
  lemma Arrives(s: State, o: int, user: int, status: OrderStatus) returns (es: seq<Event>, n: State)
    requires OrderlyInv(s) && o !in s.t.orders
    ensures Run(s, es) && AllOrderly(s, es) && n == Exec(s, es) && OrderlyInv(n)
    ensures n == State(WithOrder(s.t, o, user, status), s.calls) && NoCallOn(n, o)
  {
    es := [NewOrder(o, user, status)];
    OrderlyOne(s, NewOrder(o, user, status));
    NextKeepsOrderly(s, NewOrder(o, user, status));
    n := Next(s, NewOrder(o, user, status));
    NoTrace(s, o);
    StillNoCall(s, n, o);
  }

  lemma StillNoCall(s: State, n: State, o: int)
    requires NoCallOn(s, o) && n.calls == s.calls && n.t.settlements == s.t.settlements
    ensures NoCallOn(n, o)
  {
    forall k | 0 <= k < |n.calls|
      ensures OrderOf(n.t, n.calls[k]) != o
    {
      assert OrderOf(s.t, s.calls[k]) != o;
    }
  }

  /** The run goes on with a status that the table allows. */
  lemma Moves(s: State, es: seq<Event>, o: int, to: OrderStatus) returns (fs: seq<Event>, n: State)
    requires Run(s, es) && AllOrderly(s, es) && OrderlyInv(Exec(s, es)) && NoCallOn(Exec(s, es), o)
    requires o in Exec(s, es).t.orders && to in AllowedOrderTargets(Exec(s, es).t.orders[o].status)
    ensures Run(s, fs) && AllOrderly(s, fs) && n == Exec(s, fs) && OrderlyInv(n)
    ensures n == State(MoveEffect(Exec(s, es).t, o, to), Exec(s, es).calls) && NoCallOn(n, o)
  {
    var m := Exec(s, es);
    OrderlySnoc(s, es, Write(o, to));
    NextKeepsOrderly(m, Write(o, to));
    fs, n := es + [Write(o, to)], Next(m, Write(o, to));
    StillNoCall(m, n, o);
  }

  /** The run goes on with one call, checked and committed. */
  lemma Commits(s: State, es: seq<Event>, c: Call) returns (fs: seq<Event>, n: State)
    requires Run(s, es) && AllOrderly(s, es) && OrderlyInv(s) && OrderlyInv(Exec(s, es))
    requires CheckPasses(Exec(s, es).t, c) && !c.GenerateCall? && NoCallOn(Exec(s, es), OrderOf(Exec(s, es).t, c))
    requires Names(Exec(s, es).t, c) && Accepts(Exec(s, es).t, c)
    ensures Run(s, fs) && AllOrderly(s, fs) && n == Exec(s, fs) && OrderlyInv(n)
    ensures n == State(Effect(Exec(s, es).t, c), Exec(s, es).calls) && NoCallOn(n, OrderOf(Exec(s, es).t, c))
  {
    var m := Exec(s, es);
    fs := CallsThrough(s, es, c);
    RunKeepsOrderly(s, fs);
    n := Exec(s, fs);
    forall k | 0 <= k < |n.calls|
      ensures OrderOf(n.t, n.calls[k]) != OrderOf(m.t, c)
    {
      assert CheckPasses(m.t, m.calls[k]) && OrderOf(m.t, m.calls[k]) != OrderOf(m.t, c);
      CallIsChecked(m, c);
      EffectOnlyOrder(m.t, c);
      OtherCheck(m.t, n.t, OrderOf(m.t, c), m.calls[k]);
    }
  }

  /** A call that passes its check satisfies what a call under way does. */
  lemma CallIsChecked(s: State, c: Call)
    requires CheckPasses(s.t, c)
    ensures CallOk(s.t, c)
  {
  }

  /** A fresh order arrives settlable, is frozen, and is reported settled. */
  lemma FrozenAndSettled(s: State, o: int, user: int, amount: int) returns (es: seq<Event>, n: State)
    requires OrderlyInv(s) && o !in s.t.orders && amount > 0
    ensures Run(s, es) && AllOrderly(s, es) && n == Exec(s, es) && OrderlyInv(n)
    ensures n.calls == s.calls
    ensures n.t == WithOrder(FreezeEffect(WithOrder(s.t, o, user, Settlable), o, amount), o, user, Settled)
    ensures NoCallOn(n, o) && FirstFlow(n.t, o, |s.t.flows|)
  {
    NoTrace(s, o);
    var m;
    es, m := Arrives(s, o, user, Settlable);
    es, m := Commits(s, es, FreezeCall(o, amount));
    es, m := Moves(s, es, o, Settled);
    n := m;
  }

  lemma PaysAgain(t: Tables, o: int, f: nat, amount: int)
    requires SettleAllowed(t, o) && FirstFlow(t, o, f)
    ensures var n := SettleEffect(t, o, amount);
            && SettleAllowed(n, o) && FirstFlow(n, o, f)
            && AccountOf(n, t.orders[o].user).available == AccountOf(t, t.orders[o].user).available + amount
  {
    var n := SettleEffect(t, o, amount);
    forall g | 0 <= g < |n.flows| && FirstFlow(n, o, g)
      ensures n.flows[g].transfer != Success
    {
      assert n.flows[f] == t.flows[f];
    }
  }

  /** Only flows were added. */
  predicate OnlyFlowsAdded(t: Tables, n: Tables) {
    && n.orders == t.orders && n.settlements == t.settlements
    && |t.flows| <= |n.flows|
    && forall k | 0 <= k < |t.flows| :: n.flows[k] == t.flows[k]
  }

  /** While the first flow of a settled order is in flight, the single-order entry pays the order any number
      of times. */
  lemma {:induction false} PaysManyTimes(s: State, es: seq<Event>, o: int, f: nat, amount: int, times: nat)
    returns (fs: seq<Event>, n: State)
    requires OrderlyInv(s) && Run(s, es) && AllOrderly(s, es) && OrderlyInv(Exec(s, es)) && NoCallOn(Exec(s, es), o)
    requires SettleAllowed(Exec(s, es).t, o) && FirstFlow(Exec(s, es).t, o, f) && amount > 0
    ensures Run(s, fs) && AllOrderly(s, fs) && n == Exec(s, fs) && OrderlyInv(n) && NoCallOn(n, o)
    ensures SettleAllowed(n.t, o) && FirstFlow(n.t, o, f) && OnlyFlowsAdded(Exec(s, es).t, n.t)
    ensures var user := Exec(s, es).t.orders[o].user;
            AccountOf(n.t, user).available == AccountOf(Exec(s, es).t, user).available + times * amount
    decreases times
  {
    if times == 0 {
      fs, n := es, Exec(s, es);
    } else {
      var gs, m := PaysManyTimes(s, es, o, f, amount, times - 1);
      fs, n := PaysOnceMore(s, gs, o, f, amount);
      OnlyFlowsChain(Exec(s, es).t, m.t, n.t);
      Distribute(times - 1, amount);
    }
  }

  lemma OnlyFlowsChain(t: Tables, m: Tables, n: Tables)
    requires OnlyFlowsAdded(t, m) && OnlyFlowsAdded(m, n)
    ensures OnlyFlowsAdded(t, n)
  {
  }

  lemma PaysOnceMore(s: State, es: seq<Event>, o: int, f: nat, amount: int) returns (fs: seq<Event>, n: State)
    requires OrderlyInv(s) && Run(s, es) && AllOrderly(s, es) && OrderlyInv(Exec(s, es)) && NoCallOn(Exec(s, es), o)
    requires SettleAllowed(Exec(s, es).t, o) && FirstFlow(Exec(s, es).t, o, f) && amount > 0
    ensures Run(s, fs) && AllOrderly(s, fs) && n == Exec(s, fs) && OrderlyInv(n) && NoCallOn(n, o)
    ensures SettleAllowed(n.t, o) && FirstFlow(n.t, o, f) && OnlyFlowsAdded(Exec(s, es).t, n.t)
    ensures var user := Exec(s, es).t.orders[o].user;
            AccountOf(n.t, user).available == AccountOf(Exec(s, es).t, user).available + amount
  {
    PaysAgain(Exec(s, es).t, o, f, amount);
    fs, n := Commits(s, es, SettleCall(o, amount));
  }

  lemma Distribute(times: nat, amount: int)
    ensures times * amount + amount == (times + 1) * amount
  {
  }

  /** From every state of an orderly run a fresh order can be frozen, paid any number of times through the
      single-order entry, and then unfrozen as well, by orderly steps alone. */
  lemma PaidOnceMoreByUnfreeze(s: State, o: int, user: int, amount: int, times: nat)
    returns (es: seq<Event>, n: State)
    requires OrderlyInv(s) && o !in s.t.orders && amount > 0
    ensures Run(s, es) && AllOrderly(s, es) && n == Exec(s, es)
    ensures AccountOf(n.t, user).available == AccountOf(s.t, user).available + (times + 1) * amount
  {
    var m;
    es, m := FrozenAndSettled(s, o, user, amount);
    es, m := PaysManyTimes(s, es, o, |s.t.flows|, amount, times);
    ConfirmedIsCovered(m.t, |s.t.settlements|);
    es, n := Commits(s, es, UnfreezeCall(|s.t.settlements|));
    Distribute(times, amount);
  }

  /** The tables after a fresh order was frozen, settled and refunded. */
  function FrozenRefunded(t: Tables, o: int, user: int, amount: int): Tables {
    WithOrder(FreezeEffect(WithOrder(t, o, user, Settlable), o, amount), o, user, Refunded)
  }

  /** And after its refund was run twice. */
  function RefundedTwice(t: Tables, o: int, user: int, amount: int): Tables {
    var m := FrozenRefunded(t, o, user, amount);
    RefundEffect(RefundEffect(m, o, |t.flows|, InFlight), o, |t.flows|, Failed)
  }

  lemma RefundedTwiceIs(t: Tables, o: int, user: int, amount: int)
    requires o !in t.orders
    requires forall i | 0 <= i < |t.settlements| :: t.settlements[i].order != o
    ensures var n := RefundedTwice(t, o, user, amount);
            && AccountOf(n, user).available == AccountOf(t, user).available - amount
            && AccountOf(n, user).frozen == AccountOf(t, user).frozen + amount
            && OnlyOrder(t, n, o)
            && forall k | 0 <= k < |t.flows| :: n.flows[k] == t.flows[k]
  {
  }

  lemma FrozenThenRefunded(s: State, o: int, user: int, amount: int) returns (es: seq<Event>, n: State)
    requires OrderlyInv(s) && o !in s.t.orders && amount > 0
    ensures Run(s, es) && AllOrderly(s, es) && n == Exec(s, es) && OrderlyInv(n)
    ensures n == State(FrozenRefunded(s.t, o, user, amount), s.calls)
    ensures NoCallOn(n, o) && CheckPasses(n.t, RefundCall(o, |s.t.flows|, InFlight))
  {
    NoTrace(s, o);
    var m;
    es, m := FrozenAndSettled(s, o, user, amount);
    es, n := Moves(s, es, o, Refunded);
    assert n.t.orders == FrozenRefunded(s.t, o, user, amount).orders;
    assert FirstFlow(n.t, o, |s.t.flows|) && !HasFlow(n.t, o, DeductFlow);
  }

  lemma FailedStillRefunds(t: Tables, o: int, f: nat)
    requires CheckPasses(t, RefundCall(o, f, InFlight))
    ensures CheckPasses(RefundEffect(t, o, f, InFlight), RefundCall(o, f, Failed))
  {
    var n := RefundEffect(t, o, f, InFlight);
    assert FirstFlow(n, o, f) && !HasFlow(n, o, DeductFlow);
  }

  /** From every state of an orderly run in which a user has `amount` available, an order of that user that
      was never paid can be refunded twice: the first refund marks its flow FAILED, the second takes the
      amount from the available balance, and the frozen one keeps it as well. */
  lemma RefundTakesUnpaid(s: State, o: int, user: int, amount: int) returns (es: seq<Event>, n: State)
    requires OrderlyInv(s) && o !in s.t.orders && 0 < amount <= AccountOf(s.t, user).available
    ensures Run(s, es) && AllOrderly(s, es) && n == Exec(s, es) && OrderlyInv(n)
    ensures AccountOf(n.t, user).available == AccountOf(s.t, user).available - amount
    ensures AccountOf(n.t, user).frozen == AccountOf(s.t, user).frozen + amount
    ensures OnlyOrder(s.t, n.t, o) && n.calls == s.calls
    ensures forall k | 0 <= k < |s.t.flows| :: n.t.flows[k] == s.t.flows[k]
  {
    var f := |s.t.flows|;
    NoTrace(s, o);
    var m;
    es, m := FrozenThenRefunded(s, o, user, amount);
    FailedStillRefunds(m.t, o, f);
    es, m := Commits(s, es, RefundCall(o, f, InFlight));
    es, n := Commits(s, es, RefundCall(o, f, Failed));
    assert n.t == RefundedTwice(s.t, o, user, amount);
    RefundedTwiceIs(s.t, o, user, amount);
  }

  /** That can cost another order its refund: when all the user has is what order `p` paid, the second
      refund of `o` leaves nothing, and the due refund of `p` is then turned down. */
  lemma DueRefundTurnedDown(s: State, p: int, f: nat, o: int) returns (es: seq<Event>)
    requires OrderlyInv(s) && o !in s.t.orders && CheckPasses(s.t, RefundCall(p, f, Success))
    requires AccountOf(s.t, s.t.orders[p].user).available == s.t.flows[f].amount
    ensures Run(s, es) && AllOrderly(s, es)
    ensures CheckPasses(Exec(s, es).t, RefundCall(p, f, Success)) && !Accepts(Exec(s, es).t, RefundCall(p, f, Success))
  {
    PostedIsSuccess(s.t, f);
    var i :| 0 <= i < |s.t.posted| && s.t.posted[i] == f;
    assert PostedFlow(s.t.flows[f]) && FlowOk(s.t.orders, s.t.flows[f]);
    var n;
    es, n := RefundTakesUnpaid(s, o, s.t.orders[p].user, s.t.flows[f].amount);
    OtherCheck(s.t, n.t, o, RefundCall(p, f, Success));
  }

  lemma StartIsOrderly()
    ensures OrderlyInv(Start)
  {
  }

  /** A fresh order arrives settled and is paid. */
  lemma PaysFresh(s: State, es: seq<Event>, p: int, user: int, amount: int) returns (fs: seq<Event>, n: State)
    requires OrderlyInv(s) && Run(s, es) && AllOrderly(s, es) && OrderlyInv(Exec(s, es))
    requires p !in Exec(s, es).t.orders && amount > 0
    ensures Run(s, fs) && AllOrderly(s, fs) && n == Exec(s, fs) && OrderlyInv(n)
    ensures n == State(SettleEffect(WithOrder(Exec(s, es).t, p, user, Settled), p, amount), Exec(s, es).calls)
    ensures NoCallOn(n, p)
  {
    var m := Exec(s, es);
    NoTrace(m, p);
    OrderlySnoc(s, es, NewOrder(p, user, Settled));
    NextKeepsOrderly(m, NewOrder(p, user, Settled));
    fs := es + [NewOrder(p, user, Settled)];
    StillNoCall(m, Next(m, NewOrder(p, user, Settled)), p);
    fs, n := Commits(s, fs, SettleCall(p, amount));
  }

  function PaidRefunded(t: Tables, p: int, user: int, amount: int): Tables {
    WithOrder(SettleEffect(WithOrder(t, p, user, Settled), p, amount), p, user, Refunded)
  }

  lemma PaidRefundedIs(t: Tables, p: int, user: int, amount: int)
    requires forall k | 0 <= k < |t.flows| :: t.flows[k].order != p
    ensures var n := PaidRefunded(t, p, user, amount);
            && n.orders == t.orders[p := Order(user, Refunded)]
            && CheckPasses(n, RefundCall(p, |t.flows|, Success)) && n.flows[|t.flows|].amount == amount
            && AccountOf(n, user).available == AccountOf(t, user).available + amount
  {
    var n := PaidRefunded(t, p, user, amount);
    assert FirstFlow(n, p, |t.flows|) && !HasFlow(n, p, DeductFlow);
  }

  /** One order, paid and then refunded by the channel. */
  lemma PaidAndRefunded(s: State, es: seq<Event>, p: int, user: int, amount: int) returns (fs: seq<Event>, n: State)
    requires OrderlyInv(s) && Run(s, es) && AllOrderly(s, es) && OrderlyInv(Exec(s, es))
    requires p !in Exec(s, es).t.orders && amount > 0
    ensures Run(s, fs) && AllOrderly(s, fs) && n == Exec(s, fs) && OrderlyInv(n)
    ensures n == State(PaidRefunded(Exec(s, es).t, p, user, amount), Exec(s, es).calls)
    ensures forall k | 0 <= k < |Exec(s, es).t.flows| :: Exec(s, es).t.flows[k].order != p
  {
    NoTrace(Exec(s, es), p);
    var m;
    fs, m := PaysFresh(s, es, p, user, amount);
    fs, n := Moves(s, fs, p, Refunded);
    assert n.t.orders == PaidRefunded(Exec(s, es).t, p, user, amount).orders;
  }

  /** The whole story from the empty ledger, for any two orders and any amount: the user was paid once,
      a refund of the other order took it, not every refund was validated, and the due refund is turned
      down. */
  lemma FailedRefundReachable(p: int, o: int, user: int, amount: int) returns (es: seq<Event>)
    requires p != o && amount > 0
    ensures Run(Start, es) && AllOrderly(Start, es) && !AllValidated(Start, es)
    ensures CheckPasses(Exec(Start, es).t, RefundCall(p, 0, Success))
    ensures !Accepts(Exec(Start, es).t, RefundCall(p, 0, Success))
  {
    StartIsOrderly();
    var first, s := PaidAndRefunded(Start, [], p, user, amount);
    PaidRefundedIs(EmptyTables, p, user, amount);
    var second := DueRefundTurnedDown(s, p, 0, o);
    OrderlyConcat(Start, first, second);
    es := first + second;
    if AllValidated(Start, es) {
      ValidatedIsAccepted(es, p);
    }
  }

  lemma ValidatedIsAccepted(es: seq<Event>, p: int)
    requires Run(Start, es) && AllOrderly(Start, es) && AllValidated(Start, es)
    requires CheckPasses(Exec(Start, es).t, RefundCall(p, 0, Success))
    ensures Accepts(Exec(Start, es).t, RefundCall(p, 0, Success))
  {
    OrderlyFromStart(es);
    PaidOnceExactlyWhenValidated(es);
    RefundIsCovered(Exec(Start, es).t, p, 0);
  }

  // ---- faults of overlapping calls, each of which checked everything ----

  function Repeat(c: Call, n: nat): seq<Call> {
    if n == 0 then [] else [c] + Repeat(c, n - 1)
  }

  /** One step before a run. */
  lemma RunCons(s: State, e: Event, fs: seq<Event>)
    requires Possible(s, e) && Run(Next(s, e), fs)
    ensures Run(s, [e] + fs) && Exec(s, [e] + fs) == Exec(Next(s, e), fs)
  {
    assert ([e] + fs)[1..] == fs;
  }

  lemma OverlapCons(s: State, e: Event, fs: seq<Event>, o: int, most: int)
    requires Possible(s, e) && Run(Next(s, e), fs)
    requires RefundsUnderWay(s, o) <= most && OverlapAtMost(Next(s, e), fs, o, most)
    ensures Run(s, [e] + fs) && OverlapAtMost(s, [e] + fs, o, most)
  {
    RunCons(s, e, fs);
    assert ([e] + fs)[1..] == fs;
  }

  lemma RepeatFront(calls: seq<Call>, c: Call, times: nat)
    requires times > 0
    ensures calls + [c] + Repeat(c, times - 1) == calls + Repeat(c, times)
  {
  }

  function Checks(c: Call, times: nat): seq<Event> {
    if times == 0 then [] else [Check(c)] + Checks(c, times - 1)
  }

  /** A check that needs no lock can be made again right away. */
  lemma ChecksOnce(s: State, c: Call)
    requires CheckPasses(s.t, c) && !c.FreezeCall? && !c.UnfreezeCall?
    ensures Possible(s, Check(c)) && Next(s, Check(c)) == State(s.t, s.calls + [c])
  {
  }

  /** The same check, any number of times before any of the transactions. */
  lemma {:induction false} ChecksMany(s: State, c: Call, times: nat)
    requires CheckPasses(s.t, c) && !c.FreezeCall? && !c.UnfreezeCall?
    ensures Run(s, Checks(c, times)) && Exec(s, Checks(c, times)) == State(s.t, s.calls + Repeat(c, times))
    decreases times
  {
    if times == 0 {
      assert s.calls + [] == s.calls;
    } else {
      ChecksOnce(s, c);
      var n := State(s.t, s.calls + [c]);
      ChecksMany(n, c, times - 1);
      RunCons(s, Check(c), Checks(c, times - 1));
      RepeatFront(s.calls, c, times);
    }
  }

  /** While they are made, no more refunds of the order are under way than in the end. */
  lemma {:induction false} ChecksOverlap(s: State, o: int, f: nat, times: nat, most: int)
    requires CheckPasses(s.t, RefundCall(o, f, Success)) && RefundsUnderWay(s, o) + times <= most
    ensures Run(s, Checks(RefundCall(o, f, Success), times))
    ensures OverlapAtMost(s, Checks(RefundCall(o, f, Success), times), o, most)
    decreases times
  {
    var c := RefundCall(o, f, Success);
    ChecksMany(s, c, times);
    if times > 0 {
      ChecksOnce(s, c);
      SumAppend(s.calls, c, RefundWeight(o));
      ChecksOverlap(State(s.t, s.calls + [c]), o, f, times - 1, most);
      OverlapCons(s, Check(c), Checks(c, times - 1), o, most);
    }
  }

  lemma FrontOfConcat(es: seq<Event>, fs: seq<Event>)
    requires |es| > 0
    ensures [es[0]] + (es[1..] + fs) == es + fs
  {
  }

  lemma OverlapHead(s: State, es: seq<Event>, o: int, most: int)
    requires Run(s, es) && OverlapAtMost(s, es, o, most) && |es| > 0
    ensures Possible(s, es[0]) && Run(Next(s, es[0]), es[1..])
    ensures Exec(s, es) == Exec(Next(s, es[0]), es[1..])
    ensures RefundsUnderWay(s, o) <= most && OverlapAtMost(Next(s, es[0]), es[1..], o, most)
  {
  }

  lemma {:induction false} OverlapConcat(s: State, es: seq<Event>, fs: seq<Event>, o: int, most: int)
    requires Run(s, es) && Run(Exec(s, es), fs)
    requires OverlapAtMost(s, es, o, most) && OverlapAtMost(Exec(s, es), fs, o, most)
    ensures Run(s, es + fs) && OverlapAtMost(s, es + fs, o, most)
    decreases |es|
  {
    if |es| == 0 {
      assert es + fs == fs;
    } else {
      OverlapHead(s, es, o, most);
      OverlapConcat(Next(s, es[0]), es[1..], fs, o, most);
      OverlapCons(s, es[0], es[1..] + fs, o, most);
      FrontOfConcat(es, fs);
    }
  }

  /** What is under way first is finished first. */
  lemma FinishesFirst(s: State, before: seq<Call>, c: Call, times: nat)
    requires Inv(s) && s.calls == before + Repeat(c, times) && times > 0
    requires Names(s.t, c) && Accepts(s.t, c)
    ensures Possible(s, Finish(|before|, true))
    ensures Next(s, Finish(|before|, true)) == State(Effect(s.t, c), before + Repeat(c, times - 1))
  {
    assert s.calls[|before|] == c;
    assert Without(s.calls, |before|) == before + Repeat(c, times - 1);
  }

  /** Overlapping payments of an order that was on the payment work list all the while commit one and all. */
  lemma {:induction false} PaymentsFinish(s: State, before: seq<Call>, o: int, amount: int, times: nat)
    returns (es: seq<Event>)
    requires Inv(s) && s.calls == before + Repeat(SettleCall(o, amount), times) && o in s.t.orders && amount > 0
    ensures Run(s, es) && OnlyFlowsAdded(s.t, Exec(s, es).t)
    ensures var user := s.t.orders[o].user;
            AccountOf(Exec(s, es).t, user).available == AccountOf(s.t, user).available + times * amount
    decreases times
  {
    if times == 0 {
      es := [];
    } else {
      var c := SettleCall(o, amount);
      FinishesFirst(s, before, c, times);
      var e := Finish(|before|, true);
      NextKeepsInv(s, e);
      var fs := PaymentsFinish(Next(s, e), before, o, amount, times - 1);
      es := [e] + fs;
      RunCons(s, e, fs);
      Distribute(times - 1, amount);
    }
  }

  /** From every state of an orderly run, any number of payments of one fresh order can pass the work list's
      condition before the first commits, and then all commit. */
  lemma OverlappingPaymentsAllCommit(s: State, o: int, user: int, amount: int, times: nat)
    returns (arrival: seq<Event>, checks: seq<Event>, finishes: seq<Event>)
    requires OrderlyInv(s) && o !in s.t.orders && amount > 0
    ensures Run(s, arrival) && SettleListed(Exec(s, arrival).t, o)
    ensures Run(Exec(s, arrival), checks) && Exec(Exec(s, arrival), checks).t == Exec(s, arrival).t
    ensures Run(s, arrival + checks + finishes)
    ensures AccountOf(Exec(s, arrival + checks + finishes).t, user).available
            == AccountOf(s.t, user).available + times * amount
  {
    NoTrace(s, o);
    var n;
    arrival, n := Arrives(s, o, user, Settled);
    checks := Checks(SettleCall(o, amount), times);
    ChecksMany(n, SettleCall(o, amount), times);
    RunConcat(s, arrival, checks);
    var m := Exec(n, checks);
    RunKeepsInv(n, checks);
    finishes := PaymentsFinish(m, n.calls, o, amount, times);
    RunConcat(s, arrival + checks, finishes);
  }

  lemma StillEnough(available: int, times: nat, amount: int)
    requires times > 0 && amount >= 0 && available >= times * amount
    ensures available >= amount && available - amount >= (times - 1) * amount
  {
    Distribute(times - 1, amount);
    CoversOne(times - 1, amount);
  }

  /** One of several refunds under way commits: one more deduction, one refund less under way. */
  lemma RefundFinishes(s: State, before: seq<Call>, o: int, f: nat, times: nat) returns (n: State)
    requires Inv(s) && s.calls == before + Repeat(RefundCall(o, f, Success), times) && times > 0
    requires o in s.t.orders && f < |s.t.flows|
    requires AccountOf(s.t, s.t.orders[o].user).available >= s.t.flows[f].amount
    ensures Possible(s, Finish(|before|, true)) && n == Next(s, Finish(|before|, true)) && Inv(n)
    ensures n.calls == before + Repeat(RefundCall(o, f, Success), times - 1)
    ensures n.t.orders == s.t.orders && f < |n.t.flows| && n.t.flows[f] == s.t.flows[f]
    ensures AccountOf(n.t, s.t.orders[o].user).available
            == AccountOf(s.t, s.t.orders[o].user).available - s.t.flows[f].amount
    ensures Deducts(n.t, o) == Deducts(s.t, o) + 1 && RefundsUnderWay(n, o) <= RefundsUnderWay(s, o)
  {
    var c := RefundCall(o, f, Success);
    FinishesFirst(s, before, c, times);
    NextKeepsInv(s, Finish(|before|, true));
    n := Next(s, Finish(|before|, true));
    SumAppend(s.t.flows, n.t.flows[|s.t.flows|], DeductWeight(o));
    SumWithout(s.calls, |before|, RefundWeight(o));
  }

  lemma {:induction false} RefundsFinish(s: State, before: seq<Call>, o: int, f: nat, times: nat, most: int)
    returns (es: seq<Event>)
    requires Inv(s) && s.calls == before + Repeat(RefundCall(o, f, Success), times)
    requires o in s.t.orders && f < |s.t.flows| && s.t.flows[f].amount >= 0
    requires AccountOf(s.t, s.t.orders[o].user).available >= times * s.t.flows[f].amount
    requires RefundsUnderWay(s, o) <= most
    ensures Run(s, es) && OverlapAtMost(s, es, o, most)
    ensures Deducts(Exec(s, es).t, o) == Deducts(s.t, o) + times
    decreases times
  {
    if times == 0 {
      es := [];
    } else {
      StillEnough(AccountOf(s.t, s.t.orders[o].user).available, times, s.t.flows[f].amount);
      var n := RefundFinishes(s, before, o, f, times);
      var fs := RefundsFinish(n, before, o, f, times - 1, most);
      es := [Finish(|before|, true)] + fs;
      RunCons(s, Finish(|before|, true), fs);
      OverlapCons(s, Finish(|before|, true), fs, o, most);
    }
  }

  lemma CoversOne(times: nat, amount: int)
    requires amount >= 0
    ensures times * amount >= 0
  {
  }

  /** The bound by overlap is attained: from every state in which a paid and refunded order has no refund
      under way and the user has enough, `times` overlapping refunds all pass their checks and all deduct. */
  lemma OverlappingRefundsAllDeduct(s: State, o: int, f: nat, times: nat) returns (es: seq<Event>)
    requires Inv(s) && CheckPasses(s.t, RefundCall(o, f, Success)) && RefundsUnderWay(s, o) == 0
    requires AccountOf(s.t, s.t.orders[o].user).available >= times * s.t.flows[f].amount
    ensures Run(s, es) && OverlapAtMost(s, es, o, times) && Deducts(Exec(s, es).t, o) == times
  {
    assert FlowOk(s.t.orders, s.t.flows[f]);
    NoDeductIsZero(s.t, o);
    var checks := Checks(RefundCall(o, f, Success), times);
    ChecksMany(s, RefundCall(o, f, Success), times);
    ChecksOverlap(s, o, f, times, times);
    var n := Exec(s, checks);
    RunKeepsInv(s, checks);
    OverlapEnds(s, checks, o, times);
    var finishes := RefundsFinish(n, s.calls, o, f, times, times);
    OverlapConcat(s, checks, finishes, o, times);
    RunConcat(s, checks, finishes);
    es := checks + finishes;
  }

  lemma {:induction false} OverlapEnds(s: State, es: seq<Event>, o: int, c: int)
    requires Run(s, es) && OverlapAtMost(s, es, o, c)
    ensures RefundsUnderWay(Exec(s, es), o) <= c
    decreases |es|
  {
    if |es| > 0 {
      OverlapEnds(Next(s, es[0]), es[1..], o, c);
    }
  }

  /** From the empty ledger, for any number of overlapping refunds and any amount. */
  lemma OverlapReachable(p: int, o: int, user: int, amount: int, times: nat) returns (es: seq<Event>)
    requires p != o && amount > 0 && times >= 1
    ensures Run(Start, es) && Deducts(Exec(Start, es).t, o) == times
  {
    StartIsOrderly();
    CoversOne(times, amount);
    var first, s := PaysFresh(Start, [], p, user, times * amount + 1);
    var second, n := PaidAndRefunded(Start, first, o, user, amount);
    PaidRefundedIs(s.t, o, user, amount);
    assert RefundsUnderWay(n, o) == 0;
    var third := OverlappingRefundsAllDeduct(n, o, |s.t.flows|, times);
    RunConcat(Start, second, third);
    es := second + third;
  }

  /** From every state of an orderly run: an unfreeze and a refund of a fresh order overlap, with the order
      reported refunded between their checks. The unfreeze pays, and the refund, which saw the flow in
      flight, then marks it FAILED and takes nothing back. */
  lemma StaleRefundKeepsPayment(s: State, o: int, user: int, amount: int) returns (es: seq<Event>, n: State)
    requires OrderlyInv(s) && o !in s.t.orders && amount > 0
    ensures Run(s, es) && n == Exec(s, es) && |n.t.flows| == |s.t.flows| + 1
    ensures n.t.flows[|s.t.flows|].order == o && n.t.flows[|s.t.flows|].transfer == Failed
    ensures AccountOf(n.t, user).available == AccountOf(s.t, user).available + amount
  {
    var f, i, k := |s.t.flows|, |s.t.settlements|, |s.calls|;
    NoTrace(s, o);
    var ready, m := FrozenAndSettled(s, o, user, amount);
    var checks, r := ChecksBoth(m, o, i, f);
    RunConcat(s, ready, checks);
    n := FinishesBoth(s, ready + checks, UnfreezeCall(i), RefundCall(o, f, InFlight), k);
    es := ready + checks + [Finish(k, true)] + [Finish(k, true)];
  }

  /** The order is reported refunded between the check of its unfreeze and the check of its refund. */
  lemma ChecksBoth(s: State, o: int, i: nat, f: nat) returns (es: seq<Event>, n: State)
    requires Inv(s) && UnfreezeListed(s.t, i) && s.t.settlements[i].order == o && NoCallOn(s, o)
    requires FirstFlow(s.t, o, f) && s.t.flows[f].transfer == InFlight && !HasFlow(s.t, o, DeductFlow)
    ensures Run(s, es) && n == Exec(s, es)
    ensures n == State(MoveEffect(s.t, o, Refunded), s.calls + [UnfreezeCall(i)] + [RefundCall(o, f, InFlight)])
  {
    NoLockOnFreeOrder(s, UnfreezeCall(i));
    RunOne(s, Check(UnfreezeCall(i)));
    es := [Check(UnfreezeCall(i))];
    RunSnoc(s, es, Write(o, Refunded));
    es := es + [Write(o, Refunded)];
    n := Exec(s, es);
    assert FirstFlow(n.t, o, f) && !HasFlow(n.t, o, DeductFlow);
    RunSnoc(s, es, Check(RefundCall(o, f, InFlight)));
    es := es + [Check(RefundCall(o, f, InFlight))];
    n := Exec(s, es);
  }

  lemma FinishesBoth(s: State, es: seq<Event>, c: Call, d: Call, k: nat) returns (n: State)
    requires Inv(s) && Run(s, es) && k + 2 == |Exec(s, es).calls|
    requires c.UnfreezeCall? && d.RefundCall? && d.seen == InFlight
    requires Exec(s, es).calls[k] == c && Exec(s, es).calls[k + 1] == d
    ensures Run(s, es + [Finish(k, true)] + [Finish(k, true)])
    ensures n == Exec(s, es + [Finish(k, true)] + [Finish(k, true)])
    ensures Names(Exec(s, es).t, c) && Accepts(Exec(s, es).t, c) && Names(Effect(Exec(s, es).t, c), d)
    ensures n.t == Effect(Effect(Exec(s, es).t, c), d)
  {
    RunKeepsInv(s, es);
    var m := Exec(s, es);
    assert CallOk(m.t, c) && CallOk(m.t, d);
    ConfirmedIsCovered(m.t, c.row);
    RunSnoc(s, es, Finish(k, true));
    var q := Next(m, Finish(k, true));
    assert q.calls[k] == d;
    NextKeepsInv(m, Finish(k, true));
    assert CallOk(q.t, d);
    RunSnoc(s, es + [Finish(k, true)], Finish(k, true));
    n := Next(q, Finish(k, true));
  }
}
