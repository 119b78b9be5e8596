/** What every reachable ledger satisfies, whatever statuses are written and however calls overlap, and
    how its sums and histories move when one row changes. */
module LedgerInvariant {
  import opened Sums
  import opened LedgerTables

  // ---- rows ----

  function SignedAmount(f: Flow): int {
    if f.kind == OrderFlow then f.amount else -f.amount
  }

  predicate FlowOk(orders: map<int, Order>, f: Flow) {
    && f.order in orders
    && f.user == orders[f.order].user
    && f.amount >= 0
    && (f.kind == DeductFlow ==> f.transfer == Success)
  }

  /** A settlement names an ORDER flow of its own order, and is confirmed until that flow is posted. */
  predicate SettlementOk(t: Tables, s: Settlement) {
    && s.order in t.orders
    && s.flow.Some?
    && s.flow.value < |t.flows|
    && var f := t.flows[s.flow.value];
    && f.kind == OrderFlow && f.order == s.order && f.user == s.user && f.amount == s.amount > 0
    && s.status != Ordered
    && (s.status == Confirmed <==> s.flow.value !in t.posted)
  }

  predicate UniqueSettlements(rows: seq<Settlement>) {
    forall i, j | 0 <= i < j < |rows| :: rows[i].order != rows[j].order
  }

  predicate RowsOk(t: Tables) {
    && (forall k | 0 <= k < |t.flows| :: FlowOk(t.orders, t.flows[k]))
    && (forall i | 0 <= i < |t.settlements| :: SettlementOk(t, t.settlements[i]))
    && UniqueSettlements(t.settlements)
  }

  // ---- postings in commit order ----

  predicate InRange(flows: seq<Flow>, p: seq<nat>) {
    forall i | 0 <= i < |p| :: p[i] < |flows|
  }

  predicate PostedFlow(f: Flow) {
    && f.transfer != InFlight
    && f.after - f.before == SignedAmount(f)
    && (f.kind == OrderFlow ==> f.amount > 0)
  }

  /** `posted` lists flows that moved a balance by their own amount, each once, and every flow that is
      SUCCESS is among them. */
  predicate PostedOk(flows: seq<Flow>, p: seq<nat>) {
    && InRange(flows, p)
    && (forall i | 0 <= i < |p| :: PostedFlow(flows[p[i]]))
    && (forall k: nat | k < |flows| && flows[k].transfer == Success :: k in p)
    && (forall i, j | 0 <= i < j < |p| :: p[i] != p[j])
  }

  /** The available balance after the postings `p`, read off the flow rows. */
  function LastBalance(flows: seq<Flow>, p: seq<nat>, user: int): int
    requires InRange(flows, p)
  {
    if |p| == 0 then 0
    else if flows[p[|p| - 1]].user == user then flows[p[|p| - 1]].after
    else LastBalance(flows, p[..|p| - 1], user)
  }

  /** Each posting of the user starts from the balance its predecessor left. */
  predicate Chained(flows: seq<Flow>, p: seq<nat>, user: int)
    requires InRange(flows, p)
  {
    |p| > 0 ==>
      && Chained(flows, p[..|p| - 1], user)
      && (flows[p[|p| - 1]].user == user ==>
            flows[p[|p| - 1]].before == LastBalance(flows, p[..|p| - 1], user))
  }

  // ---- the sums an account is compared with ----

  function FrozenWeight(user: int): Settlement -> int {
    (s: Settlement) => if s.user == user && s.status == Confirmed then s.amount else 0
  }

  function FrozenTotal(rows: seq<Settlement>, user: int): int {
    Sum(rows, FrozenWeight(user))
  }

  /** Successful ORDER flows count up, DEDUCT flows count down. */
  function SignedWeight(user: int): Flow -> int {
    (f: Flow) => if f.user == user && f.transfer == Success then SignedAmount(f) else 0
  }

  function SignedTotal(flows: seq<Flow>, user: int): int {
    Sum(flows, SignedWeight(user))
  }

  function LostAmount(f: Flow, user: int): int {
    if f.user == user && f.transfer != Success then f.amount else 0
  }

  function LostWeight(flows: seq<Flow>, user: int): nat -> int {
    (k: nat) => if k < |flows| then LostAmount(flows[k], user) else 0
  }

  /** What was posted to the user and later marked FAILED all the same. */
  function Lost(flows: seq<Flow>, p: seq<nat>, user: int): int {
    Sum(p, LostWeight(flows, user))
  }

  ghost predicate FrozenOk(t: Tables, user: int) {
    var a := AccountOf(t, user);
    a.frozen == FrozenTotal(t.settlements, user) && a.total == a.available + a.frozen
  }

  ghost predicate AvailableOk(t: Tables, user: int)
    requires InRange(t.flows, t.posted)
  {
    var a := AccountOf(t, user);
    && a.available >= 0
    && Chained(t.flows, t.posted, user)
    && LastBalance(t.flows, t.posted, user) == a.available
    && a.available == SignedTotal(t.flows, user) + Lost(t.flows, t.posted, user)
  }

  ghost predicate BooksOk(t: Tables)
    requires InRange(t.flows, t.posted)
  {
    forall user :: FrozenOk(t, user) && AvailableOk(t, user)
  }

  ghost predicate TablesOk(t: Tables) {
    RowsOk(t) && PostedOk(t.flows, t.posted) && BooksOk(t)
  }

  // ---- calls under way ----

  /** The operation lock of freezing and unfreezing: one call at a time per order. */
  predicate SameLock(c: Call, d: Call) {
    || (c.FreezeCall? && d.FreezeCall? && c.order == d.order)
    || (c.UnfreezeCall? && d.UnfreezeCall? && c.row == d.row)
  }

  /** What stays true for a call from its check to its transaction. */
  predicate CallOk(t: Tables, c: Call) {
    && Names(t, c)
    && match c
       case FreezeCall(o, _) => !HasSettlement(t, o)
       case UnfreezeCall(i) => t.settlements[i].status == Confirmed
       case SettleCall(_, _) => true
       case RefundCall(o, f, _) => t.flows[f].order == o && t.flows[f].kind == OrderFlow
       case GenerateCall(_, amount) => amount >= 0
  }

  predicate CallsOk(t: Tables, calls: seq<Call>) {
    && (forall k | 0 <= k < |calls| :: CallOk(t, calls[k]))
    && (forall i, j | 0 <= i < j < |calls| :: !SameLock(calls[i], calls[j]))
  }

  // ---- frame facts about postings ----

  predicate SamePosting(f: Flow, g: Flow) {
    f.user == g.user && f.before == g.before && f.after == g.after
  }

  /** Rewriting or adding flows outside `p`, or their statuses, changes nothing the postings `p` say. */
  lemma {:induction false} PostingsFrame(flows: seq<Flow>, changed: seq<Flow>, p: seq<nat>, user: int)
    requires InRange(flows, p) && InRange(changed, p)
    requires forall i | 0 <= i < |p| :: SamePosting(flows[p[i]], changed[p[i]])
    ensures LastBalance(changed, p, user) == LastBalance(flows, p, user)
    ensures Chained(changed, p, user) == Chained(flows, p, user)
  {
    if |p| > 0 {
      var last := p[|p| - 1];
      assert SamePosting(flows[last], changed[last]);
      PostingsFrame(flows, changed, p[..|p| - 1], user);
    }
  }

  /** Posting one more flow that starts at the current balance extends the chain. */
  lemma PostingAppended(flows: seq<Flow>, p: seq<nat>, k: nat, user: int)
    requires InRange(flows, p) && k < |flows| && Chained(flows, p, user)
    requires flows[k].user == user ==> flows[k].before == LastBalance(flows, p, user)
    ensures InRange(flows, p + [k]) && Chained(flows, p + [k], user)
    ensures LastBalance(flows, p + [k], user)
            == if flows[k].user == user then flows[k].after else LastBalance(flows, p, user)
  {
    assert (p + [k])[..|p|] == p;
  }

  lemma LostFrame(flows: seq<Flow>, changed: seq<Flow>, p: seq<nat>, user: int)
    requires InRange(flows, p) && InRange(changed, p)
    requires forall i | 0 <= i < |p| :: LostAmount(changed[p[i]], user) == LostAmount(flows[p[i]], user)
    ensures Lost(changed, p, user) == Lost(flows, p, user)
  {
    SumSame(p, LostWeight(flows, user), LostWeight(changed, user));
  }

  // ---- how each change of rows moves a user's available balance ----

  /** Flow `k` is posted, new or in place: it starts at the old balance and ends at the new one. */
  predicate Posts(t: Tables, n: Tables, k: nat) {
    && n.posted == t.posted + [k]
    && |t.flows| <= |n.flows| && k < |n.flows|
    && (n.flows == t.flows + [n.flows[k]] || (k < |t.flows| && n.flows == t.flows[k := n.flows[k]]))
    && (k < |t.flows| ==> k !in t.posted)
    && n.flows[k].transfer == Success && PostedFlow(n.flows[k])
    && n.flows[k].before == AccountOf(t, n.flows[k].user).available
    && n.flows[k].after == AccountOf(n, n.flows[k].user).available >= 0
  }

  lemma PostsKeepsPosted(t: Tables, n: Tables, k: nat)
    requires PostedOk(t.flows, t.posted) && Posts(t, n, k)
    requires |n.flows| > |t.flows| ==> k == |t.flows|
    ensures PostedOk(n.flows, n.posted)
    ensures forall i | 0 <= i < |t.posted| :: t.posted[i] != k && n.flows[t.posted[i]] == t.flows[t.posted[i]]
  {
    forall i | 0 <= i < |t.posted|
      ensures t.posted[i] != k
    {
      assert t.posted[i] in t.posted;
    }
    forall j: nat | j < |n.flows| && n.flows[j].transfer == Success
      ensures j in n.posted
    {
      if j == k {
        assert n.posted[|t.posted|] == j;
      } else {
        assert n.flows[j] == t.flows[j];
        assert j in t.posted;
      }
    }
  }

  lemma PostsSigned(t: Tables, n: Tables, k: nat, user: int)
    requires PostedOk(t.flows, t.posted) && Posts(t, n, k)
    requires |n.flows| > |t.flows| ==> k == |t.flows|
    ensures SignedTotal(n.flows, user)
            == SignedTotal(t.flows, user) + if n.flows[k].user == user then SignedAmount(n.flows[k]) else 0
  {
    if |n.flows| > |t.flows| {
      SumAppend(t.flows, n.flows[k], SignedWeight(user));
    } else {
      assert t.flows[k].transfer != Success;
      SumUpdate(t.flows, k, n.flows[k], SignedWeight(user));
    }
  }

  lemma PostsLost(t: Tables, n: Tables, k: nat, user: int)
    requires PostedOk(t.flows, t.posted) && Posts(t, n, k)
    requires |n.flows| > |t.flows| ==> k == |t.flows|
    ensures Lost(n.flows, n.posted, user) == Lost(t.flows, t.posted, user)
  {
    PostsKeepsPosted(t, n, k);
    LostFrame(t.flows, n.flows, t.posted, user);
    SumAppend(t.posted, k, LostWeight(n.flows, user));
  }

  lemma PostsKeepsAvailable(t: Tables, n: Tables, k: nat, user: int)
    requires PostedOk(t.flows, t.posted) && Posts(t, n, k) && AvailableOk(t, user)
    requires |n.flows| > |t.flows| ==> k == |t.flows|
    requires user != n.flows[k].user ==> AccountOf(n, user).available == AccountOf(t, user).available
    ensures PostedOk(n.flows, n.posted) && AvailableOk(n, user)
  {
    PostsKeepsPosted(t, n, k);
    PostingsFrame(t.flows, n.flows, t.posted, user);
    PostingAppended(n.flows, t.posted, k, user);
    PostsSigned(t, n, k, user);
    PostsLost(t, n, k, user);
  }

  /** A flow that is not successful is added, and nothing is posted. */
  lemma AddsKeepsAvailable(t: Tables, n: Tables, f: Flow, user: int)
    requires PostedOk(t.flows, t.posted) && AvailableOk(t, user) && f.transfer != Success
    requires n.flows == t.flows + [f] && n.posted == t.posted
    requires AccountOf(n, user).available == AccountOf(t, user).available
    ensures PostedOk(n.flows, n.posted) && AvailableOk(n, user)
  {
    PostingsFrame(t.flows, n.flows, t.posted, user);
    LostFrame(t.flows, n.flows, t.posted, user);
    SumAppend(t.flows, f, SignedWeight(user));
  }

  function Fail(flows: seq<Flow>, f: nat): seq<Flow>
    requires f < |flows|
  {
    flows[f := flows[f].(transfer := Failed)]
  }

  /** Marking a flow FAILED loses its amount to the sums exactly when it was successful. */
  lemma FailLoses(flows: seq<Flow>, p: seq<nat>, f: nat, user: int)
    requires PostedOk(flows, p) && f < |flows| && flows[f].kind == OrderFlow
    ensures var lost := if flows[f].user == user && flows[f].transfer == Success then flows[f].amount else 0;
            && SignedTotal(Fail(flows, f), user) == SignedTotal(flows, user) - lost
            && Lost(Fail(flows, f), p, user) == Lost(flows, p, user) + lost
  {
    var failed := Fail(flows, f);
    SumUpdate(flows, f, failed[f], SignedWeight(user));
    if f in p {
      var i :| 0 <= i < |p| && p[i] == f;
      SumDiffAt(p, i, LostWeight(flows, user), LostWeight(failed, user));
    } else {
      SumSame(p, LostWeight(flows, user), LostWeight(failed, user));
    }
  }

  lemma FailsKeepsAvailable(t: Tables, n: Tables, f: nat, user: int)
    requires PostedOk(t.flows, t.posted) && AvailableOk(t, user)
    requires f < |t.flows| && t.flows[f].kind == OrderFlow
    requires n.flows == Fail(t.flows, f) && n.posted == t.posted
    requires AccountOf(n, user).available == AccountOf(t, user).available
    ensures PostedOk(n.flows, n.posted) && AvailableOk(n, user)
  {
    PostingsFrame(t.flows, n.flows, t.posted, user);
    FailLoses(t.flows, t.posted, f, user);
  }

  // ---- what is lost ----

  predicate FailedPosting(flows: seq<Flow>, p: seq<nat>, i: nat, user: int)
    requires InRange(flows, p)
  {
    i < |p| && flows[p[i]].user == user && flows[p[i]].transfer == Failed
  }

  /** Nothing is lost to a user exactly when none of the user's postings is marked FAILED. */
  lemma NothingLostExactly(t: Tables, user: int)
    requires RowsOk(t) && PostedOk(t.flows, t.posted)
    ensures Lost(t.flows, t.posted, user) >= 0
    ensures Lost(t.flows, t.posted, user) == 0
            <==> forall i: nat :: !FailedPosting(t.flows, t.posted, i, user)
  {
    var w := LostWeight(t.flows, user);
    forall i | 0 <= i < |t.posted|
      ensures w(t.posted[i]) >= 0 && (w(t.posted[i]) > 0 <==> FailedPosting(t.flows, t.posted, i, user))
    {
      assert PostedFlow(t.flows[t.posted[i]]) && FlowOk(t.orders, t.flows[t.posted[i]]);
    }
    SumAtLeastTerm(t.posted, w);
    if forall i: nat :: !FailedPosting(t.flows, t.posted, i, user) {
      SumZero(t.posted, w);
    }
  }

  // ---- the frozen balance ----

  lemma FrozenNonNegative(t: Tables, user: int)
    requires RowsOk(t)
    ensures FrozenTotal(t.settlements, user) >= 0
    ensures forall i | 0 <= i < |t.settlements|
              && t.settlements[i].user == user && t.settlements[i].status == Confirmed ::
              FrozenTotal(t.settlements, user) >= t.settlements[i].amount
  {
    var w := FrozenWeight(user);
    forall j | 0 <= j < |t.settlements|
      ensures w(t.settlements[j]) >= 0
    {
      assert SettlementOk(t, t.settlements[j]);
    }
    SumAtLeastTerm(t.settlements, w);
    assert forall i | 0 <= i < |t.settlements|
        && t.settlements[i].user == user && t.settlements[i].status == Confirmed ::
        w(t.settlements[i]) == t.settlements[i].amount;
  }

  /** A user's frozen balance covers each of their confirmed settlements. */
  lemma FrozenCovers(t: Tables, i: nat)
    requires RowsOk(t) && i < |t.settlements| && t.settlements[i].status == Confirmed
    requires FrozenOk(t, t.settlements[i].user)
    ensures UnfreezeGuard(t, i)
  {
    FrozenNonNegative(t, t.settlements[i].user);
  }
}
