/** The rows of the commission ledger, the status tables, the work-list queries, and the committed
    effect of each transaction of the two settlement pipelines on those rows. Money is in cents. */
module LedgerTables {
  import opened Wrappers

  datatype OrderStatus = Pending | Frozen | Settlable | Settled | Invalid | Refunded

  datatype SettlementStatus = Ordered | Confirmed | Unfrozen | PaidOut

  datatype TransferStatus = InFlight | Success | Failed

  datatype FlowKind = OrderFlow | DeductFlow

  datatype Order = Order(user: int, status: OrderStatus)

  datatype Flow = Flow(order: int, user: int, kind: FlowKind, amount: int,
                       before: int, after: int, transfer: TransferStatus)

  datatype Settlement = Settlement(order: int, user: int, amount: int,
                                   status: SettlementStatus, flow: Option<nat>)

  datatype Account = Account(total: int, available: int, frozen: int, version: int)

  /** All tables. Flow and settlement ids are positions. `posted` is history: the ids of the flows
      that moved an available balance, in the order those transactions committed. */
  datatype Tables = Tables(orders: map<int, Order>, flows: seq<Flow>, settlements: seq<Settlement>,
                           accounts: map<int, Account>, posted: seq<nat>)

  const EmptyTables := Tables(map[], [], [], map[], [])

  const NewAccount := Account(0, 0, 0, 0)

  /** ORDER_STATUS_TRANSITIONS. */
  function AllowedOrderTargets(s: OrderStatus): set<OrderStatus> {
    match s
    case Pending => {Frozen, Invalid, Refunded}
    case Frozen => {Settlable, Invalid}
    case Settlable => {Settled, Invalid}
    case Settled => {Refunded}
    case Invalid => {}
    case Refunded => {}
  }

  /** SETTLEMENT_TRANSITIONS; the source's SETTLABLE and SETTLED are `Confirmed` and `Unfrozen`. */
  function AllowedSettlementTargets(s: SettlementStatus): set<SettlementStatus> {
    match s
    case Ordered => {Confirmed}
    case Confirmed => {Unfrozen}
    case Unfrozen => {PaidOut}
    case PaidOut => {}
  }

  function AccountOf(t: Tables, user: int): Account {
    if user in t.accounts then t.accounts[user] else NewAccount
  }

  // ---- work-list queries ----

  predicate HasFlow(t: Tables, o: int, kind: FlowKind) {
    exists k | 0 <= k < |t.flows| :: t.flows[k].order == o && t.flows[k].kind == kind
  }

  predicate HasSettlement(t: Tables, o: int) {
    exists i | 0 <= i < |t.settlements| :: t.settlements[i].order == o
  }

  predicate HasStatus(t: Tables, o: int, s: OrderStatus) {
    o in t.orders && t.orders[o].status == s
  }

  /** list_settlable_orders_without_settlement; freezing a single order checks the same. */
  predicate FreezeListed(t: Tables, o: int) {
    HasStatus(t, o, Settlable) && !HasSettlement(t, o)
  }

  /** list_settled_pending_unfreeze; unfreezing a single order checks the same. */
  predicate UnfreezeListed(t: Tables, i: nat) {
    && i < |t.settlements|
    && HasStatus(t, t.settlements[i].order, Settled)
    && t.settlements[i].status == Confirmed
  }

  /** list_settled_orders_without_flow */
  predicate SettleListed(t: Tables, o: int) {
    HasStatus(t, o, Settled) && !HasFlow(t, o, OrderFlow)
  }

  /** list_refunded_orders_without_deduct */
  predicate DeductListed(t: Tables, o: int) {
    && HasStatus(t, o, Refunded)
    && (exists k | 0 <= k < |t.flows| ::
          t.flows[k].order == o && t.flows[k].kind == OrderFlow && t.flows[k].transfer == Success)
    && !HasFlow(t, o, DeductFlow)
  }

  // ---- what the services check for a single order ----

  /** The first ORDER flow of an order, the one the services look at. */
  predicate FirstFlow(t: Tables, o: int, f: nat) {
    && f < |t.flows|
    && t.flows[f].order == o && t.flows[f].kind == OrderFlow
    && forall j | 0 <= j < f :: !(t.flows[j].order == o && t.flows[j].kind == OrderFlow)
  }

  /** settle_single_order: stops only at a first flow that is SUCCESS. */
  predicate SettleAllowed(t: Tables, o: int) {
    HasStatus(t, o, Settled) && forall f | 0 <= f < |t.flows| && FirstFlow(t, o, f) :: t.flows[f].transfer != Success
  }

  /** process_single_refund: stops only at an existing DEDUCT flow. */
  predicate RefundAllowed(t: Tables, o: int, f: nat) {
    HasStatus(t, o, Refunded) && FirstFlow(t, o, f) && !HasFlow(t, o, DeductFlow)
  }

  // ---- service calls: a check, and later the transaction ----

  /** A service call that has passed its checks and not yet run its transaction. A refund carries the
      transfer status its session read, because the transaction does not read the flow again. */
  datatype Call =
    | FreezeCall(order: int, amount: int)
    | UnfreezeCall(row: nat)
    | SettleCall(order: int, amount: int)
    | RefundCall(order: int, flow: nat, seen: TransferStatus)
    | GenerateCall(order: int, amount: int)

  /** What each service checks before its transaction; generate_commission_flows asks for no status. */
  predicate CheckPasses(t: Tables, c: Call) {
    match c
    case FreezeCall(o, _) => FreezeListed(t, o)
    case UnfreezeCall(i) => UnfreezeListed(t, i)
    case SettleCall(o, _) => SettleAllowed(t, o)
    case RefundCall(o, f, seen) => RefundAllowed(t, o, f) && seen == t.flows[f].transfer
    case GenerateCall(o, amount) => o in t.orders && amount >= 0 && !HasFlow(t, o, OrderFlow)
  }

  /** The rows a call names exist. */
  predicate Names(t: Tables, c: Call) {
    match c
    case FreezeCall(o, _) => o in t.orders
    case UnfreezeCall(i) => i < |t.settlements|
    case SettleCall(o, _) => o in t.orders
    case RefundCall(o, f, _) => o in t.orders && f < |t.flows|
    case GenerateCall(o, _) => o in t.orders
  }

  /** The transaction's own checks: a positive amount, a linked flow, no overdraft. */
  predicate Accepts(t: Tables, c: Call)
    requires Names(t, c)
  {
    match c
    case FreezeCall(_, amount) => amount > 0
    case UnfreezeCall(i) => FlowLinked(t, i) && UnfreezeGuard(t, i)
    case SettleCall(_, amount) => amount > 0
    case RefundCall(o, f, seen) => seen == InFlight || DeductGuard(t, o, f)
    case GenerateCall(_, _) => true
  }

  function Effect(t: Tables, c: Call): Tables
    requires Names(t, c) && Accepts(t, c)
  {
    match c
    case FreezeCall(o, amount) => FreezeEffect(t, o, amount)
    case UnfreezeCall(i) => UnfreezeEffect(t, i)
    case SettleCall(o, amount) => SettleEffect(t, o, amount)
    case RefundCall(o, f, seen) => RefundEffect(t, o, f, seen)
    case GenerateCall(o, amount) => GenerateEffect(t, o, amount)
  }

  // ---- committed effect of each transaction ----

  function FreezeEffect(t: Tables, o: int, amount: int): Tables
    requires o in t.orders
  {
    var user := t.orders[o].user;
    var a := AccountOf(t, user);
    var flow := Flow(o, user, OrderFlow, amount, a.available, a.available, InFlight);
    var row := Settlement(o, user, amount, Confirmed, Some(|t.flows|));
    t.(flows := t.flows + [flow],
       settlements := t.settlements + [row],
       accounts := t.accounts[user := a.(frozen := a.frozen + amount, total := a.total + amount,
                                         version := a.version + 1)])
  }

  predicate UnfreezeGuard(t: Tables, i: nat)
    requires i < |t.settlements|
  {
    AccountOf(t, t.settlements[i].user).frozen >= t.settlements[i].amount
  }

  predicate FlowLinked(t: Tables, i: nat)
    requires i < |t.settlements|
  {
    t.settlements[i].flow.Some? && t.settlements[i].flow.value < |t.flows|
  }

  function UnfreezeEffect(t: Tables, i: nat): Tables
    requires i < |t.settlements| && FlowLinked(t, i)
  {
    var s := t.settlements[i];
    var k := s.flow.value;
    var a := AccountOf(t, s.user);
    t.(flows := t.flows[k := t.flows[k].(transfer := Success, before := a.available,
                                         after := a.available + s.amount)],
       settlements := t.settlements[i := s.(status := Unfrozen)],
       accounts := t.accounts[s.user := a.(frozen := a.frozen - s.amount,
                                           available := a.available + s.amount,
                                           version := a.version + 1)],
       posted := t.posted + [k])
  }

  function SettleEffect(t: Tables, o: int, amount: int): Tables
    requires o in t.orders
  {
    var user := t.orders[o].user;
    var a := AccountOf(t, user);
    var flow := Flow(o, user, OrderFlow, amount, a.available, a.available + amount, Success);
    t.(flows := t.flows + [flow],
       accounts := t.accounts[user := a.(available := a.available + amount, total := a.total + amount,
                                         version := a.version + 1)],
       posted := t.posted + [|t.flows|])
  }

  predicate DeductGuard(t: Tables, o: int, f: nat)
    requires o in t.orders && f < |t.flows|
  {
    AccountOf(t, t.orders[o].user).available - t.flows[f].amount >= 0
  }

  /** A flow seen in flight is only marked FAILED; every other status takes the balance branch. */
  function RefundEffect(t: Tables, o: int, f: nat, seen: TransferStatus): Tables
    requires o in t.orders && f < |t.flows|
  {
    if seen == InFlight then
      t.(flows := t.flows[f := t.flows[f].(transfer := Failed)])
    else
      var user := t.orders[o].user;
      var amount := t.flows[f].amount;
      var a := AccountOf(t, user);
      var flow := Flow(o, user, DeductFlow, amount, a.available, a.available - amount, Success);
      t.(flows := t.flows + [flow],
         accounts := t.accounts[user := a.(available := a.available - amount, total := a.total - amount,
                                           version := a.version + 1)],
         posted := t.posted + [|t.flows|])
  }

  /** generate_commission_flows: a flow in flight, whose balances are written but moved by nobody. */
  function GenerateEffect(t: Tables, o: int, amount: int): Tables
    requires o in t.orders
  {
    t.(flows := t.flows + [Flow(o, t.orders[o].user, OrderFlow, amount, 0, amount, InFlight)])
  }

  function MoveEffect(t: Tables, o: int, to: OrderStatus): Tables
    requires o in t.orders
  {
    t.(orders := t.orders[o := t.orders[o].(status := to)])
  }

  function PaidEffect(t: Tables, i: nat): Tables
    requires i < |t.settlements|
  {
    t.(settlements := t.settlements[i := t.settlements[i].(status := PaidOut)])
  }
}
