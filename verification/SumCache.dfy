/** The read-through cache of an order's commission sum, and the writes that invalidate it. */
module SumCache {
  import opened Sums
  import opened Wrappers

  /** A row of commission_flow as the sum sees it. Ids are positions; amounts are cents. */
  datatype Flow = Flow(order: Option<int>, amount: int, deleted: bool)

  /** A cached sum: the empty marker stands for zero. */
  datatype Cached = EmptyMarker | Amount(cents: int)

  datatype Store = Store(flows: seq<Flow>, cache: map<int, Cached>)

  function ValueOf(c: Cached): int {
    match c case EmptyMarker => 0 case Amount(v) => v
  }

  function Weight(order: int): Flow -> int {
    (f: Flow) => if f.order == Some(order) && !f.deleted then f.amount else 0
  }

  /** SELECT SUM(amount) over the order's active flows. */
  function TotalOf(flows: seq<Flow>, order: int): int {
    Sum(flows, Weight(order))
  }

  /** Every cached sum is right, and zero is cached as the empty marker alone. */
  ghost predicate Coherent(s: Store) {
    forall o | o in s.cache ::
      ValueOf(s.cache[o]) == TotalOf(s.flows, o) && (s.cache[o] == EmptyMarker <==> TotalOf(s.flows, o) == 0)
  }

  function Dropped(cache: map<int, Cached>, order: Option<int>): map<int, Cached> {
    if order.Some? then cache - {order.value} else cache
  }

  function Filled(s: Store, order: int): Store {
    if order in s.cache then s
    else
      var total := TotalOf(s.flows, order);
      s.(cache := s.cache[order := if total == 0 then EmptyMarker else Amount(total)])
  }

  function Created(s: Store, f: Flow): Store {
    Store(s.flows + [f], Dropped(s.cache, f.order))
  }

  predicate Active(flows: seq<Flow>, id: nat) {
    id < |flows| && !flows[id].deleted
  }

  /** Fields an update may change; `order` is given as the new value. */
  datatype Change = Change(order: Option<Option<int>>, amount: Option<int>)

  function Changed(f: Flow, c: Change): Flow {
    f.(order := if c.order.Some? then c.order.value else f.order,
       amount := if c.amount.Some? then c.amount.value else f.amount)
  }

  function Updated(s: Store, id: nat, c: Change): Store {
    if !Active(s.flows, id) then s
    else
      var f := Changed(s.flows[id], c);
      Store(s.flows[id := f], Dropped(s.cache, f.order))
  }

  function BoundFlow(flows: seq<Flow>, i: nat, order: int, ids: set<nat>): Flow
    requires i < |flows|
  {
    if i in ids && !flows[i].deleted then flows[i].(order := Some(order)) else flows[i]
  }

  function BoundFlows(flows: seq<Flow>, order: int, ids: set<nat>): (r: seq<Flow>)
    ensures |r| == |flows|
  {
    seq(|flows|, i requires 0 <= i < |flows| => BoundFlow(flows, i, order, ids))
  }

  function Bound(s: Store, order: int, ids: set<nat>): Store {
    Store(BoundFlows(s.flows, order, ids), s.cache - {order})
  }

  class FlowTable {
    var flows: seq<Flow>
    var cache: map<int, Cached>

    function Snapshot(): Store
      reads this
    {
      Store(flows, cache)
    }

    constructor ()
      ensures Snapshot() == Store([], map[])
    {
      flows, cache := [], map[];
    }

    /** sum_commission_by_order_id */
    method SumCommissionByOrderId(order: int) returns (total: int)
      modifies this`cache
      ensures Snapshot() == Filled(old(Snapshot()), order)
      ensures order in cache && total == ValueOf(cache[order])
    {
      if order in cache {
        return ValueOf(cache[order]);
      }
      total := 0;
      for i := 0 to |flows|
        invariant flows == old(flows) && cache == old(cache)
        invariant total == Sum(flows[..i], Weight(order))
      {
        assert flows[..i + 1] == flows[..i] + [flows[i]];
        SumAppend(flows[..i], flows[i], Weight(order));
        if flows[i].order == Some(order) && !flows[i].deleted {
          total := total + flows[i].amount;
        }
      }
      assert flows[..|flows|] == flows;
      cache := cache[order := if total == 0 then EmptyMarker else Amount(total)];
    }

    /** _invalidate_flow_cache */
    method Invalidate(order: Option<int>)
      modifies this`cache
      ensures cache == Dropped(old(cache), order)
    {
      if order.Some? {
        cache := cache - {order.value};
      }
    }

    /** create; the ledger's inserts do the same */
    method Create(f: Flow)
      modifies this
      ensures Snapshot() == Created(old(Snapshot()), f)
    {
      flows := flows + [f];
      Invalidate(f.order);
    }

    /** batch_create: all rows first, then one invalidation per row. */
    method BatchCreate(rows: seq<Flow>)
      modifies this
      ensures Snapshot() == CreatedAll(old(Snapshot()), rows)
    {
      flows := flows + rows;
      assert rows[..|rows|] == rows;
      for i := 0 to |rows|
        invariant flows == old(flows) + rows
        invariant cache == CreatedAll(old(Snapshot()), rows[..i]).cache
      {
        assert rows[..i + 1][..i] == rows[..i];
        Invalidate(rows[i].order);
      }
      CreatedAllFlows(old(Snapshot()), rows);
    }

    /** update_by_id: the cache is dropped for the order the row has after the change. */
    method UpdateById(id: nat, c: Change) returns (found: bool)
      modifies this
      ensures found == Active(old(flows), id)
      ensures Snapshot() == Updated(old(Snapshot()), id, c)
    {
      if id >= |flows| || flows[id].deleted {
        return false;
      }
      flows := flows[id := Changed(flows[id], c)];
      Invalidate(flows[id].order);
      return true;
    }

    /** batch_bind_order: the cache is dropped for the target order alone. */
    method BatchBindOrder(order: int, ids: set<nat>)
      modifies this
      ensures Snapshot() == Bound(old(Snapshot()), order, ids)
    {
      var i := 0;
      while i < |flows|
        invariant i <= |flows| == |old(flows)| && cache == old(cache)
        invariant forall j | 0 <= j < |flows| ::
          flows[j] == if j < i then BoundFlow(old(flows), j, order, ids) else old(flows)[j]
      {
        if i in ids && !flows[i].deleted {
          flows := flows[i := flows[i].(order := Some(order))];
        }
        i := i + 1;
      }
      Invalidate(Some(order));
    }
  }

  function CreatedAll(s: Store, rows: seq<Flow>): Store {
    if |rows| == 0 then s else Created(CreatedAll(s, rows[..|rows| - 1]), rows[|rows| - 1])
  }

  lemma {:induction false} CreatedAllFlows(s: Store, rows: seq<Flow>)
    ensures CreatedAll(s, rows).flows == s.flows + rows
    decreases |rows|
  {
    if |rows| > 0 {
      CreatedAllFlows(s, rows[..|rows| - 1]);
      assert rows == rows[..|rows| - 1] + [rows[|rows| - 1]];
    }
  }

  // ---- what each write does to the sums ----

  lemma CreateKeepsCoherent(s: Store, f: Flow)
    requires Coherent(s)
    ensures Coherent(Created(s, f))
  {
    forall o | o in Created(s, f).cache
      ensures ValueOf(Created(s, f).cache[o]) == TotalOf(Created(s, f).flows, o)
    {
      SumAppend(s.flows, f, Weight(o));
    }
  }

  /** The amount that row `id` takes away from order `o` when it becomes `f`. */
  function TakenBy(s: Store, id: nat, f: Flow, o: int): int
    requires id < |s.flows|
  {
    Weight(o)(s.flows[id]) - Weight(o)(f)
  }

  /** An update keeps the cache right if and only if the order it moves the row away from, when that
      is another order with a cached sum, loses nothing by it. */
  lemma UpdateCoherentExactly(s: Store, id: nat, c: Change)
    requires Coherent(s) && Active(s.flows, id)
    ensures var f := Changed(s.flows[id], c);
            Coherent(Updated(s, id, c)) <==>
              !(s.flows[id].order.Some? && s.flows[id].order != f.order
                && s.flows[id].order.value in s.cache && s.flows[id].amount != 0)
  {
    var f := Changed(s.flows[id], c);
    var n := Updated(s, id, c);
    forall o
      ensures TotalOf(n.flows, o) == TotalOf(s.flows, o) - TakenBy(s, id, f, o)
    {
      SumUpdate(s.flows, id, f, Weight(o));
    }
    assert forall o | o in n.cache && s.flows[id].order != Some(o) :: TakenBy(s, id, f, o) == 0;
    if s.flows[id].order.Some? && s.flows[id].order != f.order && s.flows[id].order.value in s.cache {
      var o := s.flows[id].order.value;
      assert o in n.cache && TakenBy(s, id, f, o) == s.flows[id].amount;
    }
  }

  /** An update moves its row's amount: the owner before loses the old amount, the owner after gains the new
      one, whichever of the two fields the update gives; rows that are deleted or missing stay as they are. */
  lemma UpdateMeaning(s: Store, id: nat, order: Option<Option<int>>, amount: Option<int>, o: int)
    ensures var n := Updated(s, id, Change(order, amount));
            if !(id < |s.flows| && !s.flows[id].deleted) then n == s
            else
              var owner := if order.Some? then order.value else s.flows[id].order;
              var cents := if amount.Some? then amount.value else s.flows[id].amount;
              TotalOf(n.flows, o) == TotalOf(s.flows, o)
                                     - (if s.flows[id].order == Some(o) then s.flows[id].amount else 0)
                                     + (if owner == Some(o) then cents else 0)
  {
    if Active(s.flows, id) {
      SumUpdate(s.flows, id, Changed(s.flows[id], Change(order, amount)), Weight(o));
    }
  }

  /** What binding takes away from order `o`: the amounts of its active flows among `ids`. */
  function MovedFrom(flows: seq<Flow>, ids: set<nat>, o: int): int {
    if |flows| == 0 then 0
    else
      var n := |flows| - 1;
      MovedFrom(flows[..n], ids, o) + if n in ids then Weight(o)(flows[n]) else 0
  }

  lemma {:induction false} BindMoves(flows: seq<Flow>, order: int, ids: set<nat>, o: int)
    requires o != order
    ensures TotalOf(BoundFlows(flows, order, ids), o) == TotalOf(flows, o) - MovedFrom(flows, ids, o)
    decreases |flows|
  {
    if |flows| > 0 {
      var n := |flows| - 1;
      BindMoves(flows[..n], order, ids, o);
      assert BoundFlows(flows, order, ids)[..n] == BoundFlows(flows[..n], order, ids);
    }
  }

  /** What binding gives the target: the active flows among `ids` that were not its own, those of no order
      included. */
  function Gained(flows: seq<Flow>, ids: set<nat>, order: int): int {
    if |flows| == 0 then 0
    else
      var n := |flows| - 1;
      Gained(flows[..n], ids, order)
      + if n in ids && !flows[n].deleted && flows[n].order != Some(order) then flows[n].amount else 0
  }

  lemma {:induction false} BindGains(flows: seq<Flow>, order: int, ids: set<nat>)
    ensures TotalOf(BoundFlows(flows, order, ids), order) == TotalOf(flows, order) + Gained(flows, ids, order)
    decreases |flows|
  {
    if |flows| > 0 {
      var n := |flows| - 1;
      BindGains(flows[..n], order, ids);
      assert BoundFlows(flows, order, ids)[..n] == BoundFlows(flows[..n], order, ids);
    }
  }

  /** After a bind the target answers its old total and what it gained; amounts and deletions stay, and so
      do deleted rows and rows outside `ids`. */
  lemma BindMeaning(s: Store, order: int, ids: set<nat>)
    ensures var n := Bound(s, order, ids);
            && ValueOf(Filled(n, order).cache[order]) == TotalOf(s.flows, order) + Gained(s.flows, ids, order)
            && |n.flows| == |s.flows|
            && (forall i | 0 <= i < |s.flows| ::
                  && n.flows[i].amount == s.flows[i].amount && n.flows[i].deleted == s.flows[i].deleted
                  && (s.flows[i].deleted || i !in ids ==> n.flows[i].order == s.flows[i].order)
                  && (!s.flows[i].deleted && i in ids ==> n.flows[i].order == Some(order)))
  {
    BindGains(s.flows, order, ids);
  }

  /** Binding keeps the cache right if and only if no other order with a cached sum loses a nonzero
      amount to the target. */
  lemma BindCoherentExactly(s: Store, order: int, ids: set<nat>)
    requires Coherent(s)
    ensures Coherent(Bound(s, order, ids)) <==>
            forall o | o in s.cache && o != order :: MovedFrom(s.flows, ids, o) == 0
  {
    var n := Bound(s, order, ids);
    forall o | o != order
      ensures TotalOf(n.flows, o) == TotalOf(s.flows, o) - MovedFrom(s.flows, ids, o)
    {
      BindMoves(s.flows, order, ids, o);
    }
    assert forall o :: o in n.cache <==> o in s.cache && o != order;
  }

  lemma {:induction false} NothingMoved(flows: seq<Flow>, ids: set<nat>, order: int, o: int)
    requires o != order
    requires forall i | 0 <= i < |flows| && i in ids && !flows[i].deleted ::
               flows[i].order == None || flows[i].order == Some(order)
    ensures MovedFrom(flows, ids, o) == 0
    decreases |flows|
  {
    if |flows| > 0 {
      NothingMoved(flows[..|flows| - 1], ids, order, o);
    }
  }

  // ---- runs ----

  datatype Event =
    | Read(order: int)
    | Expire(order: int)
    | Create(row: Flow)
    | BatchCreate(rows: seq<Flow>)
    | Update(id: nat, change: Change)
    | Bind(order: int, ids: set<nat>)

  /** No flow is moved away from an order: only unowned flows change owner. */
  predicate Safe(s: Store, e: Event) {
    match e
    case Update(id, c) =>
      Active(s.flows, id) ==> s.flows[id].order == None || Changed(s.flows[id], c).order == s.flows[id].order
    case Bind(order, ids) =>
      forall i | 0 <= i < |s.flows| && i in ids && !s.flows[i].deleted ::
        s.flows[i].order == None || s.flows[i].order == Some(order)
    case _ => true
  }

  function Next(s: Store, e: Event): Store {
    match e
    case Read(o) => Filled(s, o)
    case Expire(o) => s.(cache := s.cache - {o})
    case Create(f) => Created(s, f)
    case BatchCreate(rows) => CreatedAll(s, rows)
    case Update(id, c) => Updated(s, id, c)
    case Bind(o, ids) => Bound(s, o, ids)
  }

  predicate Run(s: Store, es: seq<Event>)
    decreases |es|
  {
    |es| > 0 ==> Safe(s, es[0]) && Run(Next(s, es[0]), es[1..])
  }

  function Exec(s: Store, es: seq<Event>): Store
    decreases |es|
  {
    if |es| == 0 then s else Exec(Next(s, es[0]), es[1..])
  }

  lemma {:induction false} CreateAllKeepsCoherent(s: Store, rows: seq<Flow>)
    requires Coherent(s)
    ensures Coherent(CreatedAll(s, rows))
    decreases |rows|
  {
    if |rows| > 0 {
      CreateAllKeepsCoherent(s, rows[..|rows| - 1]);
      CreateKeepsCoherent(CreatedAll(s, rows[..|rows| - 1]), rows[|rows| - 1]);
    }
  }

  lemma NextKeepsCoherent(s: Store, e: Event)
    requires Coherent(s) && Safe(s, e)
    ensures Coherent(Next(s, e))
  {
    match e
    case Create(f) => CreateKeepsCoherent(s, f);
    case BatchCreate(rows) => CreateAllKeepsCoherent(s, rows);
    case Update(id, c) => if Active(s.flows, id) { UpdateCoherentExactly(s, id, c); }
    case Bind(o, ids) =>
      forall p | p in s.cache && p != o
        ensures MovedFrom(s.flows, ids, p) == 0
      {
        NothingMoved(s.flows, ids, o, p);
      }
      BindCoherentExactly(s, o, ids);
    case _ =>
  }

  /** After any mix of reads, expiries and such writes, every cached sum is the sum over the active
      flows, so a read always answers that sum. */
  lemma {:induction false} ReadsAreExact(s: Store, es: seq<Event>, order: int)
    requires Coherent(s) && Run(s, es)
    ensures Coherent(Exec(s, es))
    ensures ValueOf(Filled(Exec(s, es), order).cache[order]) == TotalOf(Exec(s, es).flows, order)
    decreases |es|
  {
    if |es| > 0 {
      NextKeepsCoherent(s, es[0]);
      ReadsAreExact(Next(s, es[0]), es[1..], order);
    }
  }

  // ---- what is cached is answered, right or not ----

  /** The event leaves the cached sum of order `o` alone: it neither expires it nor ends with a row there. */
  predicate Spares(s: Store, e: Event, o: int) {
    match e
    case Read(_) => true
    case Expire(p) => p != o
    case Create(row) => row.order != Some(o)
    case BatchCreate(rows) => forall i | 0 <= i < |rows| :: rows[i].order != Some(o)
    case Update(id, c) =>
      id < |s.flows| && !s.flows[id].deleted ==>
        (if c.order.Some? then c.order.value else s.flows[id].order) != Some(o)
    case Bind(p, _) => p != o
  }

  predicate AllSpare(s: Store, es: seq<Event>, o: int)
    decreases |es|
  {
    |es| > 0 ==> Spares(s, es[0], o) && AllSpare(Next(s, es[0]), es[1..], o)
  }

  lemma {:induction false} CreatedAllDrops(s: Store, rows: seq<Flow>, o: int)
    requires o in s.cache
    ensures o in CreatedAll(s, rows).cache <==> forall i | 0 <= i < |rows| :: rows[i].order != Some(o)
    ensures o in CreatedAll(s, rows).cache ==> CreatedAll(s, rows).cache[o] == s.cache[o]
    decreases |rows|
  {
    if |rows| > 0 {
      CreatedAllDrops(s, rows[..|rows| - 1], o);
    }
  }

  /** A cached sum is dropped by exactly the events that do not spare it, and never rewritten in place. */
  lemma DroppedExactly(s: Store, e: Event, o: int)
    requires o in s.cache
    ensures o in Next(s, e).cache <==> Spares(s, e, o)
    ensures o in Next(s, e).cache ==> Next(s, e).cache[o] == s.cache[o]
  {
    if e.BatchCreate? {
      CreatedAllDrops(s, e.rows, o);
    }
  }

  /** So until one of those events every read gives the same answer, stale or not. */
  lemma {:induction false} AnswerStays(s: Store, es: seq<Event>, o: int)
    requires o in s.cache && AllSpare(s, es, o)
    ensures ValueOf(Filled(Exec(s, es), o).cache[o]) == ValueOf(s.cache[o])
    decreases |es|
  {
    if |es| > 0 {
      DroppedExactly(s, es[0], o);
      AnswerStays(Next(s, es[0]), es[1..], o);
    }
  }

  // ---- writes that leave a stale sum ----

  lemma OneFlowTotal(f: Flow, o: int)
    ensures TotalOf([f], o) == Weight(o)(f)
  {
    SumAppend([], f, Weight(o));
    assert [] + [f] == [f];
  }

  function OneRead(a: int, amount: int): Store {
    Store([Flow(Some(a), amount, false)], map[a := Amount(amount)])
  }

  /** The store in which order `a` has one flow, and its sum was read, is reached by harmless events. */
  lemma OneReadReachable(a: int, amount: int) returns (es: seq<Event>)
    requires amount != 0
    ensures Run(Store([], map[]), es) && Exec(Store([], map[]), es) == OneRead(a, amount)
  {
    var f := Flow(Some(a), amount, false);
    var start, one := Store([], map[]), Store([f], map[]);
    es := [Create(f), Read(a)];
    OneFlowTotal(f, a);
    assert Next(start, Create(f)) == one && Next(one, Read(a)) == OneRead(a, amount);
    assert es[1..] == [Read(a)] && es[1..][1..] == [];
    assert Run(OneRead(a, amount), []) && Exec(OneRead(a, amount), []) == OneRead(a, amount);
    assert Run(one, es[1..]) && Exec(one, es[1..]) == OneRead(a, amount);
  }

  lemma MovedFlowIs(a: int, b: int, amount: int)
    requires a != b
    ensures Bound(OneRead(a, amount), b, {0}) == Store([Flow(Some(b), amount, false)], map[a := Amount(amount)])
    ensures Updated(OneRead(a, amount), 0, Change(Some(Some(b)), None)) == Bound(OneRead(a, amount), b, {0})
  {
  }

  /** Binding that flow to another order, or changing its owner by an update, leaves `a` answering the
      amount although it has no flow left. */
  lemma MovedFlowLeavesStaleSum(a: int, b: int, amount: int)
    requires a != b && amount != 0
    ensures var n := Bound(OneRead(a, amount), b, {0});
            a in n.cache && ValueOf(n.cache[a]) == amount && TotalOf(n.flows, a) == 0
    ensures Updated(OneRead(a, amount), 0, Change(Some(Some(b)), None)) == Bound(OneRead(a, amount), b, {0})
  {
    MovedFlowIs(a, b, amount);
    OneFlowTotal(Flow(Some(b), amount, false), a);
  }
}
