/** Batch insertion of channel orders: filter what is known, insert the rest in one transaction, and on
    a constraint violation fall back to one transaction per row. */
module OrderUpsert {
  import opened Wrappers

  /** A row of orders. `number` is the channel's order number, `internal` the platform's; both columns
      are unique, deleted rows included. `rest` stands for the columns that are only copied. */
  datatype Row = Row(number: Option<string>, internal: string, deleted: bool, rest: string)

  /** NOT NULL and UNIQUE on the two numbers. */
  predicate Insertable(rows: seq<Row>, r: Row) {
    r.number.Some? && forall k | 0 <= k < |rows| :: rows[k].number != r.number && rows[k].internal != r.internal
  }

  /** The specification: rows one by one, each inserted if nothing conflicts. */
  function Upsert(rows: seq<Row>, data: seq<Row>): seq<Row> {
    if |data| == 0 then rows
    else
      var before := Upsert(rows, data[..|data| - 1]);
      var r := data[|data| - 1];
      if Insertable(before, r) then before + [r] else before
  }

  /** The rows that were inserted, in order. */
  function Accepted(rows: seq<Row>, data: seq<Row>): seq<Row> {
    if |data| == 0 then []
    else
      var n := |data| - 1;
      Accepted(rows, data[..n]) + if Insertable(Upsert(rows, data[..n]), data[n]) then [data[n]] else []
  }

  /** The specification with others at work: before each row of ours, `gaps` says what other processes
      try to insert. */
  function Among(rows: seq<Row>, data: seq<Row>, gaps: seq<seq<Row>>): seq<Row>
    requires |gaps| == |data|
  {
    if |data| == 0 then rows
    else
      var n := |data| - 1;
      var before := Upsert(Among(rows, data[..n], gaps[..n]), gaps[n]);
      if Insertable(before, data[n]) then before + [data[n]] else before
  }

  /** Our rows that were inserted, in order. */
  function AcceptedAmong(rows: seq<Row>, data: seq<Row>, gaps: seq<seq<Row>>): seq<Row>
    requires |gaps| == |data|
  {
    if |data| == 0 then []
    else
      var n := |data| - 1;
      AcceptedAmong(rows, data[..n], gaps[..n])
      + if Insertable(Upsert(Among(rows, data[..n], gaps[..n]), gaps[n]), data[n]) then [data[n]] else []
  }

  function Quiet(n: nat): seq<seq<Row>> {
    seq(n, i requires 0 <= i < n => [])
  }

  predicate KnownActive(rows: seq<Row>, number: string) {
    exists k | 0 <= k < |rows| :: rows[k].number == Some(number) && !rows[k].deleted
  }

  predicate Filtered(existing: set<string>, r: Row) {
    r.number.Some? && r.number.value in existing
  }

  function Fresh(data: seq<Row>, existing: set<string>): seq<Row> {
    if |data| == 0 then []
    else
      Fresh(data[..|data| - 1], existing) + if Filtered(existing, data[|data| - 1]) then [] else [data[|data| - 1]]
  }

  /** The gaps before the rows that are kept. */
  function FreshGaps(data: seq<Row>, existing: set<string>, gaps: seq<seq<Row>>): (r: seq<seq<Row>>)
    requires |gaps| == |data|
    ensures |r| == |Fresh(data, existing)|
  {
    if |data| == 0 then []
    else
      var n := |data| - 1;
      FreshGaps(data[..n], existing, gaps[..n]) + if Filtered(existing, data[n]) then [] else [gaps[n]]
  }

  /** Rows that are filtered out are not written, so nothing happens before them. */
  function Taken(data: seq<Row>, existing: set<string>, gaps: seq<seq<Row>>): seq<seq<Row>>
    requires |gaps| == |data|
  {
    seq(|data|, i requires 0 <= i < |data| => if Filtered(existing, data[i]) then [] else gaps[i])
  }

  class OrderTable {
    var rows: seq<Row>

    constructor ()
      ensures rows == []
    {
      rows := [];
    }

    /** list_existing_out_order_nos */
    method ListExisting(numbers: seq<string>) returns (existing: set<string>)
      ensures forall n :: n in existing <==> n in numbers && KnownActive(rows, n)
    {
      existing := {};
      for i := 0 to |numbers|
        invariant forall n :: n in existing <==> n in numbers[..i] && KnownActive(rows, n)
      {
        assert numbers[..i + 1] == numbers[..i] + [numbers[i]];
        if KnownActive(rows, numbers[i]) {
          existing := existing + {numbers[i]};
        }
      }
      assert numbers[..|numbers|] == numbers;
    }

    /** BaseDAO.batch_create: all of the rows or, after a violation, none. */
    method BatchCreate(data: seq<Row>) returns (ok: bool)
      modifies this
      ensures ok ==> rows == Upsert(old(rows), data) && Accepted(old(rows), data) == data
      ensures !ok ==> rows == old(rows) && |Accepted(old(rows), data)| < |data|
    {
      var saved := rows;
      for i := 0 to |data|
        invariant rows == Upsert(saved, data[..i]) && Accepted(saved, data[..i]) == data[..i]
      {
        assert data[..i + 1][..i] == data[..i];
        if !Insertable(rows, data[i]) {
          rows := saved;
          RejectedOnce(saved, data, i);
          return false;
        }
        rows := rows + [data[i]];
      }
      assert data[..|data|] == data;
      return true;
    }

    /** _fallback_single_insert: each row is a transaction of its own, so others may come in before it. */
    method FallbackSingleInsert(data: seq<Row>, gaps: seq<seq<Row>>) returns (inserted: seq<Row>)
      requires |gaps| == |data|
      modifies this
      ensures rows == Among(old(rows), data, gaps) && inserted == AcceptedAmong(old(rows), data, gaps)
    {
      inserted := [];
      for i := 0 to |data|
        invariant rows == Among(old(rows), data[..i], gaps[..i])
        invariant inserted == AcceptedAmong(old(rows), data[..i], gaps[..i])
      {
        assert data[..i + 1][..i] == data[..i] && gaps[..i + 1][..i] == gaps[..i];
        rows := Upsert(rows, gaps[i]);
        if Insertable(rows, data[i]) {
          rows := rows + [data[i]];
          inserted := inserted + [data[i]];
        }
      }
      assert data[..|data|] == data && gaps[..|gaps|] == gaps;
    }

    /** The numbers that are looked up. */
    method Numbers(data: seq<Row>) returns (numbers: seq<string>)
      ensures forall n :: n in numbers <==> n != "" && exists i | 0 <= i < |data| :: data[i].number == Some(n)
    {
      numbers := [];
      for i := 0 to |data|
        invariant forall n :: n in numbers <==> n != "" && exists j | 0 <= j < i :: data[j].number == Some(n)
      {
        if data[i].number.Some? && data[i].number.value != "" {
          numbers := numbers + [data[i].number.value];
        }
      }
    }

    /** The filter of batch_upsert_orders. */
    method FilterKnown(data: seq<Row>, existing: set<string>, gaps: seq<seq<Row>>)
      returns (newData: seq<Row>, newGaps: seq<seq<Row>>)
      requires |gaps| == |data|
      ensures newData == Fresh(data, existing) && newGaps == FreshGaps(data, existing, gaps)
    {
      newData, newGaps := [], [];
      for i := 0 to |data|
        invariant newData == Fresh(data[..i], existing)
        invariant newGaps == FreshGaps(data[..i], existing, gaps[..i])
      {
        assert data[..i + 1][..i] == data[..i] && gaps[..i + 1][..i] == gaps[..i];
        if data[i].number == None || data[i].number.value !in existing {
          newData := newData + [data[i]];
          newGaps := newGaps + [gaps[i]];
        }
      }
      assert data[..|data|] == data && gaps[..|gaps|] == gaps;
    }

    /** batch_upsert_orders. `first` is what others insert between the lookup and the batch, and `gaps`
        what they insert before each row of ours when the fallback writes it; `taken` says before which
        rows that came about. */
    method BatchUpsertOrders(data: seq<Row>, first: seq<Row>, gaps: seq<seq<Row>>)
      returns (inserted: seq<Row>, count: nat, ghost taken: seq<seq<Row>>)
      requires |gaps| == |data|
      modifies this
      ensures |taken| == |data| && forall i | 0 <= i < |data| :: taken[i] == [] || taken[i] == gaps[i]
      ensures rows == Among(Upsert(old(rows), first), data, taken)
      ensures inserted == AcceptedAmong(Upsert(old(rows), first), data, taken) && count == |inserted|
    {
      taken := Quiet(|data|);
      if data == [] {
        rows := Upsert(rows, first);
        return [], 0, taken;
      }
      var numbers := Numbers(data);
      var existing := ListExisting(numbers);
      var newData, newGaps := FilterKnown(data, existing, gaps);
      StillBlocked(rows, first, existing);
      rows := Upsert(rows, first);
      FilterChangesNothing(rows, data, existing);
      AmongQuiet(rows, data, taken);
      if newData == [] {
        return [], 0, taken;
      }
      var ok := BatchCreate(newData);
      if ok {
        return newData, |newData|, taken;
      }
      taken := Taken(data, existing, gaps);
      FilterChangesNothingAmong(rows, data, existing, gaps);
      inserted := FallbackSingleInsert(newData, newGaps);
      count := |inserted|;
    }
  }

  predicate Blocked(rows: seq<Row>, number: string) {
    exists k | 0 <= k < |rows| :: rows[k].number == Some(number)
  }

  lemma {:induction false} UpsertGrows(rows: seq<Row>, data: seq<Row>)
    ensures Upsert(rows, data) == rows + Accepted(rows, data)
    ensures |Accepted(rows, data)| <= |data|
    decreases |data|
  {
    if |data| > 0 {
      UpsertGrows(rows, data[..|data| - 1]);
    }
  }

  lemma {:induction false} RejectedOnce(rows: seq<Row>, data: seq<Row>, i: nat)
    requires i < |data| && !Insertable(Upsert(rows, data[..i]), data[i])
    ensures |Accepted(rows, data)| < |data|
    decreases |data|
  {
    var n := |data| - 1;
    UpsertGrows(rows, data[..n]);
    if i < n {
      assert data[..n][..i] == data[..i];
      RejectedOnce(rows, data[..n], i);
    }
  }

  lemma UpsertAppend(rows: seq<Row>, data: seq<Row>, r: Row)
    ensures Upsert(rows, data + [r]) ==
            if Insertable(Upsert(rows, data), r) then Upsert(rows, data) + [r] else Upsert(rows, data)
    ensures Accepted(rows, data + [r]) ==
            Accepted(rows, data) + if Insertable(Upsert(rows, data), r) then [r] else []
  {
    assert (data + [r])[..|data|] == data;
  }

  /** Leaving out rows whose number is already taken changes neither the table nor what is inserted. */
  lemma {:induction false} FilterChangesNothing(rows: seq<Row>, data: seq<Row>, existing: set<string>)
    requires forall n | n in existing :: Blocked(rows, n)
    ensures Upsert(rows, Fresh(data, existing)) == Upsert(rows, data)
    ensures Accepted(rows, Fresh(data, existing)) == Accepted(rows, data)
    decreases |data|
  {
    if |data| > 0 {
      var n := |data| - 1;
      FilterChangesNothing(rows, data[..n], existing);
      if Filtered(existing, data[n]) {
        UpsertGrows(rows, data[..n]);
        BlockedIsRejected(rows, Upsert(rows, data[..n]), data[n]);
        assert Fresh(data, existing) == Fresh(data[..n], existing);
        assert Accepted(rows, data) == Accepted(rows, data[..n]);
      } else {
        UpsertAppend(rows, Fresh(data[..n], existing), data[n]);
      }
    }
  }

  /** What was looked up is still there after others have inserted. */
  lemma StillBlocked(rows: seq<Row>, first: seq<Row>, existing: set<string>)
    requires forall n | n in existing :: KnownActive(rows, n)
    ensures forall n | n in existing :: Blocked(Upsert(rows, first), n)
  {
    UpsertGrows(rows, first);
    forall n | n in existing
      ensures Blocked(Upsert(rows, first), n)
    {
      var k :| 0 <= k < |rows| && rows[k].number == Some(n);
      assert Upsert(rows, first)[k] == rows[k];
    }
  }

  /** When nobody else inserts, this is the plain specification. */
  lemma {:induction false} AmongQuiet(rows: seq<Row>, data: seq<Row>, gaps: seq<seq<Row>>)
    requires |gaps| == |data| && forall i | 0 <= i < |gaps| :: gaps[i] == []
    ensures Among(rows, data, gaps) == Upsert(rows, data)
    ensures AcceptedAmong(rows, data, gaps) == Accepted(rows, data)
    decreases |data|
  {
    if |data| > 0 {
      AmongQuiet(rows, data[..|data| - 1], gaps[..|data| - 1]);
    }
  }

  lemma {:induction false} AmongGrows(rows: seq<Row>, data: seq<Row>, gaps: seq<seq<Row>>)
    requires |gaps| == |data|
    ensures rows <= Among(rows, data, gaps)
    decreases |data|
  {
    if |data| > 0 {
      var n := |data| - 1;
      AmongGrows(rows, data[..n], gaps[..n]);
      UpsertGrows(Among(rows, data[..n], gaps[..n]), gaps[n]);
    }
  }

  lemma BlockedIsRejected(rows: seq<Row>, more: seq<Row>, r: Row)
    requires rows <= more && r.number.Some? && Blocked(rows, r.number.value)
    ensures !Insertable(more, r)
  {
    var k :| 0 <= k < |rows| && rows[k].number == Some(r.number.value);
    assert more[k] == rows[k];
  }

  /** A last row that is rejected, with nobody inserting before it, leaves no trace. */
  lemma AmongSkips(rows: seq<Row>, data: seq<Row>, gaps: seq<seq<Row>>, n: nat)
    requires |gaps| == |data| == n + 1 && gaps[n] == []
    requires !Insertable(Among(rows, data[..n], gaps[..n]), data[n])
    ensures Among(rows, data, gaps) == Among(rows, data[..n], gaps[..n])
    ensures AcceptedAmong(rows, data, gaps) == AcceptedAmong(rows, data[..n], gaps[..n])
  {
  }

  /** The table, and our inserted rows, after one more row of ours. */
  function OneMore(before: seq<Row>, accepted: seq<Row>, r: Row, gap: seq<Row>): (seq<Row>, seq<Row>) {
    var met := Upsert(before, gap);
    (if Insertable(met, r) then met + [r] else met, accepted + if Insertable(met, r) then [r] else [])
  }

  lemma AmongOneMore(rows: seq<Row>, data: seq<Row>, gaps: seq<seq<Row>>, n: nat)
    requires |gaps| == |data| == n + 1
    ensures (Among(rows, data, gaps), AcceptedAmong(rows, data, gaps))
            == OneMore(Among(rows, data[..n], gaps[..n]), AcceptedAmong(rows, data[..n], gaps[..n]), data[n], gaps[n])
  {
  }

  lemma DroppedLast(data: seq<Row>, existing: set<string>, gaps: seq<seq<Row>>, n: nat)
    requires |gaps| == |data| == n + 1 && Filtered(existing, data[n])
    ensures Fresh(data, existing) == Fresh(data[..n], existing)
    ensures FreshGaps(data, existing, gaps) == FreshGaps(data[..n], existing, gaps[..n])
  {
  }

  lemma KeptLast(data: seq<Row>, existing: set<string>, gaps: seq<seq<Row>>, n: nat)
    requires |gaps| == |data| == n + 1 && !Filtered(existing, data[n])
    ensures var kept, before := Fresh(data, existing), FreshGaps(data, existing, gaps);
            && |kept| == |before| == |Fresh(data[..n], existing)| + 1
            && kept[..|kept| - 1] == Fresh(data[..n], existing) && kept[|kept| - 1] == data[n]
            && before[..|kept| - 1] == FreshGaps(data[..n], existing, gaps[..n]) && before[|kept| - 1] == gaps[n]
  {
  }

  /** The filter changes nothing either while others insert between our rows. */
  lemma {:induction false} FilterChangesNothingAmong(rows: seq<Row>, data: seq<Row>, existing: set<string>,
                                                     gaps: seq<seq<Row>>)
    requires |gaps| == |data| && forall n | n in existing :: Blocked(rows, n)
    ensures Among(rows, Fresh(data, existing), FreshGaps(data, existing, gaps))
            == Among(rows, data, Taken(data, existing, gaps))
    ensures AcceptedAmong(rows, Fresh(data, existing), FreshGaps(data, existing, gaps))
            == AcceptedAmong(rows, data, Taken(data, existing, gaps))
    decreases |data|
  {
    if |data| > 0 {
      var n := |data| - 1;
      var taken := Taken(data, existing, gaps);
      FilterChangesNothingAmong(rows, data[..n], existing, gaps[..n]);
      assert taken[..n] == Taken(data[..n], existing, gaps[..n]);
      if Filtered(existing, data[n]) {
        DroppedLast(data, existing, gaps, n);
        AmongGrows(rows, data[..n], taken[..n]);
        BlockedIsRejected(rows, Among(rows, data[..n], taken[..n]), data[n]);
        AmongSkips(rows, data, taken, n);
      } else {
        KeptLast(data, existing, gaps, n);
        AmongOneMore(rows, Fresh(data, existing), FreshGaps(data, existing, gaps), |Fresh(data, existing)| - 1);
        AmongOneMore(rows, data, taken, n);
      }
    }
  }

  lemma {:induction false} FreshKeeps(data: seq<Row>, existing: set<string>, i: nat)
    requires i < |data| && !Filtered(existing, data[i])
    ensures data[i] in Fresh(data, existing)
    decreases |data|
  {
    if i < |data| - 1 {
      FreshKeeps(data[..|data| - 1], existing, i);
    }
  }

  /** A number that only deleted rows have passes the filter and sends the whole batch to the fallback. */
  lemma DeletedForcesFallback(rows: seq<Row>, data: seq<Row>, existing: set<string>, k: nat, i: nat)
    requires forall n | n in existing :: KnownActive(rows, n)
    requires k < |rows| && i < |data| && rows[k].number.Some? && data[i].number == rows[k].number
    requires forall j | 0 <= j < |rows| && rows[j].number == rows[k].number :: rows[j].deleted
    ensures data[i] in Fresh(data, existing)
    ensures |Accepted(rows, Fresh(data, existing))| < |Fresh(data, existing)|
  {
    FreshKeeps(data, existing, i);
    var kept := Fresh(data, existing);
    var j :| 0 <= j < |kept| && kept[j] == data[i];
    UpsertGrows(rows, kept[..j]);
    BlockedIsRejected(rows, Upsert(rows, kept[..j]), kept[j]);
    RejectedOnce(rows, kept, j);
  }

  // ---- what an upsert means ----

  predicate UniqueKeys(rows: seq<Row>) {
    && (forall i | 0 <= i < |rows| :: rows[i].number.Some?)
    && forall i, j | 0 <= i < j < |rows| :: rows[i].number != rows[j].number && rows[i].internal != rows[j].internal
  }

  /** Numbers stay unique, whatever comes in. */
  lemma {:induction false} UpsertKeepsUnique(rows: seq<Row>, data: seq<Row>)
    requires UniqueKeys(rows)
    ensures UniqueKeys(Upsert(rows, data))
    decreases |data|
  {
    if |data| > 0 {
      UpsertKeepsUnique(rows, data[..|data| - 1]);
    }
  }

  /** Also when others insert in between. */
  lemma {:induction false} AmongKeepsUnique(rows: seq<Row>, data: seq<Row>, gaps: seq<seq<Row>>)
    requires |gaps| == |data| && UniqueKeys(rows)
    ensures UniqueKeys(Among(rows, data, gaps))
    decreases |data|
  {
    if |data| > 0 {
      var n := |data| - 1;
      AmongKeepsUnique(rows, data[..n], gaps[..n]);
      UpsertKeepsUnique(Among(rows, data[..n], gaps[..n]), gaps[n]);
    }
  }

  /** Upserting the same data again changes nothing and inserts nothing, for any data. */
  lemma UpsertIsIdempotent(rows: seq<Row>, data: seq<Row>)
    ensures Upsert(Upsert(rows, data), data) == Upsert(rows, data)
    ensures Accepted(Upsert(rows, data), data) == []
  {
    NothingNew(rows, data, data);
  }

  /** No prefix of the data finds anything left to insert. */
  lemma {:induction false} NothingNew(rows: seq<Row>, data: seq<Row>, part: seq<Row>)
    requires part <= data
    ensures Upsert(Upsert(rows, data), part) == Upsert(rows, data)
    ensures Accepted(Upsert(rows, data), part) == []
    decreases |part|
  {
    if |part| > 0 {
      var n := |part| - 1;
      NothingNew(rows, data, part[..n]);
      assert data[..n] == part[..n] && data[n] == part[n];
      SeenIsTaken(rows, data, n);
    }
  }

  lemma {:induction false} SeenIsTaken(rows: seq<Row>, data: seq<Row>, i: nat)
    requires i < |data|
    ensures !Insertable(Upsert(rows, data), data[i])
    decreases |data|
  {
    var n := |data| - 1;
    var before, after := Upsert(rows, data[..n]), Upsert(rows, data);
    if i < n {
      SeenIsTaken(rows, data[..n], i);
    }
    if data[i].number.Some? {
      if Insertable(before, data[i]) {
        assert after[|before|] == data[i];
      } else {
        var k :| 0 <= k < |before| && (before[k].number == data[i].number || before[k].internal == data[i].internal);
        assert after[k] == before[k];
      }
    }
  }

  /** Internal numbers that are new to the table and to each other. */
  predicate FreshInternals(rows: seq<Row>, data: seq<Row>) {
    && (forall i, k | 0 <= i < |data| && 0 <= k < |rows| :: data[i].internal != rows[k].internal)
    && forall i, j | 0 <= i < j < |data| :: data[i].internal != data[j].internal
  }

  predicate FirstOccurrence(data: seq<Row>, i: nat)
    requires i < |data|
  {
    forall j | 0 <= j < i :: data[j].number != data[i].number
  }

  /** With fresh internal numbers a row is inserted exactly when its order number is given, not in the
      table, deleted rows counting as present, and not given earlier in the same batch. */
  lemma InsertedExactlyWhenFirst(rows: seq<Row>, data: seq<Row>, i: nat)
    requires FreshInternals(rows, data) && i < |data|
    ensures Insertable(Upsert(rows, data[..i]), data[i])
            <==> data[i].number.Some? && !Blocked(rows, data[i].number.value) && FirstOccurrence(data, i)
  {
    var before := Upsert(rows, data[..i]);
    UpsertGrows(rows, data[..i]);
    AcceptedComeFrom(rows, data[..i]);
    if data[i].number.Some? && Blocked(rows, data[i].number.value) {
      var k :| 0 <= k < |rows| && rows[k].number == data[i].number;
      assert before[k].number == data[i].number;
    }
    if data[i].number.Some? && !FirstOccurrence(data, i) {
      var j :| 0 <= j < i && data[j].number == data[i].number;
      NumberIsTaken(rows, data[..i], j);
    }
  }

  lemma {:induction false} AcceptedComeFrom(rows: seq<Row>, data: seq<Row>)
    ensures forall k | 0 <= k < |Accepted(rows, data)| :: Accepted(rows, data)[k] in data
    decreases |data|
  {
    if |data| > 0 {
      AcceptedComeFrom(rows, data[..|data| - 1]);
    }
  }

  lemma {:induction false} NumberIsTaken(rows: seq<Row>, data: seq<Row>, j: nat)
    requires FreshInternals(rows, data) && j < |data| && data[j].number.Some?
    ensures Blocked(Upsert(rows, data), data[j].number.value)
    decreases |data|
  {
    var n := |data| - 1;
    var before, after := Upsert(rows, data[..n]), Upsert(rows, data);
    if j < n {
      NumberIsTaken(rows, data[..n], j);
      var k :| 0 <= k < |before| && before[k].number == data[j].number;
      assert after[k] == before[k];
    } else if Insertable(before, data[n]) {
      assert after[|before|] == data[n];
    } else {
      UpsertGrows(rows, data[..n]);
      AcceptedComeFrom(rows, data[..n]);
      var k :| 0 <= k < |before| && (before[k].number == data[n].number || before[k].internal == data[n].internal);
      assert after[k] == before[k];
    }
  }

  // ---- when the batch goes through ----

  predicate NumbersGiven(data: seq<Row>) {
    && (forall i | 0 <= i < |data| :: data[i].number.Some? && data[i].number != Some(""))
    && forall i, j | 0 <= i < j < |data| :: data[i].number != data[j].number
  }

  /** A row of the table has the number, and every one that has it is deleted. */
  predicate OnlyDeleted(rows: seq<Row>, number: string) {
    && (exists k | 0 <= k < |rows| :: rows[k].number == Some(number))
    && forall k | 0 <= k < |rows| && rows[k].number == Some(number) :: rows[k].deleted
  }

  lemma FrontIsFresh(rows: seq<Row>, data: seq<Row>)
    requires |data| > 0 && FreshInternals(rows, data) && NumbersGiven(data)
    ensures FreshInternals(rows, data[..|data| - 1]) && NumbersGiven(data[..|data| - 1])
    ensures FirstOccurrence(data, |data| - 1) && data == data[..|data| - 1] + [data[|data| - 1]]
  {
  }

  lemma {:induction false} FreshComeFrom(data: seq<Row>, existing: set<string>, r: Row)
    requires r in Fresh(data, existing)
    ensures r in data && !Filtered(existing, r)
    decreases |data|
  {
    if |data| > 0 && r in Fresh(data[..|data| - 1], existing) {
      FreshComeFrom(data[..|data| - 1], existing, r);
    }
  }

  /** Appending a row that differs from all of them keeps rows fresh and different. */
  lemma OneMoreFresh(rows: seq<Row>, data: seq<Row>, r: Row)
    requires FreshInternals(rows, data) && NumbersGiven(data) && r.number.Some? && r.number != Some("")
    requires forall k | 0 <= k < |rows| :: rows[k].internal != r.internal
    requires forall i | 0 <= i < |data| :: data[i].number != r.number && data[i].internal != r.internal
    ensures FreshInternals(rows, data + [r]) && NumbersGiven(data + [r])
  {
  }

  lemma DiffersFromLast(rows: seq<Row>, data: seq<Row>, r: Row)
    requires |data| > 0 && FreshInternals(rows, data) && NumbersGiven(data) && r in data[..|data| - 1]
    ensures r.number != data[|data| - 1].number && r.internal != data[|data| - 1].internal
  {
    var i :| 0 <= i < |data| - 1 && data[i] == r;
  }

  /** The rows that are kept are as fresh and as different. */
  lemma {:induction false} FreshIsFresh(rows: seq<Row>, data: seq<Row>, existing: set<string>)
    requires FreshInternals(rows, data) && NumbersGiven(data)
    ensures FreshInternals(rows, Fresh(data, existing)) && NumbersGiven(Fresh(data, existing))
    decreases |data|
  {
    if |data| > 0 {
      var n := |data| - 1;
      var kept := Fresh(data[..n], existing);
      FrontIsFresh(rows, data);
      FreshIsFresh(rows, data[..n], existing);
      if Filtered(existing, data[n]) {
        assert Fresh(data, existing) == kept;
      } else {
        forall j | 0 <= j < |kept|
          ensures kept[j].number != data[n].number && kept[j].internal != data[n].internal
        {
          FreshComeFrom(data[..n], existing, kept[j]);
          DiffersFromLast(rows, data, kept[j]);
        }
        OneMoreFresh(rows, kept, data[n]);
        assert Fresh(data, existing) == kept + [data[n]];
      }
    }
  }

  lemma {:induction false} AllAccepted(rows: seq<Row>, data: seq<Row>)
    requires FreshInternals(rows, data) && NumbersGiven(data)
    requires forall i | 0 <= i < |data| :: !Blocked(rows, data[i].number.value)
    ensures Accepted(rows, data) == data
    decreases |data|
  {
    if |data| > 0 {
      var n := |data| - 1;
      FrontIsFresh(rows, data);
      AllAccepted(rows, data[..n]);
      InsertedExactlyWhenFirst(rows, data, n);
    }
  }

  /** With fresh internal numbers and different order numbers, all of them looked up, the batch goes through
      if and only if none of the order numbers belongs to deleted rows alone. */
  lemma BatchGoesThroughExactly(rows: seq<Row>, data: seq<Row>, existing: set<string>)
    requires FreshInternals(rows, data) && NumbersGiven(data)
    requires forall n :: n in existing <==>
               (exists i | 0 <= i < |data| :: data[i].number == Some(n)) && KnownActive(rows, n)
    ensures Accepted(rows, Fresh(data, existing)) == Fresh(data, existing)
            <==> forall i | 0 <= i < |data| :: !OnlyDeleted(rows, data[i].number.value)
  {
    var kept := Fresh(data, existing);
    if i :| 0 <= i < |data| && OnlyDeleted(rows, data[i].number.value) {
      var k :| 0 <= k < |rows| && rows[k].number == data[i].number;
      DeletedForcesFallback(rows, data, existing, k, i);
    } else {
      FreshIsFresh(rows, data, existing);
      forall j | 0 <= j < |kept|
        ensures !Blocked(rows, kept[j].number.value)
      {
        FreshComeFrom(data, existing, kept[j]);
        var i :| 0 <= i < |data| && data[i] == kept[j];
        NotKnownNotBlocked(rows, kept[j].number.value);
      }
      AllAccepted(rows, kept);
    }
  }

  lemma NotKnownNotBlocked(rows: seq<Row>, number: string)
    requires !KnownActive(rows, number) && !OnlyDeleted(rows, number)
    ensures !Blocked(rows, number)
  {
  }
}
