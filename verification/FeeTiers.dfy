/** Withdrawal fees: tier rows are parsed, sorted by lower bound and searched for the first that holds
    the amount; without one the single rate applies. Amounts are yuan, fees rounded half-even to cents. */
module FeeTiers {
  import opened Wrappers

  datatype FeeTier = FeeTier(minAmount: real, maxAmount: Option<real>, rate: real, minFee: real)

  /** A field of a stored row: missing, null, not a decimal, or a decimal. */
  datatype Field = Absent | Null | Bad | Val(v: real)

  datatype RawTier = RawTier(minAmount: Field, maxAmount: Field, rate: Field, minFee: Field)

  datatype FeeResult = FeeResult(fee: real, tier: Option<FeeTier>)

  datatype FeeConfig = FeeConfig(rate: real, minFee: real)

  // ---- rounding ----

  function HalfEven(x: real): int {
    var f := x.Floor;
    var d := x - f as real;
    if d < 0.5 then f else if d > 0.5 then f + 1 else if f % 2 == 0 then f else f + 1
  }

  /** quantize(Decimal("0.01")) */
  function Quantize(x: real): real {
    HalfEven(x * 100.0) as real / 100.0
  }

  predicate WholeCents(x: real) {
    (x * 100.0).Floor as real == x * 100.0
  }

  function Fee(amount: real, rate: real, minFee: real): real {
    var fee := Quantize(amount * rate);
    if fee < minFee then minFee else fee
  }

  // ---- parsing ----

  /** One row, or nothing when a needed field is missing or malformed. */
  function ParseTier(r: RawTier): Option<FeeTier> {
    if !r.minAmount.Val? || !r.rate.Val? || r.minFee.Null? || r.minFee.Bad? || r.maxAmount.Bad? then None
    else Some(FeeTier(r.minAmount.v, if r.maxAmount.Val? then Some(r.maxAmount.v) else None,
                      r.rate.v, if r.minFee.Val? then r.minFee.v else 0.0))
  }

  function ParsedOne(r: RawTier): seq<FeeTier> {
    match ParseTier(r) case None => [] case Some(t) => [t]
  }

  function Parsed(data: seq<RawTier>): seq<FeeTier> {
    if |data| == 0 then []
    else
      Parsed(data[..|data| - 1]) + ParsedOne(data[|data| - 1])
  }

  /** Insertion after the tiers that are not larger: this keeps the sort stable. */
  function Insert(tiers: seq<FeeTier>, t: FeeTier): seq<FeeTier> {
    if |tiers| == 0 || tiers[|tiers| - 1].minAmount <= t.minAmount then tiers + [t]
    else Insert(tiers[..|tiers| - 1], t) + [tiers[|tiers| - 1]]
  }

  function SortTiers(tiers: seq<FeeTier>): seq<FeeTier> {
    if |tiers| == 0 then [] else Insert(SortTiers(tiers[..|tiers| - 1]), tiers[|tiers| - 1])
  }

  predicate Sorted(tiers: seq<FeeTier>) {
    forall i, j | 0 <= i < j < |tiers| :: tiers[i].minAmount <= tiers[j].minAmount
  }

  lemma MultisetAppend<T>(s: seq<T>, x: T)
    ensures multiset(s + [x]) == multiset(s) + multiset{x}
  {
  }

  lemma {:induction false} InsertKeeps(tiers: seq<FeeTier>, t: FeeTier)
    ensures multiset(Insert(tiers, t)) == multiset(tiers) + multiset{t}
    decreases |tiers|
  {
    if |tiers| == 0 || tiers[|tiers| - 1].minAmount <= t.minAmount {
      MultisetAppend(tiers, t);
    } else {
      var front, last := tiers[..|tiers| - 1], tiers[|tiers| - 1];
      InsertKeeps(front, t);
      MultisetAppend(Insert(front, t), last);
      AppendLast(tiers);
    }
  }

  lemma {:induction false} InsertSorted(tiers: seq<FeeTier>, t: FeeTier)
    requires Sorted(tiers)
    ensures Sorted(Insert(tiers, t)) && |Insert(tiers, t)| == |tiers| + 1
    ensures var end := Insert(tiers, t)[|tiers|];
            end == t || (|tiers| > 0 && end == tiers[|tiers| - 1])
    decreases |tiers|
  {
    if |tiers| > 0 && t.minAmount < tiers[|tiers| - 1].minAmount {
      InsertSorted(tiers[..|tiers| - 1], t);
    }
  }

  /** Sorting permutes the tiers and orders them by lower bound. */
  lemma {:induction false} SortTiersSorts(tiers: seq<FeeTier>)
    ensures multiset(SortTiers(tiers)) == multiset(tiers)
    ensures Sorted(SortTiers(tiers))
    decreases |tiers|
  {
    if |tiers| > 0 {
      var front, last := tiers[..|tiers| - 1], tiers[|tiers| - 1];
      SortTiersSorts(front);
      InsertSorted(SortTiers(front), last);
      InsertKeeps(SortTiers(front), last);
      AppendLast(tiers);
    }
  }

  lemma AppendLast<T>(s: seq<T>)
    requires |s| > 0
    ensures multiset(s) == multiset(s[..|s| - 1]) + multiset{s[|s| - 1]}
  {
    assert s == s[..|s| - 1] + [s[|s| - 1]];
  }

  /** The tiers with lower bound `b`, in their order. */
  function AtBound(tiers: seq<FeeTier>, b: real): seq<FeeTier> {
    if |tiers| == 0 then []
    else
      AtBound(tiers[..|tiers| - 1], b)
      + if tiers[|tiers| - 1].minAmount == b then [tiers[|tiers| - 1]] else []
  }

  lemma AtBoundAppend(tiers: seq<FeeTier>, t: FeeTier, b: real)
    ensures AtBound(tiers + [t], b) == AtBound(tiers, b) + if t.minAmount == b then [t] else []
  {
    assert (tiers + [t])[..|tiers|] == tiers;
  }

  lemma {:induction false} InsertStable(tiers: seq<FeeTier>, t: FeeTier, b: real)
    ensures AtBound(Insert(tiers, t), b) == AtBound(tiers + [t], b)
    decreases |tiers|
  {
    AtBoundAppend(tiers, t, b);
    if |tiers| > 0 && t.minAmount < tiers[|tiers| - 1].minAmount {
      var front, last := tiers[..|tiers| - 1], tiers[|tiers| - 1];
      InsertStable(front, t, b);
      AtBoundAppend(Insert(front, t), last, b);
      AtBoundAppend(front, t, b);
    }
  }

  /** The sort is stable: tiers with equal lower bounds keep their order. */
  lemma {:induction false} SortTiersStable(tiers: seq<FeeTier>, b: real)
    ensures AtBound(SortTiers(tiers), b) == AtBound(tiers, b)
    decreases |tiers|
  {
    if |tiers| > 0 {
      var front, last := tiers[..|tiers| - 1], tiers[|tiers| - 1];
      SortTiersStable(front, b);
      InsertStable(SortTiers(front), last, b);
      AtBoundAppend(SortTiers(front), last, b);
    }
  }

  /** _parse_tiers */
  method ParseTiers(data: seq<RawTier>) returns (tiers: seq<FeeTier>)
    ensures tiers == SortTiers(Parsed(data))
  {
    tiers := [];
    for i := 0 to |data|
      invariant tiers == Parsed(data[..i])
    {
      assert data[..i + 1][..i] == data[..i];
      var t := ParseTier(data[i]);
      if t.Some? {
        tiers := tiers + [t.value];
      }
    }
    assert data[..|data|] == data;
    tiers := SortTiers(tiers);
  }

  // ---- calculation ----

  predicate Holds(t: FeeTier, amount: real) {
    amount >= t.minAmount && (t.maxAmount == None || amount < t.maxAmount.value)
  }

  predicate FirstHolding(tiers: seq<FeeTier>, amount: real, k: nat) {
    k < |tiers| && Holds(tiers[k], amount) && forall i | 0 <= i < k :: !Holds(tiers[i], amount)
  }

  /** Charged by the first tier that holds the amount; nothing when none does. */
  predicate Charges(amount: real, tiers: seq<FeeTier>, r: Option<FeeResult>) {
    match r
    case None => forall i | 0 <= i < |tiers| :: !Holds(tiers[i], amount)
    case Some(res) =>
      exists k: nat | k < |tiers| ::
        FirstHolding(tiers, amount, k)
        && res == FeeResult(Fee(amount, tiers[k].rate, tiers[k].minFee), Some(tiers[k]))
  }

  /** The fee expression of both calculations. */
  method TierFee(amount: real, rate: real, minFee: real) returns (fee: real)
    ensures fee == Fee(amount, rate, minFee)
  {
    fee := Quantize(amount * rate);
    if fee < minFee {
      fee := minFee;
    }
  }

  /** _calc_by_tiers */
  method CalcByTiers(amount: real, tiers: seq<FeeTier>) returns (r: Option<FeeResult>)
    ensures Charges(amount, tiers, r)
  {
    for i := 0 to |tiers|
      invariant forall j | 0 <= j < i :: !Holds(tiers[j], amount)
    {
      var tier := tiers[i];
      if amount >= tier.minAmount && (tier.maxAmount == None || amount < tier.maxAmount.value) {
        var fee := TierFee(amount, tier.rate, tier.minFee);
        assert FirstHolding(tiers, amount, i);
        return Some(FeeResult(fee, Some(tier)));
      }
    }
    return None;
  }

  /** _calc_single */
  function CalcSingle(amount: real, cfg: FeeConfig): real {
    Fee(amount, cfg.rate, cfg.minFee)
  }

  /** calculate: tiers first, then the single rate. `stored` is empty when nothing usable is stored. */
  method Calculate(amount: real, stored: seq<RawTier>, cfg: FeeConfig) returns (r: FeeResult)
    ensures var tiers := SortTiers(Parsed(stored));
            if r.tier.Some? then Charges(amount, tiers, Some(r))
            else Charges(amount, tiers, None) && r.fee == CalcSingle(amount, cfg)
  {
    var tiers := ParseTiers(stored);
    if |tiers| > 0 {
      var hit := CalcByTiers(amount, tiers);
      if hit.Some? {
        return hit.value;
      }
    }
    return FeeResult(CalcSingle(amount, cfg), None);
  }

  // ---- what a stored row says ----

  /** The row that a tier is stored as: an open top is null. */
  function Written(t: FeeTier): RawTier {
    RawTier(minAmount := Val(t.minAmount), maxAmount := if t.maxAmount.Some? then Val(t.maxAmount.value) else Null,
            rate := Val(t.rate), minFee := Val(t.minFee))
  }

  /** A field that has to be there, and one that may be missing. */
  predicate Usable(r: RawTier) {
    r.minAmount.Val? && r.rate.Val? && r.minFee !in {Null, Bad} && r.maxAmount != Bad
  }

  /** Reading undoes writing; a missing top is an open one and a missing minimum fee is zero; and exactly the
      rows with a field missing that is needed, or malformed, are skipped. */
  lemma WrittenIsRead(t: FeeTier, r: RawTier)
    ensures ParseTier(Written(t)) == Some(t)
    ensures t.maxAmount == None ==> ParseTier(Written(t).(maxAmount := Absent)) == Some(t)
    ensures ParseTier(Written(t).(minFee := Absent)) == Some(t.(minFee := 0.0))
    ensures ParseTier(r) == None <==> !Usable(r)
  {
  }

  function WrittenAll(tiers: seq<FeeTier>): seq<RawTier> {
    seq(|tiers|, i requires 0 <= i < |tiers| => Written(tiers[i]))
  }

  lemma {:induction false} WrittenAllIsRead(tiers: seq<FeeTier>)
    ensures Parsed(WrittenAll(tiers)) == tiers
    decreases |tiers|
  {
    if |tiers| > 0 {
      var n := |tiers| - 1;
      WrittenAllIsRead(tiers[..n]);
      WrittenIsRead(tiers[n], Written(tiers[n]));
      assert WrittenAll(tiers)[..n] == WrittenAll(tiers[..n]);
    }
  }

  /** Rows that cannot be used leave no trace. */
  lemma {:induction false} UnusableSkipped(data: seq<RawTier>)
    requires forall i | 0 <= i < |data| :: !Usable(data[i])
    ensures Parsed(data) == []
    decreases |data|
  {
    if |data| > 0 {
      UnusableSkipped(data[..|data| - 1]);
    }
  }

  // ---- the stored order does not matter ----

  predicate DistinctBounds(tiers: multiset<FeeTier>) {
    && (forall t | t in tiers :: tiers[t] == 1)
    && (forall s, t | s in tiers && t in tiers && s.minAmount == t.minAmount :: s == t)
  }

  function Without<T>(s: seq<T>, i: nat): seq<T>
    requires i < |s|
  {
    s[..i] + s[i + 1..]
  }

  lemma DropAt<T>(s: seq<T>, i: nat)
    requires i < |s|
    ensures multiset(Without(s, i)) == multiset(s) - multiset{s[i]}
    ensures s[i] in multiset(s)
  {
    assert s == s[..i] + [s[i]] + s[i + 1..];
  }

  lemma DropLast<T>(s: seq<T>)
    requires |s| > 0
    ensures multiset(s[..|s| - 1]) == multiset(s) - multiset{s[|s| - 1]}
    ensures s[|s| - 1] in multiset(s)
  {
    DropAt(s, |s| - 1);
    SplitLast(s);
  }

  lemma SameLast(a: seq<FeeTier>, b: seq<FeeTier>)
    requires Sorted(a) && Sorted(b) && multiset(a) == multiset(b) && DistinctBounds(multiset(a))
    requires |a| > 0 && |b| > 0
    ensures a[|a| - 1] == b[|b| - 1]
  {
    DropLast(a);
    DropLast(b);
    LastIsLargest(a, b[|b| - 1]);
    LastIsLargest(b, a[|a| - 1]);
  }

  lemma DistinctWithout(tiers: multiset<FeeTier>, t: FeeTier)
    requires DistinctBounds(tiers)
    ensures DistinctBounds(tiers - multiset{t})
  {
  }

  /** Removing an equal element from both keeps two sequences permutations of each other. */
  lemma BothWithout<T>(a: seq<T>, i: nat, b: seq<T>, j: nat)
    requires multiset(a) == multiset(b) && i < |a| && j < |b| && a[i] == b[j]
    ensures multiset(Without(a, i)) == multiset(Without(b, j)) == multiset(a) - multiset{a[i]}
  {
    DropAt(a, i);
    DropAt(b, j);
  }

  lemma SplitLast<T>(s: seq<T>)
    requires |s| > 0
    ensures Without(s, |s| - 1) == s[..|s| - 1]
    ensures s == s[..|s| - 1] + [s[|s| - 1]]
  {
  }

  lemma {:induction false} SortedUnique(a: seq<FeeTier>, b: seq<FeeTier>)
    requires Sorted(a) && Sorted(b) && multiset(a) == multiset(b) && DistinctBounds(multiset(a))
    ensures a == b
    decreases |a|
  {
    SameSize(a, b);
    if |a| > 0 {
      var n := |a| - 1;
      SameLast(a, b);
      SplitLast(a);
      SplitLast(b);
      BothWithout(a, n, b, n);
      DistinctWithout(multiset(a), a[n]);
      SortedUnique(a[..n], b[..n]);
    }
  }

  lemma SameSize<T>(a: seq<T>, b: seq<T>)
    requires multiset(a) == multiset(b)
    ensures |a| == |b|
  {
    assert |a| == |multiset(a)| && |b| == |multiset(b)|;
  }

  lemma LastIsLargest(a: seq<FeeTier>, t: FeeTier)
    requires Sorted(a) && |a| > 0
    ensures t in multiset(a) ==> t.minAmount <= a[|a| - 1].minAmount
  {
    if t in multiset(a) {
      assert t in a;
    }
  }

  lemma {:induction false} ParsedConcat(a: seq<RawTier>, b: seq<RawTier>)
    ensures Parsed(a + b) == Parsed(a) + Parsed(b)
    decreases |b|
  {
    if |b| == 0 {
      assert a + b == a;
    } else {
      assert (a + b)[..|a + b| - 1] == a + b[..|b| - 1];
      ParsedConcat(a, b[..|b| - 1]);
    }
  }

  lemma SplitAt<T>(s: seq<T>, i: nat)
    requires i < |s|
    ensures s == s[..i] + ([s[i]] + s[i + 1..])
  {
  }

  lemma ParsedAlone(r: RawTier)
    ensures Parsed([r]) == ParsedOne(r)
  {
    assert [r][..0] == [];
  }

  lemma ParsedSplit(before: seq<RawTier>, r: RawTier, after: seq<RawTier>)
    ensures Parsed(before + ([r] + after)) == Parsed(before) + (ParsedOne(r) + Parsed(after))
  {
    ParsedConcat(before, [r] + after);
    ParsedConcat([r], after);
    ParsedAlone(r);
  }

  lemma ParsedDropAt(data: seq<RawTier>, i: nat)
    requires i < |data|
    ensures multiset(Parsed(data)) == multiset(Parsed(Without(data, i))) + multiset(ParsedOne(data[i]))
  {
    SplitAt(data, i);
    ParsedSplit(data[..i], data[i], data[i + 1..]);
    ParsedConcat(data[..i], data[i + 1..]);
    TakeMiddle(Parsed(data[..i]), ParsedOne(data[i]), Parsed(data[i + 1..]));
  }

  lemma TakeMiddle<T>(a: seq<T>, b: seq<T>, c: seq<T>)
    ensures multiset(a + (b + c)) == multiset(a + c) + multiset(b)
  {
    assert multiset(b + c) == multiset(b) + multiset(c);
  }

  lemma Find<T>(s: seq<T>, x: T) returns (i: nat)
    requires x in multiset(s)
    ensures i < |s| && s[i] == x
  {
    assert x in s;
    i :| 0 <= i < |s| && s[i] == x;
  }

  lemma {:induction false} ParsedPermuted(a: seq<RawTier>, b: seq<RawTier>)
    requires multiset(a) == multiset(b)
    ensures multiset(Parsed(a)) == multiset(Parsed(b))
    decreases |a|
  {
    SameSize(a, b);
    if |a| > 0 {
      DropAt(a, 0);
      var i := Find(b, a[0]);
      BothWithout(a, 0, b, i);
      ParsedPermuted(Without(a, 0), Without(b, i));
      ParsedDropAt(a, 0);
      ParsedDropAt(b, i);
    }
  }

  /** Rows with distinct lower bounds give the same tiers in whatever order they are stored. */
  lemma StoredOrderIrrelevant(a: seq<RawTier>, b: seq<RawTier>)
    requires multiset(a) == multiset(b) && DistinctBounds(multiset(Parsed(a)))
    ensures SortTiers(Parsed(a)) == SortTiers(Parsed(b))
  {
    ParsedPermuted(a, b);
    SortTiersSorts(Parsed(a));
    SortTiersSorts(Parsed(b));
    SortedUnique(SortTiers(Parsed(a)), SortTiers(Parsed(b)));
  }

  // ---- which tier charges when several hold the amount ----

  /** The first tier of a list that holds the amount. */
  function FirstOf(tiers: seq<FeeTier>, amount: real): Option<FeeTier> {
    if |tiers| == 0 then None
    else
      var n := |tiers| - 1;
      var before := FirstOf(tiers[..n], amount);
      if before.Some? then before
      else if Holds(tiers[n], amount) then Some(tiers[n]) else None
  }

  lemma {:induction false} FirstOfMeaning(tiers: seq<FeeTier>, amount: real)
    ensures match FirstOf(tiers, amount)
            case None => forall i | 0 <= i < |tiers| :: !Holds(tiers[i], amount)
            case Some(t) => Holds(t, amount)
                            && exists k: nat | k < |tiers| :: FirstHolding(tiers, amount, k) && tiers[k] == t
    decreases |tiers|
  {
    if |tiers| > 0 {
      var n := |tiers| - 1;
      FirstOfMeaning(tiers[..n], amount);
      if FirstOf(tiers[..n], amount).Some? {
        var k: nat :| k < n && FirstHolding(tiers[..n], amount, k) && tiers[..n][k] == FirstOf(tiers, amount).value;
        assert FirstHolding(tiers, amount, k);
      } else if Holds(tiers[n], amount) {
        assert FirstHolding(tiers, amount, n);
      }
    }
  }

  /** The first one is the first of those with its own lower bound. */
  lemma {:induction false} FirstAtBound(tiers: seq<FeeTier>, amount: real, b: real)
    ensures FirstOf(tiers, amount) == None ==> FirstOf(AtBound(tiers, b), amount) == None
    ensures FirstOf(tiers, amount).Some? && FirstOf(tiers, amount).value.minAmount == b ==>
              FirstOf(AtBound(tiers, b), amount) == FirstOf(tiers, amount)
    decreases |tiers|
  {
    if |tiers| > 0 {
      var n := |tiers| - 1;
      FirstAtBound(tiers[..n], amount, b);
      var front := AtBound(tiers[..n], b);
      if tiers[n].minAmount == b {
        assert AtBound(tiers, b) == front + [tiers[n]] && (front + [tiers[n]])[..|front|] == front;
      } else {
        assert AtBound(tiers, b) == front;
      }
    }
  }

  lemma ChargedByFirst(tiers: seq<FeeTier>, amount: real, r: FeeResult)
    requires Charges(amount, tiers, Some(r))
    ensures r.tier == FirstOf(tiers, amount) && r.tier.Some?
    ensures r.fee == Fee(amount, r.tier.value.rate, r.tier.value.minFee)
  {
    var k: nat :| k < |tiers| && FirstHolding(tiers, amount, k)
                  && r == FeeResult(Fee(amount, tiers[k].rate, tiers[k].minFee), Some(tiers[k]));
    FirstOfMeaning(tiers, amount);
  }

  /** In sorted tiers the first has the least lower bound of those that hold the amount. */
  lemma FirstIsLowest(tiers: seq<FeeTier>, amount: real, other: FeeTier)
    requires Sorted(tiers) && other in tiers && Holds(other, amount)
    ensures FirstOf(tiers, amount).Some? && FirstOf(tiers, amount).value.minAmount <= other.minAmount
  {
    FirstOfMeaning(tiers, amount);
    var j :| 0 <= j < |tiers| && tiers[j] == other;
    assert Holds(tiers[j], amount);
  }

  /** Whatever tiers are stored, an amount that some of them hold is charged by one with the least lower bound,
      and among those by the one stored first; with its own rate and minimum. */
  lemma LowestTierCharges(stored: seq<RawTier>, amount: real, r: FeeResult, other: FeeTier)
    requires Charges(amount, SortTiers(Parsed(stored)), Some(r))
    ensures r.tier.Some? && r.tier.value in Parsed(stored) && Holds(r.tier.value, amount)
    ensures r.fee == Fee(amount, r.tier.value.rate, r.tier.value.minFee)
    ensures other in Parsed(stored) && Holds(other, amount) ==> r.tier.value.minAmount <= other.minAmount
    ensures FirstOf(AtBound(Parsed(stored), r.tier.value.minAmount), amount) == r.tier
  {
    var sorted := SortTiers(Parsed(stored));
    SortTiersSorts(Parsed(stored));
    SameMembers(sorted, Parsed(stored));
    ChargedByFirst(sorted, amount, r);
    FirstOfMeaning(sorted, amount);
    FirstAtBound(sorted, amount, r.tier.value.minAmount);
    SortTiersStable(Parsed(stored), r.tier.value.minAmount);
    if other in sorted && Holds(other, amount) {
      FirstIsLowest(sorted, amount, other);
    }
  }

  lemma SameMembers<T>(a: seq<T>, b: seq<T>)
    requires multiset(a) == multiset(b)
    ensures forall x :: x in a <==> x in b
  {
    assert forall x :: x in a <==> x in multiset(a);
    assert forall x :: x in b <==> x in multiset(b);
  }

  // ---- contiguous tiers charge everything once ----

  predicate Contiguous(tiers: seq<FeeTier>) {
    && |tiers| > 0
    && tiers[0].minAmount == 0.0
    && tiers[|tiers| - 1].maxAmount == None
    && (forall i | 0 <= i < |tiers| - 1 ::
          tiers[i].maxAmount == Some(tiers[i + 1].minAmount) && tiers[i].minAmount < tiers[i + 1].minAmount)
  }

  lemma {:induction false} BoundsIncrease(tiers: seq<FeeTier>, i: nat, j: nat)
    requires Contiguous(tiers) && i < j < |tiers|
    ensures tiers[i].minAmount < tiers[j].minAmount
    ensures tiers[i].maxAmount.Some? && tiers[i].maxAmount.value <= tiers[j].minAmount
    decreases j
  {
    if i < j - 1 {
      BoundsIncrease(tiers, i, j - 1);
    }
  }

  lemma {:induction false} SomeTierHolds(tiers: seq<FeeTier>, amount: real, n: nat) returns (k: nat)
    requires Contiguous(tiers) && amount >= 0.0 && n < |tiers|
    requires tiers[n].maxAmount == None || amount < tiers[n].maxAmount.value
    ensures k < |tiers| && Holds(tiers[k], amount)
    decreases n
  {
    if amount >= tiers[n].minAmount {
      k := n;
    } else {
      k := SomeTierHolds(tiers, amount, n - 1);
    }
  }

  /** Every amount from zero up is held by exactly one of them, so the single rate is never used. */
  lemma ContiguousChargeOnce(tiers: seq<FeeTier>, amount: real) returns (k: nat)
    requires Contiguous(tiers) && amount >= 0.0
    ensures FirstHolding(tiers, amount, k)
    ensures forall i | 0 <= i < |tiers| :: Holds(tiers[i], amount) <==> i == k
  {
    k := SomeTierHolds(tiers, amount, |tiers| - 1);
    forall i | 0 <= i < |tiers| && i != k
      ensures !Holds(tiers[i], amount)
    {
      if i < k { BoundsIncrease(tiers, i, k); } else { BoundsIncrease(tiers, k, i); }
    }
  }

  lemma {:induction false} IncreasingDistinct(tiers: seq<FeeTier>)
    requires forall i, j | 0 <= i < j < |tiers| :: tiers[i].minAmount < tiers[j].minAmount
    ensures DistinctBounds(multiset(tiers))
    decreases |tiers|
  {
    if |tiers| > 0 {
      var front, last := tiers[..|tiers| - 1], tiers[|tiers| - 1];
      IncreasingDistinct(front);
      AppendLast(tiers);
      forall t: FeeTier | t in multiset(front)
        ensures t.minAmount < last.minAmount
      {
        var i := Find(front, t);
        assert tiers[i] == t;
      }
    }
  }

  /** The rows of some tiers in any order, among any number of rows that cannot be used. */
  ghost predicate StoredAs(stored: seq<RawTier>, tiers: seq<FeeTier>, unusable: seq<RawTier>) {
    && multiset(stored) == multiset(WrittenAll(tiers)) + multiset(unusable)
    && forall i | 0 <= i < |unusable| :: !Usable(unusable[i])
  }

  lemma StoredIsRead(stored: seq<RawTier>, tiers: seq<FeeTier>, unusable: seq<RawTier>)
    requires StoredAs(stored, tiers, unusable)
    ensures multiset(Parsed(stored)) == multiset(tiers)
  {
    var together := WrittenAll(tiers) + unusable;
    assert multiset(stored) == multiset(together);
    ParsedPermuted(stored, together);
    ParsedConcat(WrittenAll(tiers), unusable);
    WrittenAllIsRead(tiers);
    UnusableSkipped(unusable);
  }

  /** Contiguous tiers whose rows are stored in any order, unusable rows in between, are read back as they
      are, and charge every amount from zero up by exactly one tier: the single rate is never used. */
  lemma ContiguousInAnyOrder(stored: seq<RawTier>, tiers: seq<FeeTier>, unusable: seq<RawTier>, amount: real)
    returns (k: nat)
    requires Contiguous(tiers) && StoredAs(stored, tiers, unusable) && amount >= 0.0
    ensures SortTiers(Parsed(stored)) == tiers
    ensures FirstHolding(tiers, amount, k)
    ensures forall r :: Charges(amount, SortTiers(Parsed(stored)), r) ==>
              r == Some(FeeResult(Fee(amount, tiers[k].rate, tiers[k].minFee), Some(tiers[k])))
  {
    StoredIsRead(stored, tiers, unusable);
    forall i, j | 0 <= i < j < |tiers|
      ensures tiers[i].minAmount < tiers[j].minAmount
    {
      BoundsIncrease(tiers, i, j);
    }
    IncreasingDistinct(tiers);
    SortTiersSorts(Parsed(stored));
    SortedUnique(tiers, SortTiers(Parsed(stored)));
    k := ContiguousChargeOnce(tiers, amount);
  }

  // ---- the fee itself ----

  /** HalfEven is the nearest integer, and the even one of two equally near. */
  lemma HalfEvenNearest(x: real)
    ensures HalfEven(x) as real - 0.5 <= x <= HalfEven(x) as real + 0.5
    ensures x == HalfEven(x) as real - 0.5 || x == HalfEven(x) as real + 0.5 ==> HalfEven(x) % 2 == 0
  {
  }

  lemma HalfEvenMonotone(x: real, y: real)
    requires x <= y
    ensures HalfEven(x) <= HalfEven(y)
  {
    HalfEvenNearest(x);
    HalfEvenNearest(y);
  }

  /** Within a tier a larger amount is never charged less. */
  lemma FeeMonotone(a: real, b: real, rate: real, minFee: real)
    requires a <= b && rate >= 0.0
    ensures Fee(a, rate, minFee) <= Fee(b, rate, minFee)
  {
    assert a * rate <= b * rate;
    HalfEvenMonotone(a * rate * 100.0, b * rate * 100.0);
  }

  lemma CentsAreWhole(cents: int)
    ensures WholeCents(cents as real / 100.0)
  {
    assert cents as real / 100.0 * 100.0 == cents as real;
  }

  lemma QuantizeNear(x: real)
    ensures WholeCents(Quantize(x))
    ensures -0.005 <= Quantize(x) - x <= 0.005
  {
    HalfEvenNearest(x * 100.0);
    CentsAreWhole(HalfEven(x * 100.0));
  }

  /** The fee is the larger of the minimum and the exact product rounded to a whole cent: one of the two,
      at least both, and the rounding is off by half a cent at most. */
  lemma FeeMeaning(amount: real, rate: real, minFee: real)
    ensures var fee, rounded := Fee(amount, rate, minFee), Quantize(amount * rate);
            && (fee == minFee || fee == rounded)
            && fee >= minFee && fee >= rounded
            && WholeCents(rounded) && -0.005 <= rounded - amount * rate <= 0.005
            && fee >= amount * rate - 0.005
  {
    QuantizeNear(amount * rate);
  }

  /** Without a tier the same holds with the rate and the minimum of the configuration. */
  lemma SingleMeaning(amount: real, rate: real, minFee: real)
    ensures var fee := CalcSingle(amount, FeeConfig(rate := rate, minFee := minFee));
            && (fee == minFee || fee == Quantize(amount * rate))
            && fee >= minFee && fee >= Quantize(amount * rate)
  {
    FeeMeaning(amount, rate, minFee);
  }

  /** The fee never exceeds the amount, when that is in whole cents, covers the minimum fee, and the
      rate is a proportion. */
  lemma FeeAtMostAmount(amount: real, rate: real, minFee: real)
    requires WholeCents(amount) && 0.0 <= amount && 0.0 <= rate <= 1.0 && minFee <= amount
    ensures Fee(amount, rate, minFee) <= amount
  {
    assert amount * rate <= amount;
    HalfEvenMonotone(amount * rate * 100.0, amount * 100.0);
    assert HalfEven(amount * 100.0) as real == amount * 100.0;
  }

  // ---- when a larger amount is never charged less, across tiers ----

  function Yuan(cents: int): real {
    cents as real / 100.0
  }

  /** The fee of an amount in cents that tier `k` holds. */
  function TierFeeAt(tiers: seq<FeeTier>, k: nat, cents: int): real
    requires k < |tiers|
  {
    Fee(Yuan(cents), tiers[k].rate, tiers[k].minFee)
  }

  predicate HoldsCents(tiers: seq<FeeTier>, k: nat, cents: int) {
    k < |tiers| && Holds(tiers[k], Yuan(cents))
  }

  /** Contiguous tiers with bounds in whole cents and no negative rate. */
  predicate Regular(tiers: seq<FeeTier>) {
    && Contiguous(tiers)
    && forall k | 0 <= k < |tiers| :: WholeCents(tiers[k].minAmount) && tiers[k].rate >= 0.0
  }

  /** The lower bound of tier `k`, in cents. */
  function Bound(tiers: seq<FeeTier>, k: nat): int
    requires k < |tiers|
  {
    (tiers[k].minAmount * 100.0).Floor
  }

  ghost predicate Monotone(tiers: seq<FeeTier>) {
    forall i: nat, j: nat, a: int, b: int | HoldsCents(tiers, i, a) && HoldsCents(tiers, j, b) && 0 <= a <= b ::
      TierFeeAt(tiers, i, a) <= TierFeeAt(tiers, j, b)
  }

  /** At the boundary below tier `k`, the last cent of the tier before is not charged more. */
  predicate NoDropAt(tiers: seq<FeeTier>, k: nat)
    requires 0 < k < |tiers|
  {
    TierFeeAt(tiers, k - 1, Bound(tiers, k) - 1) <= TierFeeAt(tiers, k, Bound(tiers, k))
  }

  predicate NoDrops(tiers: seq<FeeTier>) {
    forall k | 0 < k < |tiers| :: NoDropAt(tiers, k)
  }

  lemma BoundIsExact(tiers: seq<FeeTier>, k: nat)
    requires Regular(tiers) && k < |tiers|
    ensures Yuan(Bound(tiers, k)) == tiers[k].minAmount
  {
    assert WholeCents(tiers[k].minAmount);
  }

  lemma YuanOrder(a: int, b: int)
    ensures Yuan(a) < Yuan(b) <==> a < b
  {
  }

  /** In cents, tier `k` starts at its bound, and the tier before ends one cent earlier. */
  lemma BoundsInCents(tiers: seq<FeeTier>, k: nat)
    requires Regular(tiers) && k < |tiers|
    ensures HoldsCents(tiers, k, Bound(tiers, k))
    ensures k > 0 ==> HoldsCents(tiers, k - 1, Bound(tiers, k) - 1) && Bound(tiers, k) >= 1
  {
    BoundIsExact(tiers, k);
    if k < |tiers| - 1 {
      assert tiers[k].maxAmount == Some(tiers[k + 1].minAmount);
    }
    if k > 0 {
      var low, high := Bound(tiers, k - 1), Bound(tiers, k);
      assert tiers[k - 1].maxAmount == Some(tiers[k].minAmount) && tiers[k - 1].minAmount < tiers[k].minAmount;
      BoundIsExact(tiers, k - 1);
      YuanOrder(low, high);
      YuanOrder(high - 1, low);
      YuanOrder(high - 1, high);
      BoundsNotNegative(tiers, k - 1);
      YuanOrder(low, 0);
    }
  }

  lemma {:induction false} BoundsNotNegative(tiers: seq<FeeTier>, k: nat)
    requires Contiguous(tiers) && k < |tiers|
    ensures tiers[k].minAmount >= 0.0
  {
    if k > 0 {
      BoundsIncrease(tiers, 0, k);
    }
  }

  lemma SameTierMonotone(tiers: seq<FeeTier>, k: nat, a: int, b: int)
    requires Regular(tiers) && k < |tiers| && a <= b
    ensures TierFeeAt(tiers, k, a) <= TierFeeAt(tiers, k, b)
  {
    FeeMonotone(Yuan(a), Yuan(b), tiers[k].rate, tiers[k].minFee);
  }

  /** From one tier to a higher one, boundary by boundary. */
  lemma {:induction false} MonotoneUpTo(tiers: seq<FeeTier>, i: nat, j: nat, a: int, b: int)
    requires Regular(tiers) && NoDrops(tiers) && i <= j
    requires HoldsCents(tiers, i, a) && HoldsCents(tiers, j, b) && a <= b
    ensures TierFeeAt(tiers, i, a) <= TierFeeAt(tiers, j, b)
    decreases j
  {
    if i == j {
      SameTierMonotone(tiers, i, a, b);
    } else {
      var m := Bound(tiers, j);
      BoundsInCents(tiers, j);
      BoundIsExact(tiers, j);
      BoundsIncrease(tiers, i, j);
      YuanOrder(a, m);
      YuanOrder(b, m);
      MonotoneUpTo(tiers, i, j - 1, a, m - 1);
      assert NoDropAt(tiers, j);
      SameTierMonotone(tiers, j, m, b);
    }
  }

  /** Over amounts in whole cents, a larger amount is never charged less if and only if the fee does not
      drop at any boundary. */
  lemma MonotoneExactlyWithoutDrops(tiers: seq<FeeTier>)
    requires Regular(tiers)
    ensures Monotone(tiers) <==> NoDrops(tiers)
  {
    if NoDrops(tiers) {
      forall i: nat, j: nat, a: int, b: int | HoldsCents(tiers, i, a) && HoldsCents(tiers, j, b) && 0 <= a <= b
        ensures TierFeeAt(tiers, i, a) <= TierFeeAt(tiers, j, b)
      {
        if j < i { BoundsIncrease(tiers, j, i); }
        MonotoneUpTo(tiers, i, j, a, b);
      }
    }
    if Monotone(tiers) {
      forall k | 0 < k < |tiers|
        ensures NoDropAt(tiers, k)
      {
        BoundsInCents(tiers, k);
      }
    }
  }

  function DocumentedTiers(): seq<FeeTier> {
    [FeeTier(0.0, Some(1000.0), 0.001, 1.0), FeeTier(1000.0, Some(10000.0), 0.0008, 1.0),
     FeeTier(10000.0, None, 0.0005, 2.0)]
  }

  lemma DocumentedBounds()
    ensures Regular(DocumentedTiers())
    ensures Bound(DocumentedTiers(), 1) == 100000 && Bound(DocumentedTiers(), 2) == 1000000
  {
    var tiers := DocumentedTiers();
    assert (0.0).Floor == 0 && (100000.0).Floor == 100000 && (1000000.0).Floor == 1000000;
    assert WholeCents(tiers[0].minAmount) && WholeCents(tiers[1].minAmount) && WholeCents(tiers[2].minAmount);
  }

  lemma CloseIntegers(a: int, b: int)
    requires -1.0 < a as real - b as real < 1.0
    ensures a == b
  {
  }

  lemma HalfEvenClose(y: real, cents: int)
    requires -0.5 < y - cents as real < 0.5
    ensures HalfEven(y) == cents
  {
    HalfEvenNearest(y);
    CloseIntegers(HalfEven(y), cents);
  }

  lemma QuantizeByCents(x: real, cents: int)
    requires -0.005 < x - Yuan(cents) < 0.005
    ensures Quantize(x) == Yuan(cents)
  {
    HalfEvenClose(x * 100.0, cents);
  }

  lemma FeeByCents(amount: real, rate: real, minFee: real, cents: int)
    requires -0.005 < amount * rate - Yuan(cents) < 0.005
    ensures Fee(amount, rate, minFee) == if Yuan(cents) < minFee then minFee else Yuan(cents)
  {
    QuantizeByCents(amount * rate, cents);
  }

  /** With the documented tiers nothing drops at 1000, but 9999.99 is charged 8.00 and 10000 only 5.00. */
  lemma DocumentedTiersDropOnce()
    ensures NoDropAt(DocumentedTiers(), 1) && !NoDropAt(DocumentedTiers(), 2) && !Monotone(DocumentedTiers())
    ensures TierFeeAt(DocumentedTiers(), 1, 999999) == 8.0 && TierFeeAt(DocumentedTiers(), 2, 1000000) == 5.0
  {
    var tiers := DocumentedTiers();
    DocumentedBounds();
    FeeByCents(Yuan(99999), 0.001, 1.0, 100);
    FeeByCents(Yuan(100000), 0.0008, 1.0, 80);
    FeeByCents(Yuan(999999), 0.0008, 1.0, 800);
    FeeByCents(Yuan(1000000), 0.0005, 2.0, 500);
    MonotoneExactlyWithoutDrops(tiers);
  }

  /** The documented rows, in any order and among unusable ones, charge the documented fees: 1.00 for 500,
      8.00 for 9999.99 and 5.00 for 10000. */
  lemma DocumentedRowsCharge(stored: seq<RawTier>, unusable: seq<RawTier>, amount: real, r: Option<FeeResult>)
    requires StoredAs(stored, DocumentedTiers(), unusable) && Charges(amount, SortTiers(Parsed(stored)), r)
    ensures amount == 500.0 ==> r.Some? && r.value.fee == 1.0
    ensures amount == 9999.99 ==> r.Some? && r.value.fee == 8.0
    ensures amount == 10000.0 ==> r.Some? && r.value.fee == 5.0
  {
    if amount >= 0.0 {
      DocumentedBounds();
      var k := ContiguousInAnyOrder(stored, DocumentedTiers(), unusable, amount);
      FeeByCents(500.0, 0.001, 1.0, 50);
      FeeByCents(9999.99, 0.0008, 1.0, 800);
      FeeByCents(10000.0, 0.0005, 2.0, 500);
    }
  }
}
