/**
 * The token totals of `freeModelCatalog.ts`: models that share a pool count once, with the largest
 * budget in the pool; models without a pool count each.
 */
module FreeModelCatalog {
  import opened Integers
  import opened Options

  datatype FreeType =
    | RecurringDaily | RecurringMonthly | RecurringCredit | RecurringUncapped
    | OneTimeInitial | Keyless | Discontinued

  /** `pool` is None for a null or empty pool key. */
  datatype Model = Model(id: string, monthlyTokens: int, creditTokens: int, freeType: FreeType,
                         pool: Option<string>, avoid: bool)

  /** A model reduced to what is summed. */
  datatype Item = Item(pool: Option<string>, tokens: int)

  function Items(models: seq<Model>, pick: Model -> int, counted: Model -> bool): seq<Item> {
    if models == [] then []
    else
      var m := models[|models| - 1];
      Items(models[..|models| - 1], pick, counted) + if counted(m) then [Item(m.pool, pick(m))] else []
  }

  // ---------------------------------------------------------------- the reference definition

  /** The largest budget in pool `p`, and 0 at least. */
  function PoolMaximum(items: seq<Item>, p: string): int {
    if items == [] then 0
    else
      var x := items[|items| - 1];
      Max(PoolMaximum(items[..|items| - 1], p), if x.pool == Some(p) then x.tokens else 0)
  }

  function Pools(items: seq<Item>): set<string> {
    set x | x in items && x.pool.Some? :: x.pool.value
  }

  function Maxima(items: seq<Item>): map<string, int> {
    map p | p in Pools(items) :: PoolMaximum(items, p)
  }

  function LooseOf(x: Item): int {
    if x.pool.None? then x.tokens else 0
  }

  function LooseSum(items: seq<Item>): int {
    if items == [] then 0 else LooseSum(items[..|items| - 1]) + LooseOf(items[|items| - 1])
  }

  function PlainSum(items: seq<Item>): int {
    if items == [] then 0 else PlainSum(items[..|items| - 1]) + items[|items| - 1].tokens
  }

  /** The sum of a map's values. */
  ghost function SumValues(m: map<string, int>): int {
    if m == map[] then 0
    else
      var k :| k in m;
      m[k] + SumValues(m - {k})
  }

  /** The sum over the pools of their maxima, and over the loose models. */
  ghost function Total(items: seq<Item>): int {
    SumValues(Maxima(items)) + LooseSum(items)
  }

  // ---------------------------------------------------------------- sums over maps

  lemma {:induction false} SumRemove(m: map<string, int>, k: string)
    requires k in m
    ensures SumValues(m) == m[k] + SumValues(m - {k})
    decreases |m|
  {
    var j :| j in m && SumValues(m) == m[j] + SumValues(m - {j});
    if j != k {
      SumRemove(m - {j}, k);
      SumRemove(m - {k}, j);
      assert m - {j} - {k} == m - {k} - {j};
    }
  }

  lemma SumUpdate(m: map<string, int>, k: string, v: int)
    ensures SumValues(m[k := v]) == SumValues(m) - (if k in m then m[k] else 0) + v
  {
    SumRemove(m[k := v], k);
    if k in m {
      SumRemove(m, k);
      assert m[k := v] - {k} == m - {k};
    } else {
      assert m[k := v] - {k} == m;
    }
  }

  /** More keys and larger values give a larger sum, when nothing is negative. */
  lemma {:induction false} SumMonotone(a: map<string, int>, b: map<string, int>)
    requires forall k | k in a :: k in b && a[k] <= b[k]
    requires forall k | k in b :: 0 <= b[k]
    ensures SumValues(a) <= SumValues(b)
    decreases |b|
  {
    if b != map[] {
      var k :| k in b;
      SumRemove(b, k);
      if k in a {
        SumRemove(a, k);
      } else {
        assert a - {k} == a;
      }
      SumMonotone(a - {k}, b - {k});
    } else {
      assert a == map[];
    }
  }

  // ---------------------------------------------------------------- the loop

  lemma MaximaLast(items: seq<Item>, x: Item)
    ensures Maxima(items + [x])
            == if x.pool.Some?
               then Maxima(items)[x.pool.value := Max(PoolMaximum(items, x.pool.value), x.tokens)]
               else Maxima(items)
    ensures x.pool.Some? && x.pool.value !in Maxima(items) ==> PoolMaximum(items, x.pool.value) == 0
    ensures LooseSum(items + [x]) == LooseSum(items) + LooseOf(x)
    ensures PlainSum(items + [x]) == PlainSum(items) + x.tokens
  {
    assert (items + [x])[..|items|] == items;
    assert forall p :: PoolMaximum(items, p) >= 0 by {
      forall p ensures PoolMaximum(items, p) >= 0 { MaximumMeans(items, p); }
    }
    if x.pool.Some? {
      MaximumMeans(items, x.pool.value);
    }
    PoolsLast(items, x);
  }

  lemma PoolsLast(items: seq<Item>, x: Item)
    ensures Pools(items + [x]) == Pools(items) + if x.pool.Some? then {x.pool.value} else {}
  {
    assert forall y :: y in items + [x] <==> y in items || y == x;
  }

  /** The maximum is 0 or the budget of a model in the pool, and no model of the pool exceeds it. */
  lemma {:induction false} MaximumMeans(items: seq<Item>, p: string)
    ensures PoolMaximum(items, p) >= 0
    ensures forall x :: x in items && x.pool == Some(p) ==> x.tokens <= PoolMaximum(items, p)
    ensures PoolMaximum(items, p) == 0
            || exists x :: x in items && x.pool == Some(p) && x.tokens == PoolMaximum(items, p)
  {
    if items != [] {
      var rest, x := items[..|items| - 1], items[|items| - 1];
      MaximumMeans(rest, p);
      assert items == rest + [x];
      if PoolMaximum(items, p) != 0 && PoolMaximum(items, p) == PoolMaximum(rest, p) {
        var y :| y in rest && y.pool == Some(p) && y.tokens == PoolMaximum(rest, p);
        assert y in items;
      }
    }
  }

  method AddValues(poolMax: map<string, int>, start: int) returns (sum: int)
    ensures sum == start + SumValues(poolMax)
  {
    sum := start;
    var todo := poolMax;
    while todo != map[]
      invariant sum + SumValues(todo) == start + SumValues(poolMax)
      decreases |todo|
    {
      var k :| k in todo;
      SumRemove(todo, k);
      sum := sum + todo[k];
      todo := todo - {k};
    }
  }

  lemma ItemsTake(models: seq<Model>, i: nat, pick: Model -> int, counted: Model -> bool)
    requires i < |models|
    ensures Items(models[..i + 1], pick, counted)
            == Items(models[..i], pick, counted)
               + if counted(models[i]) then [Item(models[i].pool, pick(models[i]))] else []
    ensures Items(models[..i], pick, counted) + [] == Items(models[..i], pick, counted)
  {
    assert models[..i + 1][..i] == models[..i];
  }

  /** One round of the loop. */
  method AddItem(x: Item, poolMax: map<string, int>, loose: int, ghost items: seq<Item>)
    returns (newMax: map<string, int>, newLoose: int)
    requires poolMax == Maxima(items) && loose == LooseSum(items)
    ensures newMax == Maxima(items + [x]) && newLoose == LooseSum(items + [x])
  {
    newMax, newLoose := poolMax, loose;
    MaximaLast(items, x);
    if x.pool.Some? {
      var key := x.pool.value;
      newMax := newMax[key := Max(if key in newMax then newMax[key] else 0, x.tokens)];
    } else {
      newLoose := newLoose + x.tokens;
    }
  }

  /** `dedupedSum` as the source computes it: running maxima per pool, a running sum for the rest. */
  method DedupedSum(models: seq<Model>, pick: Model -> int, counted: Model -> bool) returns (total: int)
    ensures total == Total(Items(models, pick, counted))
  {
    var poolMax: map<string, int> := map[];
    var loose := 0;
    for i := 0 to |models|
      invariant poolMax == Maxima(Items(models[..i], pick, counted))
      invariant loose == LooseSum(Items(models[..i], pick, counted))
    {
      ghost var items := Items(models[..i], pick, counted);
      ItemsTake(models, i, pick, counted);
      var m := models[i];
      if counted(m) {
        poolMax, loose := AddItem(Item(m.pool, pick(m)), poolMax, loose, items);
      }
    }
    assert models[..|models|] == models;
    total := AddValues(poolMax, loose);
  }

  // ---------------------------------------------------------------- laws of the total

  ghost predicate NonNegative(items: seq<Item>) {
    forall x :: x in items ==> 0 <= x.tokens
  }

  lemma {:induction false} LooseSumConcat(a: seq<Item>, b: seq<Item>)
    ensures LooseSum(a + b) == LooseSum(a) + LooseSum(b)
  {
    if b == [] {
      assert a + b == a;
    } else {
      assert (a + b)[..|a + b| - 1] == a + b[..|b| - 1];
      LooseSumConcat(a, b[..|b| - 1]);
    }
  }

  lemma LooseSumRemove(p: seq<Item>, x: Item, q: seq<Item>)
    ensures LooseSum(p + [x] + q) == LooseSum(p + q) + LooseOf(x)
  {
    LooseSumConcat(p + [x], q);
    LooseSumConcat(p, [x]);
    LooseSumConcat(p, q);
    assert [x][..0] == [];
  }

  /** Taking out `x` wherever it stands. */
  lemma SplitAt<T>(items: seq<T>, x: T) returns (p: seq<T>, q: seq<T>)
    requires x in items
    ensures items == p + [x] + q
    ensures multiset(p + q) == multiset(items) - multiset{x}
  {
    var i :| 0 <= i < |items| && items[i] == x;
    p, q := items[..i], items[i + 1..];
  }

  lemma MultisetLast<T>(items: seq<T>)
    requires items != []
    ensures multiset(items[..|items| - 1]) == multiset(items) - multiset{items[|items| - 1]}
    ensures items[|items| - 1] in multiset(items)
  {
    assert items == items[..|items| - 1] + [items[|items| - 1]];
  }

  lemma {:induction false} LooseSumMonotone(a: seq<Item>, b: seq<Item>)
    requires multiset(a) <= multiset(b) && NonNegative(b)
    ensures LooseSum(a) <= LooseSum(b)
  {
    if a == [] {
      LooseSumNonNegative(b);
    } else {
      var rest, x := a[..|a| - 1], a[|a| - 1];
      MultisetLast(a);
      assert x in multiset(b);
      assert x in b;
      var p, q := SplitAt(b, x);
      LooseSumRemove(p, x, q);
      LooseSumMonotone(rest, p + q);
    }
  }

  lemma {:induction false} LooseSumNonNegative(items: seq<Item>)
    requires NonNegative(items)
    ensures 0 <= LooseSum(items)
  {
    if items != [] {
      LooseSumNonNegative(items[..|items| - 1]);
    }
  }

  lemma {:induction false} LooseSumPermutation(a: seq<Item>, b: seq<Item>)
    requires multiset(a) == multiset(b)
    ensures LooseSum(a) == LooseSum(b)
  {
    if a == [] {
      assert |multiset(b)| == |b|;
    } else {
      var rest, x := a[..|a| - 1], a[|a| - 1];
      MultisetLast(a);
      assert x in multiset(b);
      assert x in b;
      var p, q := SplitAt(b, x);
      LooseSumRemove(p, x, q);
      LooseSumPermutation(rest, p + q);
    }
  }

  /** The maximum of a pool depends on which items there are, not on their order or number. */
  lemma MaximumMonotone(a: seq<Item>, b: seq<Item>, p: string)
    requires forall x :: x in a ==> x in b
    ensures PoolMaximum(a, p) <= PoolMaximum(b, p)
  {
    MaximumMeans(a, p);
    MaximumMeans(b, p);
  }

  lemma MembersOf(a: seq<Item>, b: seq<Item>)
    requires multiset(a) <= multiset(b)
    ensures forall x :: x in a ==> x in b
  {
    forall x | x in a ensures x in b {
      assert x in multiset(a);
      assert x in multiset(b);
    }
  }

  /** The total does not depend on the order of the catalog. */
  lemma TotalPermutation(a: seq<Item>, b: seq<Item>)
    requires multiset(a) == multiset(b)
    ensures Total(a) == Total(b)
  {
    MembersOf(a, b);
    MembersOf(b, a);
    LooseSumPermutation(a, b);
    assert Pools(a) == Pools(b);
    forall p ensures PoolMaximum(a, p) == PoolMaximum(b, p) {
      MaximumMonotone(a, b, p);
      MaximumMonotone(b, a, p);
    }
    assert Maxima(a) == Maxima(b);
  }

  /** With non-negative budgets, more models never lower the total. */
  lemma TotalMonotone(a: seq<Item>, b: seq<Item>)
    requires multiset(a) <= multiset(b) && NonNegative(b)
    ensures Total(a) <= Total(b)
  {
    MembersOf(a, b);
    LooseSumMonotone(a, b);
    forall p ensures 0 <= PoolMaximum(a, p) <= PoolMaximum(b, p) {
      MaximumMonotone(a, b, p);
      MaximumMeans(a, p);
    }
    SumMonotone(Maxima(a), Maxima(b));
  }

  /** With non-negative budgets, the total never exceeds the plain sum. */
  lemma {:induction false} TotalBelowPlainSum(items: seq<Item>)
    requires NonNegative(items)
    ensures 0 <= Total(items) <= PlainSum(items)
  {
    if items == [] {
      assert Maxima(items) == map[];
    } else {
      var rest, x := items[..|items| - 1], items[|items| - 1];
      assert items == rest + [x];
      assert x in items;
      TotalBelowPlainSum(rest);
      MaximaLast(rest, x);
      if x.pool.Some? {
        MaximumMeans(rest, x.pool.value);
        SumUpdate(Maxima(rest), x.pool.value, Max(PoolMaximum(rest, x.pool.value), x.tokens));
      }
    }
  }

  // ---------------------------------------------------------------- the published totals

  predicate IsRecurring(m: Model) {
    m.freeType.RecurringDaily? || m.freeType.RecurringMonthly? || m.freeType.Keyless?
  }

  datatype Totals = Totals(steady: int, steadyWithCredits: int, firstMonth: int, boost: int)

  function Kept(models: seq<Model>, excludeAvoid: bool): seq<Model> {
    if models == [] then []
    else
      var m := models[|models| - 1];
      Kept(models[..|models| - 1], excludeAvoid) + if excludeAvoid && m.avoid then [] else [m]
  }

  function LivePools(models: seq<Model>): set<string> {
    set m | m in models && IsRecurring(m) && m.pool.Some? :: m.pool.value
  }

  function BoostSum(boosts: seq<(string, int)>, live: set<string>): int {
    if boosts == [] then 0
    else
      var (pool, tokens) := boosts[|boosts| - 1];
      BoostSum(boosts[..|boosts| - 1], live) + if pool in live then tokens else 0
  }

  function Monthly(): Model -> int { (m: Model) => m.monthlyTokens }
  function Credit(): Model -> int { (m: Model) => m.creditTokens }
  function Recurring(): Model -> bool { (m: Model) => IsRecurring(m) }
  function OfType(t: FreeType): Model -> bool { (m: Model) => m.freeType == t }

  ghost function TotalsOf(models: seq<Model>, boosts: seq<(string, int)>): Totals {
    var steady := Total(Items(models, Monthly(), Recurring()));
    var credits := Total(Items(models, Credit(), OfType(RecurringCredit)));
    var oneTime := Total(Items(models, Credit(), OfType(OneTimeInitial)));
    Totals(steady, steady + credits, steady + credits + oneTime, BoostSum(boosts, LivePools(models)))
  }

  method ComputeFreeModelTotals(all: seq<Model>, boosts: seq<(string, int)>, excludeAvoid: bool)
    returns (t: Totals)
    ensures t == TotalsOf(Kept(all, excludeAvoid), boosts)
  {
    var models := Kept(all, excludeAvoid);
    var steady := DedupedSum(models, Monthly(), Recurring());
    var credits := DedupedSum(models, Credit(), OfType(RecurringCredit));
    var oneTime := DedupedSum(models, Credit(), OfType(OneTimeInitial));
    var live := LivePools(models);
    var boost := 0;
    for i := 0 to |boosts|
      invariant boost == BoostSum(boosts[..i], live)
    {
      assert boosts[..i + 1][..i] == boosts[..i];
      if boosts[i].0 in live {
        boost := boost + boosts[i].1;
      }
    }
    assert boosts[..|boosts|] == boosts;
    t := Totals(steady, steady + credits, steady + credits + oneTime, boost);
  }

  // ---------------------------------------------------------------- what enters each number

  /** The budgets of the models of some types: monthly tokens or credits. */
  function Chosen(models: seq<Model>, types: set<FreeType>, monthly: bool): seq<Item> {
    if models == [] then []
    else
      var m := models[|models| - 1];
      Chosen(models[..|models| - 1], types, monthly)
      + if m.freeType in types then [Item(m.pool, if monthly then m.monthlyTokens else m.creditTokens)] else []
  }

  const RENEWED: set<FreeType> := {RecurringDaily, RecurringMonthly, Keyless}

  /** Some model of the pool is renewed daily or monthly, or needs no key. */
  ghost predicate IsLive(models: seq<Model>, pool: string) {
    exists i :: 0 <= i < |models| && models[i].freeType in RENEWED && models[i].pool == Some(pool)
  }

  ghost function LiveBoosts(models: seq<Model>, boosts: seq<(string, int)>): int {
    if boosts == [] then 0
    else
      LiveBoosts(models, boosts[..|boosts| - 1])
      + if IsLive(models, boosts[|boosts| - 1].0) then boosts[|boosts| - 1].1 else 0
  }

  lemma {:induction false} ItemsAreChosen(models: seq<Model>, pick: Model -> int, counted: Model -> bool,
                                          types: set<FreeType>, monthly: bool)
    requires forall m :: counted(m) == (m.freeType in types)
    requires forall m :: pick(m) == if monthly then m.monthlyTokens else m.creditTokens
    ensures Items(models, pick, counted) == Chosen(models, types, monthly)
  {
    if models != [] {
      ItemsAreChosen(models[..|models| - 1], pick, counted, types, monthly);
    }
  }

  lemma {:induction false} BoostsAreLive(models: seq<Model>, boosts: seq<(string, int)>)
    ensures BoostSum(boosts, LivePools(models)) == LiveBoosts(models, boosts)
  {
    if boosts != [] {
      var pool := boosts[|boosts| - 1].0;
      BoostsAreLive(models, boosts[..|boosts| - 1]);
      if IsLive(models, pool) {
        var i :| 0 <= i < |models| && models[i].freeType in RENEWED && models[i].pool == Some(pool);
        assert models[i] in models;
      }
      if pool in LivePools(models) {
        var m :| m in models && IsRecurring(m) && m.pool == Some(pool);
        var i :| 0 <= i < |models| && models[i] == m;
      }
    }
  }

  /**
   * What enters the headline numbers: monthly tokens of the renewed models, then credits of the models with
   * recurring credit, then credits of the one-time ones; and the boosts of the pools with a renewed model.
   */
  lemma HeadlineNumbers(models: seq<Model>, boosts: seq<(string, int)>)
    ensures var t := TotalsOf(models, boosts);
            && t.steady == Total(Chosen(models, RENEWED, true))
            && t.steadyWithCredits - t.steady == Total(Chosen(models, {RecurringCredit}, false))
            && t.firstMonth - t.steadyWithCredits == Total(Chosen(models, {OneTimeInitial}, false))
            && t.boost == LiveBoosts(models, boosts)
  {
    ItemsAreChosen(models, Monthly(), Recurring(), RENEWED, true);
    ItemsAreChosen(models, Credit(), OfType(RecurringCredit), {RecurringCredit}, false);
    ItemsAreChosen(models, Credit(), OfType(OneTimeInitial), {OneTimeInitial}, false);
    BoostsAreLive(models, boosts);
  }

  /** Only the models to avoid are left out, and only when that is asked for. */
  lemma {:induction false} KeptCount(models: seq<Model>, excludeAvoid: bool, m: Model)
    ensures multiset(Kept(models, excludeAvoid))[m] == if excludeAvoid && m.avoid then 0 else multiset(models)[m]
  {
    if models != [] {
      KeptCount(models[..|models| - 1], excludeAvoid, m);
      assert models == models[..|models| - 1] + [models[|models| - 1]];
    }
  }

  // ---------------------------------------------------------------- laws of the headline numbers

  ghost predicate NonNegativeBudgets(models: seq<Model>) {
    forall m :: m in models ==> 0 <= m.monthlyTokens && 0 <= m.creditTokens
  }

  lemma {:induction false} ItemsNonNegative(models: seq<Model>, pick: Model -> int, counted: Model -> bool)
    requires forall m :: m in models ==> 0 <= pick(m)
    ensures NonNegative(Items(models, pick, counted))
  {
    if models != [] {
      var m := models[|models| - 1];
      assert m in models;
      ItemsNonNegative(models[..|models| - 1], pick, counted);
    }
  }

  /** The three headline numbers are ordered: steady, with recurring credits, first month. */
  lemma TotalsOrdered(models: seq<Model>, boosts: seq<(string, int)>)
    requires NonNegativeBudgets(models)
    ensures var t := TotalsOf(models, boosts); 0 <= t.steady <= t.steadyWithCredits <= t.firstMonth
  {
    ItemsNonNegative(models, Monthly(), Recurring());
    ItemsNonNegative(models, Credit(), OfType(RecurringCredit));
    ItemsNonNegative(models, Credit(), OfType(OneTimeInitial));
    TotalBelowPlainSum(Items(models, Monthly(), Recurring()));
    TotalBelowPlainSum(Items(models, Credit(), OfType(RecurringCredit)));
    TotalBelowPlainSum(Items(models, Credit(), OfType(OneTimeInitial)));
  }

  lemma {:induction false} KeptMembers(models: seq<Model>, e: bool)
    ensures forall m :: m in Kept(models, e) ==> m in models
  {
    if models != [] {
      KeptMembers(models[..|models| - 1], e);
    }
  }

  lemma {:induction false} ItemsConcat(a: seq<Model>, b: seq<Model>, pick: Model -> int, counted: Model -> bool)
    ensures Items(a + b, pick, counted) == Items(a, pick, counted) + Items(b, pick, counted)
  {
    if b == [] {
      assert a + b == a;
    } else {
      assert (a + b)[..|a + b| - 1] == a + b[..|b| - 1];
      ItemsConcat(a, b[..|b| - 1], pick, counted);
    }
  }

  /** Taking a model out of a catalog takes its item out. */
  lemma ItemsRemove(p: seq<Model>, m: Model, q: seq<Model>, pick: Model -> int, counted: Model -> bool)
    ensures multiset(Items(p + [m] + q, pick, counted))
            == multiset(Items(p + q, pick, counted)) + multiset(Items([m], pick, counted))
  {
    ItemsConcat(p + [m], q, pick, counted);
    ItemsConcat(p, [m], pick, counted);
    ItemsConcat(p, q, pick, counted);
  }

  /** A sub-bag of models has a sub-bag of items. */
  lemma {:induction false} ItemsMonotone(a: seq<Model>, b: seq<Model>, pick: Model -> int, counted: Model -> bool)
    requires multiset(a) <= multiset(b)
    ensures multiset(Items(a, pick, counted)) <= multiset(Items(b, pick, counted))
  {
    if a != [] {
      var rest, m := a[..|a| - 1], a[|a| - 1];
      MultisetLast(a);
      assert m in multiset(b);
      assert m in b;
      var p, q := SplitAt(b, m);
      ItemsMonotone(rest, p + q, pick, counted);
      ItemsRemove(p, m, q, pick, counted);
      ItemsSnoc(a, pick, counted);
      BagStep(multiset(Items(rest, pick, counted)), multiset(Items(p + q, pick, counted)),
              multiset(Items([m], pick, counted)));
    }
  }

  lemma BagStep<T>(a: multiset<T>, b: multiset<T>, x: multiset<T>)
    requires a <= b
    ensures a + x <= b + x
  {
  }

  lemma ItemsSnoc(a: seq<Model>, pick: Model -> int, counted: Model -> bool)
    requires a != []
    ensures multiset(Items(a, pick, counted))
            == multiset(Items(a[..|a| - 1], pick, counted)) + multiset(Items([a[|a| - 1]], pick, counted))
  {
    var rest, m := a[..|a| - 1], a[|a| - 1];
    ItemsConcat(rest, [m], pick, counted);
    var x, y := Items(rest, pick, counted), Items([m], pick, counted);
    assert rest + [m] == a;
    assert multiset(x + y) == multiset(x) + multiset(y);
  }

  /** What `dedupedSum` returns does not depend on the order of the catalog. */
  lemma CatalogOrderIrrelevant(a: seq<Model>, b: seq<Model>, pick: Model -> int, counted: Model -> bool)
    requires multiset(a) == multiset(b)
    ensures Total(Items(a, pick, counted)) == Total(Items(b, pick, counted))
  {
    ItemsMonotone(a, b, pick, counted);
    ItemsMonotone(b, a, pick, counted);
    TotalPermutation(Items(a, pick, counted), Items(b, pick, counted));
  }

  /** With non-negative budgets, what `dedupedSum` returns grows with the catalog. */
  lemma CatalogGrowth(a: seq<Model>, b: seq<Model>, pick: Model -> int, counted: Model -> bool)
    requires multiset(a) <= multiset(b) && forall m :: m in b ==> 0 <= pick(m)
    ensures Total(Items(a, pick, counted)) <= Total(Items(b, pick, counted))
  {
    ItemsMonotone(a, b, pick, counted);
    ItemsNonNegative(b, pick, counted);
    TotalMonotone(Items(a, pick, counted), Items(b, pick, counted));
  }

  lemma {:induction false} KeptBag(models: seq<Model>, e: bool)
    ensures multiset(Kept(models, e)) <= multiset(models)
  {
    if models != [] {
      var rest, m := models[..|models| - 1], models[|models| - 1];
      assert models == rest + [m];
      KeptBag(rest, e);
    }
  }

  lemma {:induction false} BoostMonotone(boosts: seq<(string, int)>, a: set<string>, b: set<string>)
    requires a <= b && forall i :: 0 <= i < |boosts| ==> 0 <= boosts[i].1
    ensures BoostSum(boosts, a) <= BoostSum(boosts, b)
  {
    if boosts != [] {
      BoostMonotone(boosts[..|boosts| - 1], a, b);
    }
  }

  lemma {:induction false} KeptTotal(models: seq<Model>, pick: Model -> int, counted: Model -> bool, e: bool)
    requires forall m :: m in models ==> 0 <= pick(m)
    ensures 0 <= Total(Items(Kept(models, e), pick, counted)) <= Total(Items(models, pick, counted))
  {
    KeptBag(models, e);
    KeptMembers(models, e);
    ItemsNonNegative(Kept(models, e), pick, counted);
    CatalogGrowth(Kept(models, e), models, pick, counted);
    TotalBelowPlainSum(Items(Kept(models, e), pick, counted));
  }

  /** Leaving out the models to avoid never raises any total. */
  lemma {:induction false} ExcludingNeverRaises(models: seq<Model>, boosts: seq<(string, int)>)
    requires NonNegativeBudgets(models) && forall i :: 0 <= i < |boosts| ==> 0 <= boosts[i].1
    ensures var some, all := TotalsOf(Kept(models, true), boosts), TotalsOf(models, boosts);
            && some.steady <= all.steady && some.steadyWithCredits <= all.steadyWithCredits
            && some.firstMonth <= all.firstMonth && some.boost <= all.boost
  {
    KeptTotal(models, Monthly(), Recurring(), true);
    KeptTotal(models, Credit(), OfType(RecurringCredit), true);
    KeptTotal(models, Credit(), OfType(OneTimeInitial), true);
    KeptMembers(models, true);
    assert LivePools(Kept(models, true)) <= LivePools(models);
    BoostMonotone(boosts, LivePools(Kept(models, true)), LivePools(models));
  }
}
