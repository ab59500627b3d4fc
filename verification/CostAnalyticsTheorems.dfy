/** What the cost summary conserves, and how far rounding can carry it off. */
module CostAnalyticsTheorems {
  import opened Wrappers
  import opened Text
  import opened Rounding
  import opened UsageCost
  import opened CostBuckets
  import opened BucketSorting
  import opened CostAnalytics

  /** The largest rounding of one step. */
  const HALF := 0.00005

  lemma {:induction false} ItemsTotals<K>(p: Pricing, used: seq<Used>, item: Used -> Item<K>)
    requires forall u :: item(u).tokens == u.meta.totalTokens && item(u).cost == RowCost(u.meta, p.costPer1k, p.rates)
    ensures ItemTokens(Items(used, item)) == TotalTokens(used)
    ensures ItemCost(Items(used, item)) == TotalCost(p, used)
  {
    hide RowCost;
    if used != [] {
      var n := |used| - 1;
      ItemsTotals(p, used[..n], item);
      assert Items(used, item)[..n] == Items(used[..n], item);
    }
  }

  /** The sums of one grouping, however it is sorted. */
  lemma GroupingTotals<K>(p: Pricing, used: seq<Used>, item: Used -> Item<K>, rank: Bucket<K> -> real)
    requires forall u :: item(u).tokens == u.meta.totalTokens && item(u).cost == RowCost(u.meta, p.costPer1k, p.rates)
    ensures
      var buckets := SortBy(rank, Fold(Items(used, item)));
      && Requests(buckets) == |used|
      && Tokens(buckets) == TotalTokens(used)
      && Abs(Cost(buckets) - TotalCost(p, used)) <= |used| as real * HALF
  {
    hide RowCost, Fold, Items, TotalTokens, TotalCost, SortBy, Requests, Tokens, Cost, AtRank, Descending,
         ItemTokens, ItemCost;
    var items := Items(used, item);
    SortSorts(rank, Fold(items), 0.0);
    FoldConserves(items);
    ItemsTotals(p, used, item);
  }

  ghost predicate Agrees(buckets: seq<Bucket<string>>, summary: Summary) {
    && Requests(buckets) == summary.requests
    && Tokens(buckets) == summary.totalTokens
    && Abs(Cost(buckets) - summary.totalCostUsd) <= (summary.requests + 1) as real * HALF
  }

  /**
    Summed over its buckets, each grouping has exactly the summary's requests and
    tokens, and its cost to within half a unit of the fourth place for each row
    and one for the summary's own rounding.
  */
  lemma CostConservation(rows: seq<Row>, p: Pricing, periodDays: int)
    ensures
      var r := Analyzed(rows, p, periodDays);
      Agrees(r.byModel, r.summary) && Agrees(r.byUser, r.summary) && Agrees(r.byTeam, r.summary)
  {
    hide RowCost, UserLabel, TeamLabel, Fold, Items, UsedRows, TotalTokens, TotalCost, SortBy, Requests, Tokens, Cost;
    var used := UsedRows(rows);
    var byCost := (b: Bucket<string>) => b.costUsd;
    GroupingTotals(p, used, ByModel(p), byCost);
    GroupingTotals(p, used, ByUser(p), byCost);
    GroupingTotals(p, used, ByTeam(p), byCost);
    assert Abs(Round4(TotalCost(p, used)) - TotalCost(p, used)) <= HALF;
  }

  /** The days add up to the rows that have a time stamp. */
  lemma DailyConservation(rows: seq<Row>, p: Pricing, periodDays: int)
    ensures
      var r := Analyzed(rows, p, periodDays);
      var dated := Dated(UsedRows(rows));
      && Requests(r.dailyTrend) == |dated|
      && Tokens(r.dailyTrend) == TotalTokens(dated)
      && Abs(Cost(r.dailyTrend) - TotalCost(p, dated)) <= |dated| as real * HALF
  {
    hide RowCost, Fold, Items, Dated, UsedRows, TotalTokens, TotalCost, SortBy, Requests, Tokens, Cost;
    GroupingTotals(p, Dated(UsedRows(rows)), OnDay(p), (b: Bucket<int>) => -(b.key as real));
  }

  /** The buckets are, in some order, those that the items of each key come to by themselves. */
  lemma BucketsByKey<K>(items: seq<Item<K>>, rank: Bucket<K> -> real, b: Bucket<K>)
    ensures b in SortBy(rank, Fold(items)) <==> Of(items, b.key) != [] && b == BucketOf(Of(items, b.key))
    ensures Descending(rank, SortBy(rank, Fold(items)))
  {
    hide Fold, SortBy, Of, BucketOf, Descending;
    var buckets := Fold(items);
    SortSorts(rank, buckets, 0.0);
    FoldByKey(items, b.key);
    assert b in SortBy(rank, buckets) <==> b in multiset(buckets);
    if b in buckets {
      var i :| 0 <= i < |buckets| && buckets[i] == b;
      PositionIs(buckets, b.key, i);
    }
  }

  // ----- costs that vanish

  lemma Round4Step(sofar: real, cost: real)
    requires sofar >= 0.0 && cost >= 0.0 && Whole4(sofar)
    ensures Round4(sofar + cost) >= sofar
    ensures sofar == 0.0 ==> (Round4(sofar + cost) == 0.0 <==> cost <= HALF)
  {
    var y := (sofar + cost) * 10000.0;
    NearestMonotone(sofar * 10000.0, y);
    if sofar == 0.0 {
      assert cost <= HALF ==> 0.0 <= y <= 0.5 && y.Floor == 0;
      assert cost > HALF ==> y > 0.5;
    }
  }

  /** A cost that is rounded at every step stays at zero exactly when no single cost exceeds half a unit. */
  lemma {:induction false} RoundedToNothing<K>(items: seq<Item<K>>)
    requires forall x :: x in items ==> x.cost >= 0.0
    ensures RoundedCost(items) >= 0.0 && Whole4(RoundedCost(items))
    ensures RoundedCost(items) == 0.0 <==> forall x :: x in items ==> x.cost <= HALF
  {
    if items != [] {
      var n := |items| - 1;
      assert items == items[..n] + [items[n]];
      RoundedToNothing(items[..n]);
      Round4Step(RoundedCost(items[..n]), items[n].cost);
    }
  }

  lemma {:induction false} OfMembers<K>(items: seq<Item<K>>, key: K)
    ensures forall x :: x in Of(items, key) ==> x in items && x.key == key
    ensures forall x :: x in items && x.key == key ==> x in Of(items, key)
  {
    if items != [] {
      var n := |items| - 1;
      assert items == items[..n] + [items[n]];
      OfMembers(items[..n], key);
    }
  }

  /**
    With costs that are not negative, a bucket shows no cost exactly when no item of
    its key costs more than half a unit.
  */
  lemma CheapVanishes<K>(items: seq<Item<K>>, rank: Bucket<K> -> real, b: Bucket<K>)
    requires forall x :: x in items ==> x.cost >= 0.0
    requires b in SortBy(rank, Fold(items))
    ensures b.costUsd == 0.0 <==> forall x :: x in items && x.key == b.key ==> x.cost <= HALF
  {
    hide Fold, SortBy, Of, RoundedCost, PromptTokens, CompletionTokens, ItemTokens, Descending;
    BucketsByKey(items, rank, b);
    var own := Of(items, b.key);
    OfMembers(items, b.key);
    RoundedToNothing(own);
  }

  lemma {:induction false} NothingSummed<K>(buckets: seq<Bucket<K>>)
    requires forall b :: b in buckets ==> b.costUsd == 0.0
    ensures Cost(buckets) == 0.0
  {
    if buckets != [] {
      NothingSummed(buckets[..|buckets| - 1]);
    }
  }

  lemma CheapGrouping<K>(p: Pricing, used: seq<Used>, item: Used -> Item<K>, rank: Bucket<K> -> real)
    requires forall u :: item(u).cost == RowCost(u.meta, p.costPer1k, p.rates)
    requires forall u :: u in used ==> 0.0 <= RowCost(u.meta, p.costPer1k, p.rates) <= HALF
    ensures Cost(SortBy(rank, Fold(Items(used, item)))) == 0.0
  {
    hide RowCost, Fold, SortBy, Cost;
    var items := Items(used, item);
    assert forall x :: x in items ==> 0.0 <= x.cost <= HALF;
    forall b | b in SortBy(rank, Fold(items)) ensures b.costUsd == 0.0 {
      CheapVanishes(items, rank, b);
    }
    NothingSummed(SortBy(rank, Fold(items)));
  }

  /** Rows of at most half a unit each leave every bucket of every grouping at zero, whatever they add up to. */
  lemma CheapRowsVanish(rows: seq<Row>, p: Pricing, periodDays: int)
    requires forall u :: u in UsedRows(rows) ==> 0.0 <= RowCost(u.meta, p.costPer1k, p.rates) <= HALF
    ensures
      var r := Analyzed(rows, p, periodDays);
      && Cost(r.byModel) == Cost(r.byUser) == Cost(r.byTeam) == 0.0
      && r.summary.totalCostUsd == Round4(TotalCost(p, UsedRows(rows)))
  {
    hide RowCost, UserLabel, TeamLabel, Fold, Items, UsedRows, TotalTokens, TotalCost, SortBy, Cost, Round4;
    var used := UsedRows(rows);
    var byCost := (b: Bucket<string>) => b.costUsd;
    CheapGrouping(p, used, ByModel(p), byCost);
    CheapGrouping(p, used, ByUser(p), byCost);
    CheapGrouping(p, used, ByTeam(p), byCost);
  }

  // ----- how far the drift goes

  function Repeat<T>(x: T, n: nat): (s: seq<T>)
    ensures |s| == n && forall i :: 0 <= i < n ==> s[i] == x
  {
    if n == 0 then [] else Repeat(x, n - 1) + [x]
  }

  /** A request that costs just under half a unit: 49 prompt tokens at a dollar per million. */
  const SMALL_META := Meta("m", 49, 0, 49, "", "", "", "", "")
  const SMALL_PRICING := Pricing(0.0, [("m", Rate(1.0, 0.0))])
  const SMALL_COST := 0.000049

  lemma SmallCost()
    ensures RowCost(SMALL_META, SMALL_PRICING.costPer1k, SMALL_PRICING.rates) == SMALL_COST
  {
    var rates := SMALL_PRICING.rates;
    assert Strip("m") == "m" by {
      assert StripLeft("m") == "m" && StripRight("m") == "m";
    }
    assert Lower("m") == "m" && Dashed("m") == "m";
    assert Exactly(rates, "m") == Some(Rate(1.0, 0.0));
    assert ExactUsd(49, 0, Rate(1.0, 0.0)) == SMALL_COST;
    assert Round6(SMALL_COST) == SMALL_COST;
  }

  lemma {:induction false} SmallRows(n: nat)
    ensures
      var used := UsedRows(Repeat(Row(Some(SMALL_META), None, ""), n));
      && used == Repeat(Used(SMALL_META, None, ""), n)
      && TotalCost(SMALL_PRICING, used) == n as real * SMALL_COST
  {
    if n > 0 {
      var row, u := Row(Some(SMALL_META), None, ""), Used(SMALL_META, None, "");
      SmallRows(n - 1);
      SmallCost();
      hide RowCost;
      assert Repeat(row, n)[..n - 1] == Repeat(row, n - 1) && Repeat(u, n)[..n - 1] == Repeat(u, n - 1);
    }
  }

  /**
    The drift keeps pace with the bound: any number of such requests leaves every
    bucket at zero, while the summary shows what they cost, 0.000049 for each.
  */
  lemma DriftGrows(n: nat, periodDays: int)
    ensures
      var rows := Repeat(Row(Some(SMALL_META), None, ""), n);
      var r := Analyzed(rows, SMALL_PRICING, periodDays);
      && r.summary.requests == n
      && Cost(r.byModel) == Cost(r.byUser) == Cost(r.byTeam) == 0.0
      && r.summary.totalCostUsd == Round4(n as real * SMALL_COST)
  {
    SmallRows(n);
    SmallCost();
    hide RowCost, UsedRows, TotalCost, TotalTokens, SortBy, Fold, Items, Cost, Repeat, Round4, Round1;
    CheapRowsVanish(Repeat(Row(Some(SMALL_META), None, ""), n), SMALL_PRICING, periodDays);
  }
}
