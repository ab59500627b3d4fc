/** Buckets and summary told by the rows themselves. */
module CostByRows {
  import opened Wrappers
  import opened Text
  import opened Rounding
  import opened UsageCost
  import opened CostBuckets
  import opened BucketSorting
  import opened CostAnalytics
  import opened CostAnalyticsTheorems

  // ----- which rows count

  /** Rows are looked at one by one, and count exactly when they carry metadata. */
  lemma {:induction false} UsedRowsAre(a: seq<Row>, b: seq<Row>, row: Row)
    ensures UsedRows(a + b) == UsedRows(a) + UsedRows(b)
    ensures UsedRows([row]) == match row.meta case None => [] case Some(meta) => [Used(meta, row.day, row.actor)]
    decreases |b|
  {
    assert [row][..0] == [] && UsedRows([]) == [];
    if b == [] {
      assert a + b == a;
    } else {
      var n := |b| - 1;
      assert (a + b)[..|a| + n] == a + b[..n];
      UsedRowsAre(a, b[..n], row);
    }
  }

  /** And of those the ones with a time stamp make up the days. */
  lemma {:induction false} DatedAre(a: seq<Used>, b: seq<Used>, u: Used)
    ensures Dated(a + b) == Dated(a) + Dated(b)
    ensures Dated([u]) == if u.day.Some? then [u] else []
    decreases |b|
  {
    assert [u][..0] == [] && Dated([]) == [];
    if b == [] {
      assert a + b == a;
    } else {
      var n := |b| - 1;
      assert (a + b)[..|a| + n] == a + b[..n];
      DatedAre(a, b[..n], u);
    }
  }

  // ----- sums over the rows of one kind

  function PromptOf(u: Used): int {
    u.meta.promptTokens
  }

  function CompletionOf(u: Used): int {
    u.meta.completionTokens
  }

  function TotalOf(u: Used): int {
    u.meta.totalTokens
  }

  function CountWhere(used: seq<Used>, which: Used -> bool): nat {
    if used == [] then 0 else CountWhere(used[1..], which) + if which(used[0]) then 1 else 0
  }

  function SumWhere(used: seq<Used>, which: Used -> bool, what: Used -> int): int {
    if used == [] then 0 else SumWhere(used[1..], which, what) + if which(used[0]) then what(used[0]) else 0
  }

  lemma {:induction false} WhereAppend(used: seq<Used>, u: Used, which: Used -> bool, what: Used -> int)
    ensures CountWhere(used + [u], which) == CountWhere(used, which) + if which(u) then 1 else 0
    ensures SumWhere(used + [u], which, what) == SumWhere(used, which, what) + if which(u) then what(u) else 0
  {
    if used == [] {
      assert [] + [u] == [u];
    } else {
      assert (used + [u])[1..] == used[1..] + [u];
      WhereAppend(used[1..], u, which, what);
    }
  }

  /** What a grouping needs to hold for the sums below: its items carry the tokens of their rows. */
  ghost predicate CarriesTokens<K(!new)>(item: Used -> Item<K>) {
    forall u :: item(u).prompt == u.meta.promptTokens && item(u).completion == u.meta.completionTokens
                && item(u).tokens == u.meta.totalTokens
  }

  lemma {:induction false} OwnSums<K(!new)>(used: seq<Used>, item: Used -> Item<K>, key: K, which: Used -> bool)
    requires CarriesTokens(item) && forall u :: u in used ==> (which(u) <==> item(u).key == key)
    ensures
      var own := Of(Items(used, item), key);
      && |own| == CountWhere(used, which)
      && PromptTokens(own) == SumWhere(used, which, PromptOf)
      && CompletionTokens(own) == SumWhere(used, which, CompletionOf)
      && ItemTokens(own) == SumWhere(used, which, TotalOf)
  {
    if used != [] {
      var n := |used| - 1;
      var u := used[n];
      OwnSums(used[..n], item, key, which);
      assert used == used[..n] + [u];
      assert Items(used, item)[..n] == Items(used[..n], item);
      WhereAppend(used[..n], u, which, PromptOf);
      WhereAppend(used[..n], u, which, CompletionOf);
      WhereAppend(used[..n], u, which, TotalOf);
      hide CountWhere, SumWhere, CarriesTokens, Items;
      OwnAppend(Items(used[..n], item), item(u), key);
      assert Items(used, item) == Items(used[..n], item) + [item(u)];
    }
  }

  lemma OwnAppend<K>(items: seq<Item<K>>, item: Item<K>, key: K)
    ensures
      var before, after := Of(items, key), Of(items + [item], key);
      if item.key == key then
        && |after| == |before| + 1 && PromptTokens(after) == PromptTokens(before) + item.prompt
        && CompletionTokens(after) == CompletionTokens(before) + item.completion
        && ItemTokens(after) == ItemTokens(before) + item.tokens
      else after == before
  {
    assert (items + [item])[..|items|] == items;
    var before := Of(items, key);
    assert (before + [item])[..|before|] == before && before + [] == before;
  }

  /** The bucket holds the rows of one kind: how many there are, and their tokens. */
  ghost predicate Totals<K(!new)>(b: Bucket<K>, used: seq<Used>, which: Used -> bool) {
    && b.requests == CountWhere(used, which) > 0
    && b.promptTokens == SumWhere(used, which, PromptOf)
    && b.completionTokens == SumWhere(used, which, CompletionOf)
    && b.totalTokens == SumWhere(used, which, TotalOf)
  }

  lemma BucketTotals<K(!new)>(
      used: seq<Used>, item: Used -> Item<K>, rank: Bucket<K> -> real, b: Bucket<K>, which: Used -> bool)
    requires CarriesTokens(item) && forall u :: u in used ==> (which(u) <==> item(u).key == b.key)
    requires b in SortBy(rank, Fold(Items(used, item)))
    ensures Totals(b, used, which)
  {
    BucketsByKey(Items(used, item), rank, b);
    OwnSums(used, item, b.key, which);
    hide Of, Items, CountWhere, SumWhere, SortBy, Fold, PromptTokens, CompletionTokens, ItemTokens, RoundedCost,
         CarriesTokens;
  }

  function SameModel(key: string): Used -> bool {
    (u: Used) => key == if u.meta.model == "" then "unknown" else u.meta.model
  }

  function SameUser(key: string): Used -> bool {
    (u: Used) => key == UserLabel(u.meta, u.actor).0
  }

  function SameTeam(key: string): Used -> bool {
    (u: Used) => key == TeamLabel(u.meta).0
  }

  function SameDay(key: int): Used -> bool {
    (u: Used) => u.day == Some(key)
  }

  /**
    Each bucket has the requests and the prompt, completion and total tokens of the
    rows of its model, its user, its team or its day, and no bucket is without a row.
  */
  lemma BucketsHoldTheirRows(rows: seq<Row>, p: Pricing, periodDays: int)
    ensures
      var r, used := Analyzed(rows, p, periodDays), UsedRows(rows);
      && (forall b :: b in r.byModel ==> Totals(b, used, SameModel(b.key)))
      && (forall b :: b in r.byUser ==> Totals(b, used, SameUser(b.key)))
      && (forall b :: b in r.byTeam ==> Totals(b, used, SameTeam(b.key)))
      && (forall b :: b in r.dailyTrend ==> Totals(b, Dated(used), SameDay(b.key)))
  {
    hide RowCost, UserLabel, TeamLabel, Fold, Items, UsedRows, TotalTokens, TotalCost, SortBy, Totals;
    var r, used := Analyzed(rows, p, periodDays), UsedRows(rows);
    var byCost := (b: Bucket<string>) => b.costUsd;
    forall b | b in r.byModel ensures Totals(b, used, SameModel(b.key)) {
      BucketTotals(used, ByModel(p), byCost, b, SameModel(b.key));
    }
    forall b | b in r.byUser ensures Totals(b, used, SameUser(b.key)) {
      BucketTotals(used, ByUser(p), byCost, b, SameUser(b.key));
    }
    forall b | b in r.byTeam ensures Totals(b, used, SameTeam(b.key)) {
      BucketTotals(used, ByTeam(p), byCost, b, SameTeam(b.key));
    }
    var dated := Dated(used);
    hide Dated;
    forall b | b in r.dailyTrend ensures Totals(b, dated, SameDay(b.key)) {
      BucketTotals(dated, OnDay(p), (b: Bucket<int>) => -(b.key as real), b, SameDay(b.key));
    }
  }

  // ----- labels

  /** What a user's bucket is called: the user's name, the beginning of the id, or the actor. */
  lemma UserTitle(meta: Meta, actor: string)
    ensures
      UserLabel(meta, actor).1 ==
        match WhoOf(meta, actor)
        case EndUser(name) => name
        case UserId(id) => "User " + id[..Min(8, |id|)]
        case Actor(name) => name
  {
    hide Strip;
    var id := Strip(meta.userId);
    assert id[..|id|] == id;
  }

  /** Requests without a client key: those of JWT users share one bucket, all others another. */
  lemma TeamWithoutKey(meta: Meta)
    requires Strip(meta.clientKeyName) == ""
    ensures TeamLabel(meta) == if meta.authType == "jwt" then ("jwt", "JWT users") else ("unattributed", "Unattributed")
  {
    hide Strip;
  }

  // ----- averages

  /** The averages, to within their rounding, and none without requests. */
  lemma AveragesAre(rows: seq<Row>, p: Pricing, periodDays: int)
    ensures
      var used := UsedRows(rows);
      var s := Analyzed(rows, p, periodDays).summary;
      var n := |used| as real;
      && Analyzed(rows, p, periodDays).periodDays == periodDays
      && s.requests == |used| && s.totalTokens == TotalTokens(used)
      && Abs(s.totalCostUsd - TotalCost(p, used)) <= 0.00005
      && (used == [] ==> s.avgCostPerRequestUsd == s.avgTokensPerRequest == 0.0)
      && (used != [] ==>
            && Abs(s.avgCostPerRequestUsd - TotalCost(p, used) / n) <= 0.00005
            && Abs(s.avgTokensPerRequest - TotalTokens(used) as real / n) <= 0.05)
  {
    hide RowCost, UserLabel, TeamLabel, Fold, Items, UsedRows, TotalTokens, TotalCost, SortBy, Round4, Round1;
  }
}
