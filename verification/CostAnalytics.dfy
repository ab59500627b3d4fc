/** Usage summed up by model, by user, by team and by day. */
module CostAnalytics {
  import opened Wrappers
  import opened Text
  import opened Rounding
  import opened UsageCost
  import opened CostBuckets
  import opened BucketSorting

  /** One audit row: its usage metadata if it has any, the UTC day of its time stamp, and who acted. */
  datatype Row = Row(meta: Option<Meta>, day: Option<int>, actor: string)

  datatype Used = Used(meta: Meta, day: Option<int>, actor: string)

  datatype Pricing = Pricing(costPer1k: real, rates: Rates)

  // ----- who a request is attributed to

  function UserLabel(meta: Meta, actor: string): (string, string) {
    var endUser, userId := Strip(meta.endUser), Strip(meta.userId);
    if endUser != "" then ("user:" + endUser, endUser)
    else if userId != "" then ("id:" + userId, "User " + if |userId| > 8 then userId[..8] else userId)
    else
      var name := Strip(if actor == "" then "unknown" else actor);
      ("actor:" + name, name)
  }

  function TeamLabel(meta: Meta): (string, string) {
    var name, id := Strip(meta.clientKeyName), Strip(meta.clientKeyId);
    if name != "" then ("key:" + if id != "" then id else name, name)
    else if meta.authType == "jwt" then ("jwt", "JWT users")
    else ("unattributed", "Unattributed")
  }

  /** Whom a request counts for: the end user, else the user id, else the actor. */
  datatype Who = EndUser(name: string) | UserId(id: string) | Actor(name: string)

  function WhoOf(meta: Meta, actor: string): Who {
    if Strip(meta.endUser) != "" then EndUser(Strip(meta.endUser))
    else if Strip(meta.userId) != "" then UserId(Strip(meta.userId))
    else Actor(Strip(if actor == "" then "unknown" else actor))
  }

  function UserKey(who: Who): string {
    match who
    case EndUser(name) => "user:" + name
    case UserId(id) => "id:" + id
    case Actor(name) => "actor:" + name
  }

  lemma UserKeyTells(a: Who, b: Who)
    ensures UserKey(a) == UserKey(b) <==> a == b
  {
    var p, q := UserKey(a), UserKey(b);
    assert p[0] == (match a case EndUser(_) => 'u' case UserId(_) => 'i' case Actor(_) => 'a');
    assert q[0] == (match b case EndUser(_) => 'u' case UserId(_) => 'i' case Actor(_) => 'a');
    var n := match a case EndUser(_) => 5 case UserId(_) => 3 case Actor(_) => 6;
    assert p[n..] == match a case EndUser(name) => name case UserId(id) => id case Actor(name) => name;
    if a.EndUser? == b.EndUser? && a.UserId? == b.UserId? {
      assert q[n..] == match b case EndUser(name) => name case UserId(id) => id case Actor(name) => name;
    }
  }

  /** Requests share a user bucket exactly when they count for the same one: users, ids and actors never mix. */
  lemma UsersApart(a: Meta, actorA: string, b: Meta, actorB: string)
    ensures UserLabel(a, actorA).0 == UserLabel(b, actorB).0 <==> WhoOf(a, actorA) == WhoOf(b, actorB)
  {
    hide Strip, UserKey;
    UserKeyTells(WhoOf(a, actorA), WhoOf(b, actorB));
    assert UserLabel(a, actorA).0 == UserKey(WhoOf(a, actorA)) by { KeyIsLabel(a, actorA); }
    assert UserLabel(b, actorB).0 == UserKey(WhoOf(b, actorB)) by { KeyIsLabel(b, actorB); }
  }

  lemma KeyIsLabel(meta: Meta, actor: string)
    ensures UserLabel(meta, actor).0 == UserKey(WhoOf(meta, actor))
  {
    hide Strip;
  }

  /** Client keys do mix: a key without an id shares the bucket of one whose id is its name. */
  lemma TeamsMix(a: Meta, b: Meta)
    requires Strip(a.clientKeyName) != "" && Strip(b.clientKeyName) != ""
    ensures
      var idA := if Strip(a.clientKeyId) != "" then Strip(a.clientKeyId) else Strip(a.clientKeyName);
      var idB := if Strip(b.clientKeyId) != "" then Strip(b.clientKeyId) else Strip(b.clientKeyName);
      TeamLabel(a).0 == TeamLabel(b).0 <==> idA == idB
  {
    hide Strip;
    assert TeamLabel(a).0[4..] == if Strip(a.clientKeyId) != "" then Strip(a.clientKeyId) else Strip(a.clientKeyName);
    assert TeamLabel(b).0[4..] == if Strip(b.clientKeyId) != "" then Strip(b.clientKeyId) else Strip(b.clientKeyName);
  }

  function ItemFor<K>(p: Pricing, meta: Meta, key: K, title: string): Item<K> {
    Item(key, title, meta.promptTokens, meta.completionTokens, meta.totalTokens, RowCost(meta, p.costPer1k, p.rates))
  }

  function ModelItem(p: Pricing, u: Used): Item<string> {
    ItemFor(p, u.meta, ModelOf(u.meta), ModelOf(u.meta))
  }

  function UserItem(p: Pricing, u: Used): Item<string> {
    ItemFor(p, u.meta, UserLabel(u.meta, u.actor).0, UserLabel(u.meta, u.actor).1)
  }

  function TeamItem(p: Pricing, u: Used): Item<string> {
    ItemFor(p, u.meta, TeamLabel(u.meta).0, TeamLabel(u.meta).1)
  }

  /** Asked of dated rows only. */
  function DayItem(p: Pricing, u: Used): Item<int> {
    ItemFor(p, u.meta, if u.day.Some? then u.day.value else 0, "")
  }

  // ----- the summary

  /** The rows that carry metadata. */
  function UsedRows(rows: seq<Row>): seq<Used> {
    if rows == [] then []
    else
      var n := |rows| - 1;
      UsedRows(rows[..n])
      + match rows[n].meta
        case None => []
        case Some(meta) => [Used(meta, rows[n].day, rows[n].actor)]
  }

  function Dated(used: seq<Used>): (r: seq<Used>)
    ensures |r| <= |used| && forall u :: u in r ==> u.day.Some?
  {
    if used == [] then []
    else
      var n := |used| - 1;
      Dated(used[..n]) + if used[n].day.Some? then [used[n]] else []
  }

  function Items<K>(used: seq<Used>, item: Used -> Item<K>): (items: seq<Item<K>>)
    ensures |items| == |used|
  {
    seq(|used|, i requires 0 <= i < |used| => item(used[i]))
  }

  function ByModel(p: Pricing): Used -> Item<string> {
    u => ModelItem(p, u)
  }

  function ByUser(p: Pricing): Used -> Item<string> {
    u => UserItem(p, u)
  }

  function ByTeam(p: Pricing): Used -> Item<string> {
    u => TeamItem(p, u)
  }

  function OnDay(p: Pricing): Used -> Item<int> {
    u => DayItem(p, u)
  }

  function ModelItems(p: Pricing, used: seq<Used>): seq<Item<string>> {
    Items(used, ByModel(p))
  }

  function UserItems(p: Pricing, used: seq<Used>): seq<Item<string>> {
    Items(used, ByUser(p))
  }

  function TeamItems(p: Pricing, used: seq<Used>): seq<Item<string>> {
    Items(used, ByTeam(p))
  }

  function DayItems(p: Pricing, used: seq<Used>): seq<Item<int>> {
    Items(Dated(used), OnDay(p))
  }

  function TotalTokens(used: seq<Used>): int {
    if used == [] then 0 else TotalTokens(used[..|used| - 1]) + used[|used| - 1].meta.totalTokens
  }

  /** The exact sum of the rows' costs. */
  function TotalCost(p: Pricing, used: seq<Used>): real {
    if used == [] then 0.0
    else TotalCost(p, used[..|used| - 1]) + RowCost(used[|used| - 1].meta, p.costPer1k, p.rates)
  }

  datatype Summary = Summary(
    requests: nat, totalTokens: int, totalCostUsd: real, avgCostPerRequestUsd: real, avgTokensPerRequest: real)

  datatype Analytics = Analytics(
    periodDays: int,
    summary: Summary,
    byModel: seq<Bucket<string>>,
    byUser: seq<Bucket<string>>,
    byTeam: seq<Bucket<string>>,
    dailyTrend: seq<Bucket<int>>)

  function Summarized(requests: nat, tokens: int, cost: real): Summary {
    if requests == 0 then Summary(0, tokens, Round4(cost), 0.0, 0.0)
    else Summary(
      requests, tokens, Round4(cost), Round4(cost / requests as real), Round1(tokens as real / requests as real))
  }

  function ByCost(buckets: seq<Bucket<string>>): seq<Bucket<string>> {
    SortBy((b: Bucket<string>) => b.costUsd, buckets)
  }

  function ByDay(buckets: seq<Bucket<int>>): seq<Bucket<int>> {
    SortBy((b: Bucket<int>) => -(b.key as real), buckets)
  }

  function Analyzed(rows: seq<Row>, p: Pricing, periodDays: int): Analytics {
    var used := UsedRows(rows);
    Analytics(
      periodDays,
      Summarized(|used|, TotalTokens(used), TotalCost(p, used)),
      ByCost(Fold(ModelItems(p, used))),
      ByCost(Fold(UserItems(p, used))),
      ByCost(Fold(TeamItems(p, used))),
      ByDay(Fold(DayItems(p, used))))
  }

  lemma ItemsAppend<K>(used: seq<Used>, u: Used, item: Used -> Item<K>)
    ensures Items(used + [u], item)[..|used|] == Items(used, item)
    ensures Fold(Items(used + [u], item)) == Put(Fold(Items(used, item)), item(u))
  {
    var items := Items(used + [u], item);
    assert items[..|used|] == Items(used, item);
    assert items[|used|] == item(u);
  }

  lemma UsedAppend(rows: seq<Row>, n: nat)
    requires n < |rows|
    ensures
      UsedRows(rows[..n + 1]) ==
        match rows[n].meta
        case None => UsedRows(rows[..n])
        case Some(meta) => UsedRows(rows[..n]) + [Used(meta, rows[n].day, rows[n].actor)]
  {
    assert rows[..n + 1][..n] == rows[..n];
    assert UsedRows(rows[..n]) + [] == UsedRows(rows[..n]);
  }

  lemma TotalsAppend(p: Pricing, used: seq<Used>, u: Used)
    ensures TotalTokens(used + [u]) == TotalTokens(used) + u.meta.totalTokens
    ensures TotalCost(p, used + [u]) == TotalCost(p, used) + RowCost(u.meta, p.costPer1k, p.rates)
    ensures Dated(used + [u]) == if u.day.Some? then Dated(used) + [u] else Dated(used)
  {
    assert (used + [u])[..|used|] == used;
    assert Dated(used) + [] == Dated(used);
  }

  /** The pass over the rows, with its four dictionaries and its running totals. */
  method SummarizeUsageRows(rows: seq<Row>, p: Pricing, periodDays: int) returns (r: Analytics)
    ensures r == Analyzed(rows, p, periodDays)
  {
    hide RowCost, UserLabel, TeamLabel, Put, Fold, Items, Dated, UsedRows, TotalTokens, TotalCost, SortBy, DistinctKeys;
    NothingUsed(p);
    var byModel := new Buckets<string>();
    var byUser := new Buckets<string>();
    var byTeam := new Buckets<string>();
    var daily := new Buckets<int>();
    var requests, tokens, cost := 0, 0, 0.0;
    for n := 0 to |rows|
      invariant fresh(byModel) && fresh(byUser) && fresh(byTeam) && fresh(daily)
      invariant byModel != byUser && byModel != byTeam && byUser != byTeam
      invariant
        var used := UsedRows(rows[..n]);
        && requests == |used| && tokens == TotalTokens(used) && cost == TotalCost(p, used)
        && byModel.entries == Fold(ModelItems(p, used))
        && byUser.entries == Fold(UserItems(p, used))
        && byTeam.entries == Fold(TeamItems(p, used))
        && daily.entries == Fold(DayItems(p, used))
    {
      UsedAppend(rows, n);
      ghost var used := UsedRows(rows[..n]);
      if rows[n].meta.Some? {
        var u := Used(rows[n].meta.value, rows[n].day, rows[n].actor);
        TotalsAppend(p, used, u);
        requests := requests + 1;
        ItemsAppend(used, u, ByModel(p));
        byModel.Accumulate(ModelItem(p, u));
        ItemsAppend(used, u, ByUser(p));
        byUser.Accumulate(UserItem(p, u));
        ItemsAppend(used, u, ByTeam(p));
        byTeam.Accumulate(TeamItem(p, u));
        tokens := tokens + u.meta.totalTokens;
        cost := cost + RowCost(u.meta, p.costPer1k, p.rates);
        if u.day.Some? {
          ItemsAppend(Dated(used), u, OnDay(p));
          daily.Accumulate(DayItem(p, u));
        }
      }
    }
    assert rows[..|rows|] == rows;
    r := Analytics(periodDays, Summarized(requests, tokens, cost),
                   ByCost(byModel.entries), ByCost(byUser.entries), ByCost(byTeam.entries), ByDay(daily.entries));
  }

  lemma NothingUsed(p: Pricing)
    ensures UsedRows([]) == [] && TotalTokens([]) == 0 && TotalCost(p, []) == 0.0 && Dated([]) == []
    ensures Fold(ModelItems(p, [])) == [] && Fold(UserItems(p, [])) == [] && Fold(TeamItems(p, [])) == []
    ensures Fold(DayItems(p, [])) == []
  {
  }
}
