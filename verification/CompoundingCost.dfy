/** Savings stacked up from compression, tool filtering and cheaper routing. */
module CompoundingCost {
  import opened Wrappers
  import opened Rounding
  import opened UsageCost

  /** One layer's payload: whether it was enabled, and the tokens before and after. */
  datatype Payload = Payload(enabled: bool, originalTokens: int, compressedTokens: int)

  /** A usage row; a payload that is missing or no dictionary is None. */
  datatype Row = Row(tokenSaving: Option<Payload>, dynamicTools: Option<Payload>, model: string, totalTokens: int)

  function LayerTokensSaved(payload: Option<Payload>): nat {
    match payload
    case None => 0
    case Some(p) => if p.enabled then NonNegative(p.originalTokens - p.compressedTokens) else 0
  }

  datatype Layer = Layer(tokensSaved: int, estimatedUsd: real, requests: nat, sharePct: real)

  datatype Savings = Savings(compression: Layer, tools: Layer, routing: Layer, totalTokens: int, totalUsd: real)

  /** The rows that are dictionaries. */
  function Dictionaries(rows: seq<Option<Row>>): seq<Row> {
    if rows == [] then []
    else
      Dictionaries(rows[..|rows| - 1])
      + match rows[|rows| - 1]
        case None => []
        case Some(row) => [row]
  }

  /** Running totals of one layer. */
  datatype Tally = Tally(tokens: int, requests: nat, usd: real)

  const NOTHING := Tally(0, 0, 0.0)

  function Saved(t: Tally, payload: Option<Payload>): Tally {
    var saved := LayerTokensSaved(payload);
    if saved == 0 then t else Tally(t.tokens + saved, t.requests + 1, t.usd)
  }

  /** A row is routed cheaply when its model costs less than the baseline. */
  function RoutingUsd(row: Row, costPer1k: real): real {
    var rate := ModelRate(row.model, costPer1k);
    if rate < costPer1k && row.totalTokens > 0 then Usd(row.totalTokens, costPer1k - rate) else 0.0
  }

  function Routed(t: Tally, row: Row, costPer1k: real): Tally {
    if ModelRate(row.model, costPer1k) < costPer1k && row.totalTokens > 0
    then Tally(t.tokens + row.totalTokens, t.requests + 1, t.usd + RoutingUsd(row, costPer1k))
    else t
  }

  function Compression(rows: seq<Row>): Tally {
    if rows == [] then NOTHING else Saved(Compression(rows[..|rows| - 1]), rows[|rows| - 1].tokenSaving)
  }

  function Tools(rows: seq<Row>): Tally {
    if rows == [] then NOTHING else Saved(Tools(rows[..|rows| - 1]), rows[|rows| - 1].dynamicTools)
  }

  function Routing(rows: seq<Row>, costPer1k: real): Tally {
    if rows == [] then NOTHING else Routed(Routing(rows[..|rows| - 1], costPer1k), rows[|rows| - 1], costPer1k)
  }

  function Share(usd: real, total: real): real {
    if total > 0.0 then Round1(usd / total * 100.0) else 0.0
  }

  function Stacked(c: Tally, t: Tally, r: Tally, costPer1k: real): Savings {
    var compressionUsd, toolsUsd, routingUsd := Usd(c.tokens, costPer1k), Usd(t.tokens, costPer1k), Round4(r.usd);
    var total := Round4(compressionUsd + toolsUsd + routingUsd);
    Savings(
      Layer(c.tokens, compressionUsd, c.requests, Share(compressionUsd, total)),
      Layer(t.tokens, toolsUsd, t.requests, Share(toolsUsd, total)),
      Layer(r.tokens, routingUsd, r.requests, Share(routingUsd, total)),
      c.tokens + t.tokens,
      total)
  }

  function Summary(rows: seq<Option<Row>>, costPer1k: real): Savings {
    var used := Dictionaries(rows);
    Stacked(Compression(used), Tools(used), Routing(used, costPer1k), costPer1k)
  }

  method SummarizeCompoundingSavings(rows: seq<Option<Row>>, costPer1k: real) returns (s: Savings)
    ensures s == Summary(rows, costPer1k)
  {
    hide LayerTokensSaved, ModelRate;
    var compression, tools, routing := NOTHING, NOTHING, NOTHING;
    ghost var used: seq<Row> := [];
    for n := 0 to |rows|
      invariant used == Dictionaries(rows[..n])
      invariant compression == Compression(used) && tools == Tools(used) && routing == Routing(used, costPer1k)
    {
      assert rows[..n + 1][..n] == rows[..n];
      if rows[n].Some? {
        var row := rows[n].value;
        assert (used + [row])[..|used|] == used;
        used := used + [row];
        compression := Saved(compression, row.tokenSaving);
        tools := Saved(tools, row.dynamicTools);
        routing := Routed(routing, row, costPer1k);
      } else {
        assert used + [] == used;
      }
    }
    assert rows[..|rows|] == rows;
    s := Stacked(compression, tools, routing, costPer1k);
  }

  // ----- row by row

  function Plus(a: Tally, b: Tally): Tally {
    Tally(a.tokens + b.tokens, a.requests + b.requests, a.usd + b.usd)
  }

  lemma SavedPlus(t: Tally, payload: Option<Payload>)
    ensures Saved(t, payload) == Plus(t, Saved(NOTHING, payload))
  {
    hide LayerTokensSaved;
  }

  lemma RoutedPlus(t: Tally, row: Row, costPer1k: real)
    ensures Routed(t, row, costPer1k) == Plus(t, Routed(NOTHING, row, costPer1k))
  {
    hide RoutingUsd, ModelRate;
  }

  lemma PlusAssociates(a: Tally, b: Tally, c: Tally)
    ensures Plus(a, Plus(b, c)) == Plus(Plus(a, b), c) && Plus(a, NOTHING) == a
  {
  }

  lemma LastRow(rows: seq<Row>, row: Row, costPer1k: real)
    ensures Compression(rows + [row]) == Plus(Compression(rows), Saved(NOTHING, row.tokenSaving))
    ensures Tools(rows + [row]) == Plus(Tools(rows), Saved(NOTHING, row.dynamicTools))
    ensures Routing(rows + [row], costPer1k) == Plus(Routing(rows, costPer1k), Routed(NOTHING, row, costPer1k))
  {
    hide Saved, Routed, Plus;
    assert (rows + [row])[..|rows|] == rows;
    SavedPlus(Compression(rows), row.tokenSaving);
    SavedPlus(Tools(rows), row.dynamicTools);
    RoutedPlus(Routing(rows, costPer1k), row, costPer1k);
  }

  lemma NoRows(costPer1k: real)
    ensures Compression([]) == Tools([]) == Routing([], costPer1k) == NOTHING
  {
  }

  /** Every layer's totals are those of its rows added up. */
  lemma {:induction false} TalliesAddUp(a: seq<Row>, b: seq<Row>, costPer1k: real)
    ensures Compression(a + b) == Plus(Compression(a), Compression(b))
    ensures Tools(a + b) == Plus(Tools(a), Tools(b))
    ensures Routing(a + b, costPer1k) == Plus(Routing(a, costPer1k), Routing(b, costPer1k))
    decreases |b|
  {
    hide *;
    if b == [] {
      assert a + b == a;
      NoRows(costPer1k);
      PlusAssociates(Compression(a), NOTHING, NOTHING);
      PlusAssociates(Tools(a), NOTHING, NOTHING);
      PlusAssociates(Routing(a, costPer1k), NOTHING, NOTHING);
    } else {
      var init, row := b[..|b| - 1], b[|b| - 1];
      assert b == init + [row] && a + b == (a + init) + [row];
      TalliesAddUp(a, init, costPer1k);
      LastRow(a + init, row, costPer1k);
      LastRow(init, row, costPer1k);
      PlusAssociates(Compression(a), Compression(init), Saved(NOTHING, row.tokenSaving));
      PlusAssociates(Tools(a), Tools(init), Saved(NOTHING, row.dynamicTools));
      PlusAssociates(Routing(a, costPer1k), Routing(init, costPer1k), Routed(NOTHING, row, costPer1k));
    }
  }

  /** A row's share in a layer of its own: the tokens an enabled payload saved, and one request if it saved any. */
  predicate SavesAs(t: Tally, payload: Option<Payload>) {
    match payload
    case Some(Payload(true, original, compressed)) =>
      if original > compressed then t == Tally(original - compressed, 1, 0.0) else t == NOTHING
    case _ => t == NOTHING
  }

  /** What so many tokens cost. */
  function Worth(tokens: int, costPer1k: real): real {
    NonNegative(tokens) as real / 1000.0 * costPer1k
  }

  lemma UsdIsWorth(tokens: int, costPer1k: real)
    ensures Abs(Usd(tokens, costPer1k) - Worth(tokens, costPer1k)) <= 0.00005
  {
    hide Usd;
  }

  /**
    What one row contributes to each layer: to routing all its tokens, when its model is
    cheaper than the baseline, and the difference in price to within its rounding.
  */
  lemma OneRowTallies(row: Row, costPer1k: real)
    ensures SavesAs(Compression([row]), row.tokenSaving) && SavesAs(Tools([row]), row.dynamicTools)
    ensures
      var t, rate := Routing([row], costPer1k), ModelRate(row.model, costPer1k);
      if rate < costPer1k && row.totalTokens > 0 then
        && t.tokens == row.totalTokens && t.requests == 1
        && Abs(t.usd - Worth(row.totalTokens, costPer1k - rate)) <= 0.00005
      else t == NOTHING
  {
    hide ModelRate, Usd, Worth;
    UsdIsWorth(row.totalTokens, costPer1k - ModelRate(row.model, costPer1k));
    assert [row][..0] == [];
    assert Compression([]) == Tools([]) == Routing([], costPer1k) == NOTHING;
  }

  /** Rows that are no dictionaries are passed over, and only those. */
  lemma {:induction false} DictionariesAre(a: seq<Option<Row>>, b: seq<Option<Row>>, row: Option<Row>)
    ensures Dictionaries(a + b) == Dictionaries(a) + Dictionaries(b)
    ensures Dictionaries([row]) == match row case None => [] case Some(r) => [r]
    decreases |b|
  {
    assert [row][..0] == [] && Dictionaries([]) == [];
    if b == [] {
      assert a + b == a;
    } else {
      var n := |b| - 1;
      assert (a + b)[..|a| + n] == a + b[..n];
      DictionariesAre(a, b[..n], row);
    }
  }

  /** The share is the layer's own part of the total in percent, to within its rounding; of nothing it is none. */
  predicate SharesOf(layer: Layer, total: real) {
    if total > 0.0 then Abs(layer.sharePct - layer.estimatedUsd / total * 100.0) <= 0.05 else layer.sharePct == 0.0
  }

  lemma SharesAre(usd: real, total: real)
    ensures if total > 0.0 then Abs(Share(usd, total) - usd / total * 100.0) <= 0.05 else Share(usd, total) == 0.0
  {
    hide Round1;
  }

  /** What is shown of each layer: its tokens and requests, and its worth and its share to within their rounding. */
  lemma LayersShow(rows: seq<Option<Row>>, costPer1k: real)
    ensures
      var s, used := Summary(rows, costPer1k), Dictionaries(rows);
      var c, t, r := Compression(used), Tools(used), Routing(used, costPer1k);
      && s.compression.tokensSaved == c.tokens && s.compression.requests == c.requests
      && s.tools.tokensSaved == t.tokens && s.tools.requests == t.requests
      && s.routing.tokensSaved == r.tokens && s.routing.requests == r.requests
      && Abs(s.compression.estimatedUsd - Worth(c.tokens, costPer1k)) <= 0.00005
      && Abs(s.tools.estimatedUsd - Worth(t.tokens, costPer1k)) <= 0.00005
      && Abs(s.routing.estimatedUsd - r.usd) <= 0.00005
      && SharesOf(s.compression, s.totalUsd) && SharesOf(s.tools, s.totalUsd) && SharesOf(s.routing, s.totalUsd)
  {
    var used := Dictionaries(rows);
    UsdIsWorth(Compression(used).tokens, costPer1k);
    UsdIsWorth(Tools(used).tokens, costPer1k);
    var s := Summary(rows, costPer1k);
    SharesAre(s.compression.estimatedUsd, s.totalUsd);
    SharesAre(s.tools.estimatedUsd, s.totalUsd);
    SharesAre(s.routing.estimatedUsd, s.totalUsd);
    hide Compression, Tools, Routing, Dictionaries, Round4, Share, Usd, Worth, Whole4, NonNegative;
  }

  // ----- what the totals mean

  lemma {:induction false} RoutingWhole(rows: seq<Row>, costPer1k: real)
    ensures Whole4(Routing(rows, costPer1k).usd)
  {
    hide Whole4, ModelRate, Usd;
    if rows == [] {
      ZeroWhole();
    } else {
      var before := Routing(rows[..|rows| - 1], costPer1k);
      RoutingWhole(rows[..|rows| - 1], costPer1k);
      var last := rows[|rows| - 1];
      Whole4Sum(before.usd, Usd(last.totalTokens, costPer1k - ModelRate(last.model, costPer1k)));
    }
  }

  lemma ZeroWhole()
    ensures Whole4(0.0)
  {
  }

  /** Nothing is lost when the layers are added up: the total is exactly the sum of what is shown for each. */
  lemma LayersAddUp(rows: seq<Option<Row>>, costPer1k: real)
    ensures
      var s := Summary(rows, costPer1k);
      && s.totalUsd == s.compression.estimatedUsd + s.tools.estimatedUsd + s.routing.estimatedUsd
      && s.totalTokens == s.compression.tokensSaved + s.tools.tokensSaved
      && s.routing.estimatedUsd == Routing(Dictionaries(rows), costPer1k).usd
  {
    hide Whole4, Routing, Round4, Usd, ModelRate;
    var used := Dictionaries(rows);
    RoutingWhole(used, costPer1k);
    var compression, tools := Usd(Compression(used).tokens, costPer1k), Usd(Tools(used).tokens, costPer1k);
    Whole4Sum(compression, tools);
    Whole4Sum(compression + tools, Routing(used, costPer1k).usd);
  }

  lemma SharesOfWhole(a: real, b: real, c: real, total: real)
    requires total > 0.0 && total == a + b + c
    ensures a / total * 100.0 + b / total * 100.0 + c / total * 100.0 == 100.0
  {
    assert a / total + b / total + c / total == (a + b + c) / total;
  }

  /** Where anything was saved, the shown shares make up the whole, to within their three roundings. */
  lemma SharesMakeWhole(rows: seq<Option<Row>>, costPer1k: real)
    ensures
      var s := Summary(rows, costPer1k);
      s.totalUsd > 0.0 ==> Abs(s.compression.sharePct + s.tools.sharePct + s.routing.sharePct - 100.0) <= 0.15
  {
    LayersAddUp(rows, costPer1k);
    hide Compression, Tools, Routing, Round1, Round4, Usd, Dictionaries;
    var s := Summary(rows, costPer1k);
    if s.totalUsd > 0.0 {
      SharesOfWhole(s.compression.estimatedUsd, s.tools.estimatedUsd, s.routing.estimatedUsd, s.totalUsd);
    }
  }

  // ----- savings against what was spent

  /** What the rows would have cost at the baseline rate. */
  function BaselineCost(rows: seq<Row>, costPer1k: real): real {
    if rows == [] then 0.0
    else BaselineCost(rows[..|rows| - 1], costPer1k) + Usd(rows[|rows| - 1].totalTokens, costPer1k)
  }

  function ActualUsd(row: Row, costPer1k: real): real {
    Usd(row.totalTokens, ModelRate(row.model, costPer1k))
  }

  function ActualCost(rows: seq<Row>, costPer1k: real): real {
    if rows == [] then 0.0 else ActualCost(rows[..|rows| - 1], costPer1k) + ActualUsd(rows[|rows| - 1], costPer1k)
  }

  /** What a row on a dearer model cost on top. */
  function SurchargeUsd(row: Row, costPer1k: real): real {
    if ModelRate(row.model, costPer1k) > costPer1k then ActualUsd(row, costPer1k) - Usd(row.totalTokens, costPer1k)
    else 0.0
  }

  function Surcharge(rows: seq<Row>, costPer1k: real): real {
    if rows == [] then 0.0 else Surcharge(rows[..|rows| - 1], costPer1k) + SurchargeUsd(rows[|rows| - 1], costPer1k)
  }

  lemma UsdDifference(tokens: int, a: real, b: real)
    ensures Abs(Usd(tokens, a) - Usd(tokens, b) - Usd(tokens, a - b)) <= 0.00015
    ensures tokens <= 0 ==> Usd(tokens, a) == 0.0
  {
    UsdIsWorth(tokens, a);
    UsdIsWorth(tokens, b);
    UsdIsWorth(tokens, a - b);
    WorthDifference(tokens, a, b);
    if tokens <= 0 { NothingIsFree(tokens, a); }
    hide Usd, Worth;
  }

  lemma WorthDifference(tokens: int, a: real, b: real)
    ensures Worth(tokens, a - b) == Worth(tokens, a) - Worth(tokens, b)
  {
    var t := NonNegative(tokens) as real / 1000.0;
    assert t * (a - b) == t * a - t * b;
  }

  lemma NothingIsFree(tokens: int, a: real)
    requires tokens <= 0
    ensures Usd(tokens, a) == 0.0
  {
    hide Round4;
    assert NonNegative(tokens) as real / 1000.0 * a == 0.0;
    ZeroWhole();
  }

  /** The difference to the baseline without the surcharge, against the savings of the row. */
  function RowGap(row: Row, costPer1k: real): real {
    Usd(row.totalTokens, costPer1k) - ActualUsd(row, costPer1k)
    + SurchargeUsd(row, costPer1k) - RoutingUsd(row, costPer1k)
  }

  function Gap(rows: seq<Row>, costPer1k: real): real {
    BaselineCost(rows, costPer1k) - ActualCost(rows, costPer1k)
    + Surcharge(rows, costPer1k) - Routing(rows, costPer1k).usd
  }

  lemma RowAccounts(row: Row, costPer1k: real)
    ensures Abs(RowGap(row, costPer1k)) <= 0.00015
  {
    hide ModelRate, Usd;
    UsdDifference(row.totalTokens, costPer1k, ModelRate(row.model, costPer1k));
    UsdDifference(row.totalTokens, ModelRate(row.model, costPer1k), costPer1k);
  }

  lemma GapStep(rows: seq<Row>, costPer1k: real)
    requires rows != []
    ensures Gap(rows, costPer1k) == Gap(rows[..|rows| - 1], costPer1k) + RowGap(rows[|rows| - 1], costPer1k)
  {
    hide ModelRate, Usd, ActualUsd, SurchargeUsd;
  }

  lemma NoGap(costPer1k: real)
    ensures Gap([], costPer1k) == 0.0
  {
  }

  /**
    The routing savings are the difference to the baseline, to within three roundings
    for each row, once the surcharge of dearer models is left out of it: that is
    never set against the savings.
  */
  lemma {:induction false} RoutingAccounts(rows: seq<Row>, costPer1k: real)
    ensures Abs(Gap(rows, costPer1k)) <= |rows| as real * 0.00015
  {
    hide Gap, RowGap;
    if rows == [] {
      NoGap(costPer1k);
    } else {
      var n := |rows| - 1;
      RoutingAccounts(rows[..n], costPer1k);
      RowAccounts(rows[n], costPer1k);
      GapStep(rows, costPer1k);
      assert (n + 1) as real * 0.00015 == n as real * 0.00015 + 0.00015;
    }
  }
}
