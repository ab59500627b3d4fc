/** Dictionaries of cost buckets, and the sums that accumulating into them keeps. */
module CostBuckets {
  import opened Rounding

  /** What one request adds to the bucket of its key. */
  datatype Item<K> = Item(key: K, title: string, prompt: int, completion: int, tokens: int, cost: real)

  datatype Bucket<K> = Bucket(
    key: K,
    title: string,
    requests: nat,
    promptTokens: int,
    completionTokens: int,
    totalTokens: int,
    costUsd: real)

  function EmptyBucket<K>(key: K, title: string): Bucket<K> {
    Bucket(key, title, 0, 0, 0, 0, 0.0)
  }

  /** The cost is rounded to four places at every step. */
  function Accumulated<K>(b: Bucket<K>, item: Item<K>): Bucket<K> {
    Bucket(b.key, b.title, b.requests + 1, b.promptTokens + item.prompt, b.completionTokens + item.completion,
           b.totalTokens + item.tokens, Round4(b.costUsd + item.cost))
  }

  ghost predicate DistinctKeys<K>(buckets: seq<Bucket<K>>) {
    forall i, j :: 0 <= i < j < |buckets| ==> buckets[i].key != buckets[j].key
  }

  /** The position of a key, or the length when it is missing. */
  function Position<K(==)>(buckets: seq<Bucket<K>>, key: K): (i: nat)
    ensures i <= |buckets|
    ensures i < |buckets| ==> buckets[i].key == key
    ensures forall j :: 0 <= j < i ==> buckets[j].key != key
  {
    if buckets == [] then 0
    else
      var n := |buckets| - 1;
      var i := Position(buckets[..n], key);
      assert forall j :: 0 <= j < n ==> buckets[..n][j] == buckets[j];
      if i < n then i else if buckets[n].key == key then n else n + 1
  }

  /** The buckets after one more item; a new key goes to the end. */
  function Put<K(==)>(buckets: seq<Bucket<K>>, item: Item<K>): (r: seq<Bucket<K>>)
    requires DistinctKeys(buckets)
    ensures DistinctKeys(r)
  {
    var i := Position(buckets, item.key);
    if i < |buckets| then buckets[i := Accumulated(buckets[i], item)]
    else buckets + [Accumulated(EmptyBucket(item.key, item.title), item)]
  }

  /** The buckets of a list of items. */
  function Fold<K(==)>(items: seq<Item<K>>): (r: seq<Bucket<K>>)
    ensures DistinctKeys(r)
  {
    if items == [] then [] else Put(Fold(items[..|items| - 1]), items[|items| - 1])
  }

  /** The source's dictionary of buckets, whose entries it changes in place. */
  class Buckets<K(==)> {
    var entries: seq<Bucket<K>>

    constructor ()
      ensures entries == []
    {
      entries := [];
    }

    method Accumulate(item: Item<K>)
      requires DistinctKeys(entries)
      modifies this
      ensures entries == Put(old(entries), item)
    {
      var i := Position(entries, item.key);
      if i == |entries| {
        entries := entries + [EmptyBucket(item.key, item.title)];
      }
      entries := entries[i := Accumulated(entries[i], item)];
    }
  }

  // ----- sums

  function Requests<K>(buckets: seq<Bucket<K>>): nat {
    if buckets == [] then 0 else Requests(buckets[..|buckets| - 1]) + buckets[|buckets| - 1].requests
  }

  function Tokens<K>(buckets: seq<Bucket<K>>): int {
    if buckets == [] then 0 else Tokens(buckets[..|buckets| - 1]) + buckets[|buckets| - 1].totalTokens
  }

  function Cost<K>(buckets: seq<Bucket<K>>): real {
    if buckets == [] then 0.0 else Cost(buckets[..|buckets| - 1]) + buckets[|buckets| - 1].costUsd
  }

  function ItemTokens<K>(items: seq<Item<K>>): int {
    if items == [] then 0 else ItemTokens(items[..|items| - 1]) + items[|items| - 1].tokens
  }

  function ItemCost<K>(items: seq<Item<K>>): real {
    if items == [] then 0.0 else ItemCost(items[..|items| - 1]) + items[|items| - 1].cost
  }

  /** Changing one bucket changes the sums by the difference. */
  lemma {:induction false} SumsUpdate<K>(buckets: seq<Bucket<K>>, i: nat, b: Bucket<K>)
    requires i < |buckets|
    ensures Requests(buckets[i := b]) == Requests(buckets) - buckets[i].requests + b.requests
    ensures Tokens(buckets[i := b]) == Tokens(buckets) - buckets[i].totalTokens + b.totalTokens
    ensures Cost(buckets[i := b]) == Cost(buckets) - buckets[i].costUsd + b.costUsd
  {
    var n := |buckets| - 1;
    if i == n {
      assert buckets[i := b][..n] == buckets[..n];
    } else {
      SumsUpdate(buckets[..n], i, b);
      assert buckets[i := b][..n] == buckets[..n][i := b];
    }
  }

  lemma SumsAppend<K>(buckets: seq<Bucket<K>>, b: Bucket<K>)
    ensures Requests(buckets + [b]) == Requests(buckets) + b.requests
    ensures Tokens(buckets + [b]) == Tokens(buckets) + b.totalTokens
    ensures Cost(buckets + [b]) == Cost(buckets) + b.costUsd
  {
    assert (buckets + [b])[..|buckets|] == buckets;
  }

  lemma PutSums<K>(buckets: seq<Bucket<K>>, item: Item<K>)
    requires DistinctKeys(buckets)
    ensures
      var after := Put(buckets, item);
      && Requests(after) == Requests(buckets) + 1
      && Tokens(after) == Tokens(buckets) + item.tokens
      && -0.00005 <= Cost(after) - Cost(buckets) - item.cost <= 0.00005
  {
    hide Requests, Tokens, Cost, DistinctKeys, Round4;
    var i := Position(buckets, item.key);
    if i < |buckets| {
      SumsUpdate(buckets, i, Accumulated(buckets[i], item));
    } else {
      SumsAppend(buckets, Accumulated(EmptyBucket(item.key, item.title), item));
    }
  }

  /**
    Over all buckets, requests and tokens are exactly those of the items, and each
    rounding moves the summed cost by at most half a unit of the fourth place.
  */
  lemma {:induction false} FoldConserves<K>(items: seq<Item<K>>)
    ensures Requests(Fold(items)) == |items|
    ensures Tokens(Fold(items)) == ItemTokens(items)
    ensures Abs(Cost(Fold(items)) - ItemCost(items)) <= |items| as real * 0.00005
  {
    if items != [] {
      var n := |items| - 1;
      FoldConserves(items[..n]);
      hide Put;
      PutSums(Fold(items[..n]), items[n]);
    }
  }

  // ----- one bucket

  /** The items of one key, in order. */
  function Of<K(==)>(items: seq<Item<K>>, key: K): seq<Item<K>> {
    if items == [] then []
    else
      var n := |items| - 1;
      Of(items[..n], key) + if items[n].key == key then [items[n]] else []
  }

  /** The cost of a bucket: every item's cost added and rounded in turn. */
  function RoundedCost<K>(items: seq<Item<K>>): real {
    if items == [] then 0.0 else Round4(RoundedCost(items[..|items| - 1]) + items[|items| - 1].cost)
  }

  function PromptTokens<K>(items: seq<Item<K>>): int {
    if items == [] then 0 else PromptTokens(items[..|items| - 1]) + items[|items| - 1].prompt
  }

  function CompletionTokens<K>(items: seq<Item<K>>): int {
    if items == [] then 0 else CompletionTokens(items[..|items| - 1]) + items[|items| - 1].completion
  }

  /** The bucket that the items of one key come to, whatever else there is. */
  function BucketOf<K>(own: seq<Item<K>>): Bucket<K>
    requires own != []
  {
    Bucket(own[0].key, own[0].title, |own|, PromptTokens(own), CompletionTokens(own), ItemTokens(own), RoundedCost(own))
  }

  lemma BucketOfAppend<K>(own: seq<Item<K>>, item: Item<K>)
    ensures own != [] ==> BucketOf(own + [item]) == Accumulated(BucketOf(own), item)
    ensures own == [] ==> BucketOf(own + [item]) == Accumulated(EmptyBucket(item.key, item.title), item)
  {
    assert (own + [item])[..|own|] == own;
    if own == [] {
      assert PromptTokens(own) == CompletionTokens(own) == ItemTokens(own) == 0 && RoundedCost(own) == 0.0;
    }
  }

  lemma OfAppend<K>(items: seq<Item<K>>, key: K)
    requires items != []
    ensures
      var n := |items| - 1;
      Of(items, key) == if items[n].key == key then Of(items[..n], key) + [items[n]] else Of(items[..n], key)
  {
    assert Of(items[..|items| - 1], key) + [] == Of(items[..|items| - 1], key);
  }

  ghost predicate Holds<K>(buckets: seq<Bucket<K>>, items: seq<Item<K>>, key: K) {
    var i := Position(buckets, key);
    if Of(items, key) == [] then i == |buckets| else i < |buckets| && buckets[i] == BucketOf(Of(items, key))
  }

  lemma PositionIs<K>(buckets: seq<Bucket<K>>, key: K, i: nat)
    requires DistinctKeys(buckets) && i < |buckets| && buckets[i].key == key
    ensures Position(buckets, key) == i
  {
  }

  /** The bucket of the item's own key is created or added to. */
  lemma PutOwn<K>(buckets: seq<Bucket<K>>, items: seq<Item<K>>)
    requires DistinctKeys(buckets) && items != []
    requires Holds(buckets, items[..|items| - 1], items[|items| - 1].key)
    ensures Holds(Put(buckets, items[|items| - 1]), items, items[|items| - 1].key)
  {
    var n := |items| - 1;
    var item, after := items[n], Put(buckets, items[n]);
    OfAppend(items, item.key);
    BucketOfAppend(Of(items[..n], item.key), item);
    hide BucketOf, Of, Accumulated;
    var i := Position(buckets, item.key);
    AccumulatedKey(EmptyBucket(item.key, item.title), item);
    if i < |buckets| { AccumulatedKey(buckets[i], item); }
    PositionIs(after, item.key, i);
  }

  /** A bucket of another key stays as it is. */
  lemma PutElsewhere<K>(buckets: seq<Bucket<K>>, item: Item<K>, key: K)
    requires DistinctKeys(buckets) && item.key != key
    ensures
      var i, after := Position(buckets, key), Put(buckets, item);
      if i < |buckets| then Position(after, key) == i < |after| && after[i] == buckets[i]
      else Position(after, key) == |after|
  {
    hide Accumulated;
    var i, j, after := Position(buckets, key), Position(buckets, item.key), Put(buckets, item);
    if j < |buckets| {
      AccumulatedKey(buckets[j], item);
    } else {
      AccumulatedKey(EmptyBucket(item.key, item.title), item);
    }
    if i < |buckets| { PositionIs(after, key, i); }
  }

  lemma PutHolds<K>(buckets: seq<Bucket<K>>, items: seq<Item<K>>, key: K)
    requires DistinctKeys(buckets) && items != []
    requires Holds(buckets, items[..|items| - 1], key) && Holds(buckets, items[..|items| - 1], items[|items| - 1].key)
    ensures Holds(Put(buckets, items[|items| - 1]), items, key)
  {
    hide BucketOf, Of, Put, Position, DistinctKeys;
    var item := items[|items| - 1];
    if item.key == key {
      PutOwn(buckets, items);
    } else {
      OfAppend(items, key);
      PutElsewhere(buckets, item, key);
    }
  }

  lemma AccumulatedKey<K>(b: Bucket<K>, item: Item<K>)
    ensures Accumulated(b, item).key == b.key
  {
  }

  /** Every bucket is the one its own items come to, and there is none without items. */
  lemma {:induction false} FoldByKey<K>(items: seq<Item<K>>, key: K)
    ensures Holds(Fold(items), items, key)
  {
    if items == [] {
      assert Of(items, key) == [];
    } else {
      var n := |items| - 1;
      FoldByKey(items[..n], key);
      FoldByKey(items[..n], items[n].key);
      PutHolds(Fold(items[..n]), items, key);
    }
  }
}
