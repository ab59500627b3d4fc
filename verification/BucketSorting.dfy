/** Sorting buckets: highest rank first, entries of one rank in their old order. */
module BucketSorting {
  import opened CostBuckets

  /** Puts `b` behind the last entry that ranks at least as high. */
  function Insert<K>(rank: Bucket<K> -> real, sorted: seq<Bucket<K>>, b: Bucket<K>): seq<Bucket<K>> {
    if sorted == [] then [b]
    else
      var n := |sorted| - 1;
      if rank(sorted[n]) >= rank(b) then sorted + [b] else Insert(rank, sorted[..n], b) + [sorted[n]]
  }

  /** `sorted(..., reverse=True)`. */
  function SortBy<K>(rank: Bucket<K> -> real, buckets: seq<Bucket<K>>): seq<Bucket<K>> {
    if buckets == [] then []
    else Insert(rank, SortBy(rank, buckets[..|buckets| - 1]), buckets[|buckets| - 1])
  }

  ghost predicate Descending<K>(rank: Bucket<K> -> real, s: seq<Bucket<K>>) {
    forall i, j :: 0 <= i < j < |s| ==> rank(s[i]) >= rank(s[j])
  }

  /** The entries of one rank, in order. */
  function AtRank<K>(rank: Bucket<K> -> real, s: seq<Bucket<K>>, r: real): seq<Bucket<K>> {
    if s == [] then []
    else AtRank(rank, s[..|s| - 1], r) + if rank(s[|s| - 1]) == r then [s[|s| - 1]] else []
  }

  lemma AtRankAppend<K>(rank: Bucket<K> -> real, s: seq<Bucket<K>>, b: Bucket<K>, r: real)
    ensures AtRank(rank, s + [b], r) == if rank(b) == r then AtRank(rank, s, r) + [b] else AtRank(rank, s, r)
  {
    assert (s + [b])[..|s|] == s;
    assert AtRank(rank, s, r) + [] == AtRank(rank, s, r);
  }

  lemma {:induction false} InsertSorts<K>(rank: Bucket<K> -> real, s: seq<Bucket<K>>, b: Bucket<K>, r: real)
    requires Descending(rank, s)
    ensures
      var after := Insert(rank, s, b);
      && Descending(rank, after)
      && AtRank(rank, after, r) == AtRank(rank, s + [b], r)
      && multiset(after) == multiset(s) + multiset{b}
      && Requests(after) == Requests(s) + b.requests
      && Tokens(after) == Tokens(s) + b.totalTokens
      && Cost(after) == Cost(s) + b.costUsd
  {
    if s == [] || rank(s[|s| - 1]) >= rank(b) {
      InsertLast(rank, s, b);
      assert Insert(rank, s, b) == s + [b];
    } else {
      var init, last := s[..|s| - 1], s[|s| - 1];
      assert s == init + [last];
      assert Insert(rank, s, b) == Insert(rank, init, b) + [last];
      hide Insert, AtRank, Requests, Tokens, Cost;
      InsertSorts(rank, init, b, r);
      InsertInside(rank, init, last, b, r);
    }
  }

  /** Insertion at the end. */
  lemma InsertLast<K>(rank: Bucket<K> -> real, s: seq<Bucket<K>>, b: Bucket<K>)
    requires Descending(rank, s) && (s == [] || rank(s[|s| - 1]) >= rank(b))
    ensures
      var after := s + [b];
      && Descending(rank, after)
      && multiset(after) == multiset(s) + multiset{b}
      && Requests(after) == Requests(s) + b.requests
      && Tokens(after) == Tokens(s) + b.totalTokens
      && Cost(after) == Cost(s) + b.costUsd
  {
    hide Requests, Tokens, Cost;
    SumsAppend(s, b);
  }

  /** Insertion before the last entry. */
  lemma InsertInside<K>(rank: Bucket<K> -> real, init: seq<Bucket<K>>, last: Bucket<K>, b: Bucket<K>, r: real)
    requires Descending(rank, init + [last]) && rank(last) < rank(b)
    requires
      var inner := Insert(rank, init, b);
      && Descending(rank, inner) && multiset(inner) == multiset(init) + multiset{b}
      && AtRank(rank, inner, r) == AtRank(rank, init + [b], r)
      && Requests(inner) == Requests(init) + b.requests
      && Tokens(inner) == Tokens(init) + b.totalTokens
      && Cost(inner) == Cost(init) + b.costUsd
    ensures
      var s, after := init + [last], Insert(rank, init, b) + [last];
      && Descending(rank, after)
      && AtRank(rank, after, r) == AtRank(rank, s + [b], r)
      && multiset(after) == multiset(s) + multiset{b}
      && Requests(after) == Requests(s) + b.requests
      && Tokens(after) == Tokens(s) + b.totalTokens
      && Cost(after) == Cost(s) + b.costUsd
  {
    hide Insert, AtRank, Requests, Tokens, Cost;
    var s, inner := init + [last], Insert(rank, init, b);
    forall x | x in inner ensures rank(x) >= rank(last) {
      assert x in multiset(inner);
      if x != b {
        assert x in init;
        var i :| 0 <= i < |init| && init[i] == x;
        assert s[i] == x && s[|init|] == last;
      }
    }
    AtRankAppend(rank, inner, last, r);
    AtRankAppend(rank, init, last, r);
    AtRankAppend(rank, init, b, r);
    AtRankAppend(rank, s, b, r);
    SumsAppend(inner, last);
    SumsAppend(init, last);
  }

  /** Sorting keeps the entries and their sums, and the order within each rank. */
  lemma {:induction false} SortSorts<K>(rank: Bucket<K> -> real, buckets: seq<Bucket<K>>, r: real)
    ensures
      var sorted := SortBy(rank, buckets);
      && Descending(rank, sorted)
      && AtRank(rank, sorted, r) == AtRank(rank, buckets, r)
      && multiset(sorted) == multiset(buckets)
      && Requests(sorted) == Requests(buckets)
      && Tokens(sorted) == Tokens(buckets)
      && Cost(sorted) == Cost(buckets)
  {
    if buckets != [] {
      var init, last := buckets[..|buckets| - 1], buckets[|buckets| - 1];
      assert buckets == init + [last];
      var before := SortBy(rank, init);
      SortSorts(rank, init, r);
      InsertSorts(rank, before, last, r);
      SortStep(rank, buckets);
      hide Insert, AtRank, Requests, Tokens, Cost, SortBy, Descending;
      AtRankAppend(rank, before, last, r);
      AtRankAppend(rank, init, last, r);
      SumsAppend(init, last);
    }
  }

  lemma SortStep<K>(rank: Bucket<K> -> real, buckets: seq<Bucket<K>>)
    requires buckets != []
    ensures SortBy(rank, buckets) == Insert(rank, SortBy(rank, buckets[..|buckets| - 1]), buckets[|buckets| - 1])
  {
  }
}
