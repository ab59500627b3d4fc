/** What the limiter guarantees, for every interleaving of calls and clock ticks. */
module RateLimiterTheorems {
  import opened Wrappers
  import opened RateLimiter
  import opened RateLimiterInvariants

  /**
    In every reachable state the counters that have no deadline are exactly those
    some call is about to EXPIRE, and that call is unique.
  */
  lemma TtlObligation(w: int, steps: seq<Step>, key: Key)
    requires Runs(Init(w), steps)
    ensures
      var s := Exec(Init(w), steps);
      && (key in s.store && s.store[key].deadline.None? <==> exists c :: Owes(s, c, key))
      && forall c, d :: Owes(s, c, key) && Owes(s, d, key) ==> c == d
  {
    InvReachable(w, steps);
  }

  // ----- admission per generation

  /** Every attempt was told its rank within its generation. */
  ghost predicate Ranked(log: seq<Attempt>) {
    forall i :: 0 <= i < |log| ==> log[i].count == Attempts(log[..i], log[i].key, log[i].generation) + 1
  }

  /** Every call on the key used this limit, and the weaker statement that none used a larger one. */
  ghost predicate LimitsAre(log: seq<Attempt>, key: Key, limit: int) {
    forall i :: 0 <= i < |log| && log[i].key == key ==> log[i].max == limit
  }

  ghost predicate LimitsAtMost(log: seq<Attempt>, key: Key, limit: int) {
    forall i :: 0 <= i < |log| && log[i].key == key ==> log[i].max <= limit
  }

  lemma LogRanked(s: State)
    requires LogOk(s)
    ensures Ranked(s.log)
  {
    forall i: nat | i < |s.log| ensures s.log[i].count == Attempts(s.log[..i], s.log[i].key, s.log[i].generation) + 1 {
      assert EntryOk(s, i);
    }
  }

  lemma RankedPrefix(log: seq<Attempt>)
    requires Ranked(log) && log != []
    ensures Ranked(log[..|log| - 1])
    ensures
      var last := log[|log| - 1];
      last.count == Attempts(log[..|log| - 1], last.key, last.generation) + 1
  {
    var n := |log| - 1;
    forall i | 0 <= i < n
      ensures log[..n][i].count == Attempts(log[..n][..i], log[..n][i].key, log[..n][i].generation) + 1
    {
      assert log[..n][..i] == log[..i];
    }
  }

  /** Admitted attempts on a generation whose rank exceeds `rank`. */
  function AdmittedPast(log: seq<Attempt>, key: Key, g: nat, rank: nat): nat {
    if log == [] then 0
    else
      var last := log[|log| - 1];
      AdmittedPast(log[..|log| - 1], key, g, rank) +
      if last.key == key && last.generation == g && Admits(last) && last.count > rank then 1 else 0
  }

  /** With one common limit the first `limit` attempts of a generation are admitted and no others. */
  lemma {:induction false} RankedAdmission(log: seq<Attempt>, key: Key, g: nat, limit: int)
    requires Ranked(log)
    requires LimitsAre(log, key, limit)
    ensures Admitted(log, key, g) == Min(Attempts(log, key, g), Max(limit, 0))
  {
    if log != [] {
      RankedPrefix(log);
      RankedAdmission(log[..|log| - 1], key, g, limit);
    }
  }

  /** A generation of a key admits exactly the smaller of its attempts and the limit. */
  lemma GenerationAdmission(w: int, steps: seq<Step>, key: Key, g: nat, limit: int)
    requires Runs(Init(w), steps)
    requires LimitsAre(Exec(Init(w), steps).log, key, limit)
    ensures
      var log := Exec(Init(w), steps).log;
      Admitted(log, key, g) == Min(Attempts(log, key, g), Max(limit, 0))
  {
    InvReachable(w, steps);
    LogRanked(Exec(Init(w), steps));
    RankedAdmission(Exec(Init(w), steps).log, key, g, limit);
  }

  /** With limits of at most `limit`, no more than `limit - rank` admissions have a rank above `rank`. */
  lemma {:induction false} AdmittedPastBound(log: seq<Attempt>, key: Key, g: nat, rank: nat, limit: nat)
    requires Ranked(log)
    requires LimitsAtMost(log, key, limit)
    ensures AdmittedPast(log, key, g, rank) <= Max(Min(Attempts(log, key, g), limit) - rank, 0)
  {
    if log != [] {
      RankedPrefix(log);
      AdmittedPastBound(log[..|log| - 1], key, g, rank, limit);
    }
  }

  // ----- admission in a sliding interval

  predicate AdmittedIn(a: Attempt, key: Key, from: int, to: int) {
    a.key == key && Admits(a) && from <= a.time < to
  }

  /** Calls admitted for `key` at a time in the half-open interval [from, to). */
  function AdmittedBetween(log: seq<Attempt>, key: Key, from: int, to: int): nat {
    if log == [] then 0
    else AdmittedBetween(log[..|log| - 1], key, from, to) + if AdmittedIn(log[|log| - 1], key, from, to) then 1 else 0
  }

  /** An interval that only meets generations g (past a rank) and h is counted by the two. */
  lemma {:induction false} SplitBetween(log: seq<Attempt>, key: Key, from: int, to: int, g: nat, rank: nat, h: nat)
    requires forall i :: 0 <= i < |log| ==> log[i].count >= 1
    requires g != h
    requires forall i :: 0 <= i < |log| && AdmittedIn(log[i], key, from, to) ==>
               log[i].generation == h || (log[i].generation == g && log[i].count > rank)
    ensures AdmittedBetween(log, key, from, to) <= AdmittedPast(log, key, g, rank) + AdmittedPast(log, key, h, 0)
  {
    if log != [] { SplitBetween(log[..|log| - 1], key, from, to, g, rank, h); }
  }

  /** Between two attempts of the interval there is room for their own generations only. */
  lemma TwoGenerations(s: State, key: Key, from: int, p: int, q: int, m: int)
    requires LogOk(s)
    requires 0 <= p <= m <= q < |s.log|
    requires s.log[p].key == s.log[m].key == s.log[q].key == key
    requires from <= s.log[p].time && s.log[q].time < from + Span(s, key)
    ensures s.log[m].generation == s.log[p].generation || s.log[m].generation == s.log[q].generation
  {
    if p < m < q {
      assert PairOk(s, p, m) && PairOk(s, m, q) && EntryOk(s, q);
    }
  }

  /** The creating attempt of the earlier of two generations lies before the interval. */
  lemma FirstIsOutside(s: State, key: Key, from: int, p: int, q: int)
    requires LogOk(s)
    requires 0 <= p < q < |s.log|
    requires s.log[p].key == s.log[q].key == key
    requires from <= s.log[p].time && s.log[q].time < from + Span(s, key)
    requires s.log[p].generation != s.log[q].generation
    ensures s.log[p].count > 1
  {
    assert PairOk(s, p, q) && EntryOk(s, p) && EntryOk(s, q);
  }

  lemma FirstAndLast(log: seq<Attempt>, key: Key, from: int, to: int) returns (p: int, q: int)
    requires exists i :: 0 <= i < |log| && AdmittedIn(log[i], key, from, to)
    ensures 0 <= p <= q < |log| && AdmittedIn(log[p], key, from, to) && AdmittedIn(log[q], key, from, to)
    ensures forall i :: 0 <= i < |log| && AdmittedIn(log[i], key, from, to) ==> p <= i <= q
  {
    p := 0;
    while !AdmittedIn(log[p], key, from, to)
      invariant 0 <= p < |log|
      invariant forall i :: 0 <= i < p ==> !AdmittedIn(log[i], key, from, to)
      decreases |log| - p
    {
      p := p + 1;
    }
    q := |log| - 1;
    while !AdmittedIn(log[q], key, from, to)
      invariant p <= q < |log|
      invariant forall i :: q < i < |log| ==> !AdmittedIn(log[i], key, from, to)
      decreases q
    {
      q := q - 1;
    }
  }

  /** What the interval meets, between its first and last admission. */
  lemma GenerationsMet(s: State, key: Key, from: int, p: int, q: int)
    requires LogOk(s)
    requires 0 <= p <= q < |s.log|
    requires AdmittedIn(s.log[p], key, from, from + Span(s, key))
    requires AdmittedIn(s.log[q], key, from, from + Span(s, key))
    requires forall i :: 0 <= i < |s.log| && AdmittedIn(s.log[i], key, from, from + Span(s, key)) ==> p <= i <= q
    ensures forall i :: 0 <= i < |s.log| && AdmittedIn(s.log[i], key, from, from + Span(s, key)) ==>
              || s.log[i].generation == s.log[q].generation
              || (s.log[i].generation == s.log[p].generation && s.log[i].count > 1)
  {
    forall i | 0 <= i < |s.log| && AdmittedIn(s.log[i], key, from, from + Span(s, key))
      ensures || s.log[i].generation == s.log[q].generation
              || (s.log[i].generation == s.log[p].generation && s.log[i].count > 1)
    {
      TwoGenerations(s, key, from, p, q, i);
      if s.log[i].generation != s.log[q].generation { FirstIsOutside(s, key, from, i, q); }
    }
  }

  lemma CountGenerations(log: seq<Attempt>, key: Key, from: int, to: int, g: nat, h: nat, limit: nat)
    requires Ranked(log) && LimitsAtMost(log, key, limit)
    requires forall i :: 0 <= i < |log| && AdmittedIn(log[i], key, from, to) ==>
               log[i].generation == h || (log[i].generation == g && log[i].count > 1)
    ensures AdmittedBetween(log, key, from, to) <= if limit == 0 then 0 else 2 * limit - 1
  {
    // When only one generation is met, any other number serves for the empty part.
    var g' := if g == h then h + 1 else g;
    SplitBetween(log, key, from, to, g', 1, h);
    AdmittedPastBound(log, key, g', 1, limit);
    AdmittedPastBound(log, key, h, 0, limit);
  }

  /** The two generations an interval can meet; g and h are arbitrary when it meets none. */
  lemma IntervalGenerations(s: State, key: Key, from: int) returns (g: nat, h: nat)
    requires LogOk(s)
    ensures forall i :: 0 <= i < |s.log| && AdmittedIn(s.log[i], key, from, from + Span(s, key)) ==>
              s.log[i].generation == h || (s.log[i].generation == g && s.log[i].count > 1)
  {
    g, h := 0, 0;
    if exists i :: 0 <= i < |s.log| && AdmittedIn(s.log[i], key, from, from + Span(s, key)) {
      var p, q := FirstAndLast(s.log, key, from, from + Span(s, key));
      GenerationsMet(s, key, from, p, q);
      g, h := s.log[p].generation, s.log[q].generation;
    }
  }

  /**
    Any half-open interval one window long contains at most 2 * limit - 1 admitted
    calls for a key, whatever the interleaving.
  */
  lemma SlidingBound(w: int, steps: seq<Step>, key: Key, from: int, limit: nat)
    requires Runs(Init(w), steps)
    requires LimitsAtMost(Exec(Init(w), steps).log, key, limit)
    ensures
      var s := Exec(Init(w), steps);
      AdmittedBetween(s.log, key, from, from + 1000 * WindowOf(key, w)) <= if limit == 0 then 0 else 2 * limit - 1
  {
    InvReachable(w, steps);
    AuthWindowFixed(Init(w), steps);
    var s := Exec(Init(w), steps);
    var g, h := IntervalGenerations(s, key, from);
    LogRanked(s);
    CountGenerations(s.log, key, from, from + Span(s, key), g, h, limit);
  }

  lemma {:induction false} AuthWindowFixed(s: State, steps: seq<Step>)
    requires Runs(s, steps)
    ensures Exec(s, steps).authWindow == s.authWindow
    decreases |steps|
  {
    if steps != [] { AuthWindowFixed(Apply(s, steps[0]), steps[1..]); }
  }
}
