/** A run that admits 2 * limit - 1 calls within one window, for every limit: the sliding bound is exact. */
module RateLimiterBurst {
  import opened Wrappers
  import opened Redis
  import opened RateLimiter
  import opened RateLimiterTheorems

  ghost predicate FreshFrom(s: State, c: nat) {
    forall d :: d in s.calls ==> d < c
  }

  function OneCall(c: nat, key: Key, limit: int, creates: bool): seq<Step> {
    [Begin(c, [Limit(key, limit)]), Incr(c)] + if creates then [ExpireKey(c)] else []
  }

  /** The state `OneCall` leads to. */
  function AfterOne(s: State, c: nat, key: Key, limit: int): State
    requires FreshFrom(s, c)
    requires if key in s.store then s.store[key].value >= 1 && s.store[key].value < limit else 1 <= limit
  {
    var t := Apply(Apply(s, Begin(c, [Limit(key, limit)])), Incr(c));
    if key in s.store then t else Apply(t, ExpireKey(c))
  }

  lemma {:induction false} OneCallRuns(s: State, c: nat, key: Key, limit: int)
    requires FreshFrom(s, c)
    requires if key in s.store then s.store[key].value >= 1 && s.store[key].value < limit else 1 <= limit
    ensures
      var steps := OneCall(c, key, limit, key !in s.store);
      Runs(s, steps) && Exec(s, steps) == AfterOne(s, c, key, limit)
  {
    var b := Begin(c, [Limit(key, limit)]);
    var s1 := Apply(s, b);
    var s2 := Apply(s1, Incr(c));
    RunsOne(s, b);
    RunsOne(s1, Incr(c));
    RunsConcat(s, [b], [Incr(c)]);
    assert [b] + [Incr(c)] == [b, Incr(c)];
    if key in s.store {
      assert OneCall(c, key, limit, false) == [b, Incr(c)];
    } else {
      RunsOne(s2, ExpireKey(c));
      RunsConcat(s, [b, Incr(c)], [ExpireKey(c)]);
    }
  }

  /** One more admitted call; it creates the counter when there is none. */
  lemma AdmitOne(s: State, c: nat, key: Key, limit: int, from: int, to: int)
    requires FreshFrom(s, c) && LimitsAre(s.log, key, limit) && WindowOf(key, s.authWindow) > 0
    requires if key in s.store then s.store[key].value >= 1 && s.store[key].value < limit else 1 <= limit
    ensures
      var t := AfterOne(s, c, key, limit);
      && FreshFrom(t, c + 1) && LimitsAre(t.log, key, limit)
      && t.authWindow == s.authWindow && t.now == s.now
      && key in t.store
      && (if key in s.store
          then t.store[key] == Counter(s.store[key].value + 1, s.store[key].deadline)
          else t.store[key] == Counter(1, Some(s.now + 1000 * WindowOf(key, s.authWindow))))
      && AdmittedBetween(t.log, key, from, to) ==
           AdmittedBetween(s.log, key, from, to) + if from <= s.now < to then 1 else 0
  {
    var t := AfterOne(s, c, key, limit);
    assert t.log[..|s.log|] == s.log;
  }

  /** `n` calls on a counter with room for them, all at the same instant. */
  lemma {:induction false} AdmitMany(s: State, c: nat, key: Key, limit: int, n: nat, from: int, to: int)
    returns (steps: seq<Step>)
    requires FreshFrom(s, c) && LimitsAre(s.log, key, limit) && WindowOf(key, s.authWindow) > 0
    requires key in s.store && s.store[key].value >= 1 && s.store[key].value + n <= limit
    ensures Runs(s, steps)
    ensures
      var t := Exec(s, steps);
      && FreshFrom(t, c + n) && LimitsAre(t.log, key, limit)
      && t.authWindow == s.authWindow && t.now == s.now
      && key in t.store && t.store[key] == Counter(s.store[key].value + n, s.store[key].deadline)
      && AdmittedBetween(t.log, key, from, to) ==
           AdmittedBetween(s.log, key, from, to) + if from <= s.now < to then n else 0
    decreases n
  {
    if n == 0 {
      steps := [];
    } else {
      var first := OneCall(c, key, limit, false);
      OneCallRuns(s, c, key, limit);
      AdmitOne(s, c, key, limit, from, to);
      var rest := AdmitMany(Exec(s, first), c + 1, key, limit, n - 1, from, to);
      steps := first + rest;
      RunsConcat(s, first, rest);
    }
  }

  /** One call opens the first window, and time passes to its last millisecond. */
  lemma OpenWindow(w: int, key: Key, limit: nat) returns (steps: seq<Step>)
    requires limit >= 1 && WindowOf(key, w) > 0
    ensures Runs(Init(w), steps)
    ensures
      var t := Exec(Init(w), steps);
      var span := 1000 * WindowOf(key, w);
      && FreshFrom(t, 1) && LimitsAre(t.log, key, limit)
      && t.authWindow == w && t.now == span - 1
      && key in t.store && t.store[key] == Counter(1, Some(span))
      && AdmittedBetween(t.log, key, span - 1, 2 * span - 1) == 0
  {
    var s, span := Init(w), 1000 * WindowOf(key, w);
    var a := OneCall(0, key, limit, true);
    OneCallRuns(s, 0, key, limit);
    AdmitOne(s, 0, key, limit, span - 1, 2 * span - 1);
    var wait := Tick(span - 1);
    RunsOne(Exec(s, a), wait);
    RunsConcat(s, a, [wait]);
    steps := a + [wait];
  }

  /** The rest of the first window's calls come in that millisecond; then the counter expires. */
  lemma FirstWindow(w: int, key: Key, limit: nat) returns (steps: seq<Step>)
    requires limit >= 1 && WindowOf(key, w) > 0
    ensures Runs(Init(w), steps)
    ensures
      var t := Exec(Init(w), steps);
      var span := 1000 * WindowOf(key, w);
      && FreshFrom(t, limit) && LimitsAre(t.log, key, limit)
      && t.authWindow == w && t.now == span && key !in t.store
      && AdmittedBetween(t.log, key, span - 1, 2 * span - 1) == limit - 1
  {
    var span := 1000 * WindowOf(key, w);
    var a := OpenWindow(w, key, limit);
    var s := Exec(Init(w), a);
    var b := AdmitMany(s, 1, key, limit, limit - 1, span - 1, 2 * span - 1);
    RunsConcat(Init(w), a, b);
    RunsOne(Exec(s, b), Tick(1));
    RunsConcat(Init(w), a + b, [Tick(1)]);
    steps := a + b + [Tick(1)];
  }

  /** A full window's worth of calls at one instant, on a key that has no counter. */
  lemma FullWindow(s: State, c: nat, key: Key, limit: nat, from: int, to: int) returns (steps: seq<Step>)
    requires limit >= 1 && WindowOf(key, s.authWindow) > 0 && key !in s.store
    requires FreshFrom(s, c) && LimitsAre(s.log, key, limit) && from <= s.now < to
    ensures Runs(s, steps)
    ensures
      var t := Exec(s, steps);
      && LimitsAre(t.log, key, limit)
      && AdmittedBetween(t.log, key, from, to) == AdmittedBetween(s.log, key, from, to) + limit
  {
    var a := OneCall(c, key, limit, true);
    OneCallRuns(s, c, key, limit);
    AdmitOne(s, c, key, limit, from, to);
    var b := AdmitMany(Exec(s, a), c + 1, key, limit, limit - 1, from, to);
    RunsConcat(s, a, b);
    steps := a + b;
  }

  /** The bound of `SlidingBound` is reached. */
  lemma SlidingBoundIsExact(w: int, key: Key, limit: nat) returns (steps: seq<Step>, from: int)
    requires limit >= 1 && WindowOf(key, w) > 0
    ensures Runs(Init(w), steps)
    ensures LimitsAre(Exec(Init(w), steps).log, key, limit)
    ensures AdmittedBetween(Exec(Init(w), steps).log, key, from, from + 1000 * WindowOf(key, w)) == 2 * limit - 1
  {
    var span := 1000 * WindowOf(key, w);
    from := span - 1;
    var a := FirstWindow(w, key, limit);
    var b := FullWindow(Exec(Init(w), a), limit, key, limit, from, from + span);
    RunsConcat(Init(w), a, b);
    steps := a + b;
  }
}
