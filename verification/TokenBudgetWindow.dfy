/** How many tokens can be reported on one key within the time of one window. */
module TokenBudgetWindow {
  import opened Wrappers
  import opened Redis
  import opened TokenBudget
  import opened TokenBudgetTheorems
  import opened TokenBudgetExact

  /** What a step adds to the counter of `key`. */
  function Added(s: State, step: Step, key: Key): nat
    requires Enabled(s, step)
  {
    if step.Report? && step.used > 0 && Names(s.requests[step.r].budgets, key) then step.used else 0
  }

  /** The tokens reported on `key` at times from `from` up to but not including `to`. */
  function Reported(s: State, steps: seq<Step>, key: Key, from: int, to: int): nat
    requires Runs(s, steps)
    decreases |steps|
  {
    if steps == [] then 0
    else
      (if from <= s.now < to then Added(s, steps[0], key) else 0)
      + Reported(Apply(s, steps[0]), steps[1..], key, from, to)
  }

  function Span(key: Key): int {
    1000 * PeriodSeconds(key.period)
  }

  /** What one step does to one counter. */
  lemma KeyStep(s: State, step: Step, key: Key)
    requires Inv(s) && Enabled(s, step)
    ensures
      var t := Apply(s, step);
      && s.now <= t.now && (t.now == s.now <==> !step.Tick?)
      && (key in s.store && (step.Tick? ==> Alive(s.store[key], t.now)) ==>
            && key in t.store
            && t.store[key].value == s.store[key].value + Added(s, step, key)
            && (t.store[key].deadline == s.store[key].deadline
                || (step.ExpireKeys? && t.store[key].deadline == Some(s.now + Span(key)))))
      && (key !in s.store && key in t.store ==>
            t.store[key] == Counter(Added(s, step, key), None))
      && (key !in s.store && key !in t.store ==> Added(s, step, key) == 0)
      && (key in s.store && step.Tick? && !Alive(s.store[key], t.now) ==> key !in t.store)
  {
    match step
    case Report(r, used) => IncrAllEffect(s.store, s.requests[r].budgets, used, key);
    case ExpireKeys(r) => ExpireAllEffect(s.store, s.now, s.requests[r].budgets, s.requests[r].pc.keys, key);
    case _ =>
  }

  // ----- no more than two generations

  /** The counter, if there is one, lives until the window that begins at `from` is over. */
  predicate Outlasts(s: State, key: Key, from: int) {
    key in s.store && s.store[key].deadline.Some? ==> from + Span(key) <= s.store[key].deadline.value
  }

  lemma {:induction false} NothingLate(s: State, steps: seq<Step>, key: Key, from: int, to: int)
    requires Inv(s) && Runs(s, steps) && to <= s.now
    ensures Reported(s, steps, key, from, to) == 0
    decreases |steps|
  {
    if steps != [] {
      KeyStep(s, steps[0], key);
      InvStep(s, steps[0]);
      NothingLate(Apply(s, steps[0]), steps[1..], key, from, to);
    }
  }

  /** The counter at hand takes in all that is still reported. */
  lemma {:induction false} OneGeneration(
      s: State, steps: seq<Step>, key: Key, from: int, to: int, limit: int, size: nat, k: nat, slack: nat)
    requires Inv(s) && Runs(s, steps) && k >= 1 && from <= s.now < to <= from + Span(key)
    requires Tame(s, steps, key, limit, size, k, slack) && Contained(s, key, limit, size, k, slack)
    requires Outlasts(s, key, from)
    ensures Value(s.store, key) + Reported(s, steps, key, from, to) <= Bound(limit, size, k, slack)
    decreases |steps|
  {
    ValueWithin(s, key, limit, size, k, slack);
    if steps != [] {
      hide Sized, Tame, Contained, Bound;
      var t := Apply(s, steps[0]);
      TameStep(s, steps, key, limit, size, k, slack);
      KeyStep(s, steps[0], key);
      if t.now < to {
        OneGeneration(t, steps[1..], key, from, to, limit, size, k, slack);
      } else {
        NothingLate(t, steps[1..], key, from, to);
      }
    }
  }

  lemma TameStep(s: State, steps: seq<Step>, key: Key, limit: int, size: nat, k: nat, slack: nat)
    requires Inv(s) && Runs(s, steps) && k >= 1 && steps != []
    requires Tame(s, steps, key, limit, size, k, slack) && Contained(s, key, limit, size, k, slack)
    ensures
      var t := Apply(s, steps[0]);
      Inv(t) && Tame(t, steps[1..], key, limit, size, k, slack) && Contained(t, key, limit, size, k, slack)
  {
    InvStep(s, steps[0]);
    ContainedStep(s, steps[0], key, limit, size, k, slack);
  }

  /** The counter at hand may expire once, but the next one then lasts. */
  lemma {:induction false} TwoGenerations(
      s: State, steps: seq<Step>, key: Key, from: int, to: int, limit: int, size: nat, k: nat, slack: nat)
    requires Inv(s) && Runs(s, steps) && k >= 1 && from <= s.now < to <= from + Span(key)
    requires Tame(s, steps, key, limit, size, k, slack) && Contained(s, key, limit, size, k, slack)
    ensures Value(s.store, key) + Reported(s, steps, key, from, to) <= 2 * Bound(limit, size, k, slack)
    decreases |steps|
  {
    ValueWithin(s, key, limit, size, k, slack);
    BoundNatural(limit, size, k, slack);
    if steps != [] {
      hide Sized, Tame, Contained, Bound;
      var t := Apply(s, steps[0]);
      TameStep(s, steps, key, limit, size, k, slack);
      KeyStep(s, steps[0], key);
      if t.now >= to {
        NothingLate(t, steps[1..], key, from, to);
      } else if key in s.store && key !in t.store {
        OneGeneration(t, steps[1..], key, from, to, limit, size, k, slack);
      } else {
        TwoGenerations(t, steps[1..], key, from, to, limit, size, k, slack);
      }
    }
  }

  lemma {:induction false} InWindow(
      s: State, steps: seq<Step>, key: Key, from: int, to: int, limit: int, size: nat, k: nat, slack: nat)
    requires Inv(s) && Runs(s, steps) && k >= 1 && to <= from + Span(key)
    requires Tame(s, steps, key, limit, size, k, slack) && Contained(s, key, limit, size, k, slack)
    requires s.now < from
    ensures Reported(s, steps, key, from, to) <= Max(2 * Bound(limit, size, k, slack) - 1, 0)
    decreases |steps|
  {
    if steps != [] {
      hide Sized, Tame, Contained, Bound;
      var t := Apply(s, steps[0]);
      TameStep(s, steps, key, limit, size, k, slack);
      AtWindow(t, steps[1..], key, from, to, limit, size, k, slack);
      if t.now < from { InWindow(t, steps[1..], key, from, to, limit, size, k, slack); }
    }
  }

  /** At the beginning of the window the counter at hand holds at least one token, or there is none. */
  lemma AtWindow(
      s: State, steps: seq<Step>, key: Key, from: int, to: int, limit: int, size: nat, k: nat, slack: nat)
    requires Inv(s) && Runs(s, steps) && k >= 1 && to <= from + Span(key)
    requires Tame(s, steps, key, limit, size, k, slack) && Contained(s, key, limit, size, k, slack)
    ensures from <= s.now ==> Reported(s, steps, key, from, to) <= Max(2 * Bound(limit, size, k, slack) - 1, 0)
  {
    hide Sized, Tame, Contained, Bound;
    if to <= s.now {
      NothingLate(s, steps, key, from, to);
    } else if from <= s.now {
      if key in s.store {
        TwoGenerations(s, steps, key, from, to, limit, size, k, slack);
      } else {
        OneGeneration(s, steps, key, from, to, limit, size, k, slack);
      }
    }
  }

  /**
    On a tame run no more than twice the bound of one counter, less one, is reported
    within any half-open interval of a window's length.
  */
  lemma TokensInWindow(
      steps: seq<Step>, key: Key, from: int, to: int, limit: int, size: nat, k: nat, slack: nat)
    requires Runs(Init(), steps) && k >= 1 && to <= from + Span(key)
    requires Tame(Init(), steps, key, limit, size, k, slack)
    ensures Reported(Init(), steps, key, from, to) <=
              Max(2 * (Max(limit, size) + (k - 1) * size + k * slack) - 1, 0)
  {
    ContainedInit(key, limit, size, k, slack);
    AtWindow(Init(), steps, key, from, to, limit, size, k, slack);
    if Init().now < from { InWindow(Init(), steps, key, from, to, limit, size, k, slack); }
  }

  // ----- and that many can be

  lemma {:induction false} ReportedConcat(s: State, a: seq<Step>, b: seq<Step>, key: Key, from: int, to: int)
    requires Runs(s, a) && Runs(Exec(s, a), b) && Runs(s, a + b)
    ensures Reported(s, a + b, key, from, to) ==
              Reported(s, a, key, from, to) + Reported(Exec(s, a), b, key, from, to)
    decreases |a|
  {
    if a == [] {
      assert a + b == b;
    } else {
      assert (a + b)[1..] == a[1..] + b && (a + b)[0] == a[0];
      ReportedConcat(Apply(s, a[0]), a[1..], b, key, from, to);
    }
  }

  /** While no time passes the counter grows by what is reported. */
  lemma {:induction false} SteadyReported(s: State, steps: seq<Step>, key: Key, from: int, to: int)
    requires Inv(s) && Runs(s, steps) && Steady(steps)
    ensures
      var t := Exec(s, steps);
      && t.now == s.now
      && (from <= s.now < to ==> Value(t.store, key) == Value(s.store, key) + Reported(s, steps, key, from, to))
      && (key in s.store ==> key in t.store && t.store[key].deadline == s.store[key].deadline)
    decreases |steps|
  {
    if steps != [] {
      KeyStep(s, steps[0], key);
      InvStep(s, steps[0]);
      SteadyReported(Apply(s, steps[0]), steps[1..], key, from, to);
    }
  }

  lemma TameOne(s: State, step: Step, key: Key, limit: int, size: nat, k: nat, slack: nat)
    requires Enabled(s, step) && (step.ExpireKeys? || step.Tick?)
    requires Solo(s.requests, key, limit, size) && CommittedCount(s.requests, key) == 0
    ensures Runs(s, [step]) && Exec(s, [step]) == Apply(s, step) && Tame(s, [step], key, limit, size, k, slack)
    ensures
      var t := Apply(s, step);
      Solo(t.requests, key, limit, size) && CommittedCount(t.requests, key) == 0
  {
    var t := Apply(s, step);
    if step.ExpireKeys? { Replace(s.requests, step.r, t.requests[step.r], key, 0); }
    SoloSized(s.requests, key, limit, size);
    SoloSized(t.requests, key, limit, size);
    hide Enabled, Apply;
    TameNothing(t, key, limit, size, k, slack);
    TameCons(s, step, [], key, limit, size, k, slack);
    assert [step] + [] == [step];
  }

  /** A first token is counted at time 0, and its counter is to expire one window later. */
  lemma FirstToken(key: Key, limit: int, size: nat, k: nat, slack: nat) returns (steps: seq<Step>, s: State)
    requires k >= 1 && size < limit && size + slack >= 1
    ensures TameRun(steps, key, limit, size, k, slack) && s == Exec(Init(), steps) && Inv(s) && s.now == 0
    ensures Solo(s.requests, key, limit, size) && CommittedCount(s.requests, key) == 0
    ensures key in s.store && s.store[key] == Counter(1, Some(Span(key)))
  {
    NothingCommitted(key);
    hide Tame, CommittedCount;
    var fill := FillUp(Init(), key, limit, size, k, slack, 1);
    var filled := Exec(Init(), fill);
    InvExec(Init(), fill);
    SteadyReported(Init(), fill, key, 0, 1);
    NoDeadlineFrom(Init(), fill, key);
    var r: nat :| Owes(filled, r, key);
    var expire := ExpireKeys(r);
    TameOne(filled, expire, key, limit, size, k, slack);
    TameConcat(Init(), fill, [expire], key, limit, size, k, slack);
    steps := fill + [expire];
    s := Apply(filled, expire);
    InvStep(filled, expire);
    ExpireAllEffect(filled.store, 0, filled.requests[r].budgets, filled.requests[r].pc.keys, key);
  }

  lemma {:induction false} NoDeadlineFrom(s: State, steps: seq<Step>, key: Key)
    requires Inv(s) && Runs(s, steps) && Steady(steps) && (key in s.store ==> s.store[key].deadline.None?)
    ensures
      var t := Exec(s, steps);
      key in t.store ==> t.store[key].deadline.None?
    decreases |steps|
  {
    if steps != [] {
      KeyStep(s, steps[0], key);
      InvStep(s, steps[0]);
      NoDeadlineFrom(Apply(s, steps[0]), steps[1..], key);
    }
  }

  /** Some time passes; then the counter is brought to the bound. */
  lemma FillLater(
      s: State, key: Key, elapsed: nat, from: int, to: int, limit: int, size: nat, k: nat, slack: nat)
    returns (steps: seq<Step>, t: State)
    requires Inv(s) && k >= 1 && size < limit && size + slack >= 1 && elapsed > 0
    requires from <= s.now + elapsed < to
    requires Solo(s.requests, key, limit, size) && CommittedCount(s.requests, key) == 0
    requires Value(Purge(s.store, s.now + elapsed), key) <= limit - size
    ensures Runs(s, steps) && t == Exec(s, steps) && Tame(s, steps, key, limit, size, k, slack) && Inv(t)
    ensures Solo(t.requests, key, limit, size) && CommittedCount(t.requests, key) == 0 && t.now == s.now + elapsed
    ensures Value(t.store, key) == Bound(limit, size, k, slack)
    ensures key in s.store && Alive(s.store[key], t.now) ==>
              key in t.store && t.store[key].deadline == s.store[key].deadline
    ensures Reported(s, steps, key, from, to) >=
              Bound(limit, size, k, slack) - Value(Purge(s.store, s.now + elapsed), key)
  {
    hide Tame, CommittedCount, Bound, Solo;
    var tick := Tick(elapsed);
    var later := Apply(s, tick);
    TameOne(s, tick, key, limit, size, k, slack);
    InvStep(s, tick);
    var fill := ReachBound(later, key, limit, size, k, slack);
    SteadyReported(later, fill, key, from, to);
    InvExec(later, fill);
    TameConcat(s, [tick], fill, key, limit, size, k, slack);
    ReportedConcat(s, [tick], fill, key, from, to);
    steps := [tick] + fill;
    t := Exec(later, fill);
  }

  /** The bound of `TokensInWindow` is reached whenever a request is smaller than the limit. */
  lemma TokensInWindowReached(key: Key, limit: int, size: nat, k: nat, slack: nat) returns (steps: seq<Step>)
    requires k >= 1 && size < limit && size + slack >= 1
    ensures TameRun(steps, key, limit, size, k, slack)
    ensures Reported(Init(), steps, key, 1, 1 + Span(key)) ==
              2 * (Max(limit, size) + (k - 1) * size + k * slack) - 1
  {
    var from, to := 1, 1 + Span(key);
    var seed, s := FirstToken(key, limit, size, k, slack);
    hide Tame, CommittedCount, Solo, Reported;
    var first, t := FillLater(s, key, 1, from, to, limit, size, k, slack);
    var second, u := FillLater(t, key, Span(key) - 1, from, to, limit, size, k, slack);
    TameConcat(s, first, second, key, limit, size, k, slack);
    TameConcat(Init(), seed, first + second, key, limit, size, k, slack);
    steps := seed + (first + second);
    ReportedConcat(s, first, second, key, from, to);
    ReportedConcat(Init(), seed, first + second, key, from, to);
    TokensInWindow(steps, key, from, to, limit, size, k, slack);
    BoundNatural(limit, size, k, slack);
  }
}
