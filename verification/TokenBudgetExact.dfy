/** How far token counters can be brought, for every limit, size, concurrency and slack. */
module TokenBudgetExact {
  import opened Wrappers
  import opened Redis
  import opened TokenBudget
  import opened TokenBudgetTheorems

  // ----- building tame runs

  lemma TameCons(s: State, step: Step, rest: seq<Step>, key: Key, limit: int, size: nat, k: nat, slack: nat)
    requires Enabled(s, step) && Runs(Apply(s, step), rest)
    requires Sized(s.requests, key, limit, size) && CommittedCount(s.requests, key) <= k
    requires step.Report? ==> step.used <= s.requests[step.r].requested + slack
    requires Tame(Apply(s, step), rest, key, limit, size, k, slack)
    ensures Runs(s, [step] + rest) && Exec(s, [step] + rest) == Exec(Apply(s, step), rest)
    ensures Tame(s, [step] + rest, key, limit, size, k, slack)
  {
    assert ([step] + rest)[1..] == rest;
  }

  lemma {:induction false} TameConcat(
      s: State, a: seq<Step>, b: seq<Step>, key: Key, limit: int, size: nat, k: nat, slack: nat)
    requires Runs(s, a) && Tame(s, a, key, limit, size, k, slack)
    requires Runs(Exec(s, a), b) && Tame(Exec(s, a), b, key, limit, size, k, slack)
    ensures Runs(s, a + b) && Exec(s, a + b) == Exec(Exec(s, a), b)
    ensures Tame(s, a + b, key, limit, size, k, slack)
    decreases |a|
  {
    hide Sized, CommittedCount, Apply, Enabled;
    if a == [] {
      assert a + b == b;
    } else {
      TameConcat(Apply(s, a[0]), a[1..], b, key, limit, size, k, slack);
      TameCons(s, a[0], a[1..] + b, key, limit, size, k, slack);
      hide *;
      assert [a[0]] + (a[1..] + b) == a + b;
    }
  }

  lemma TameNothing(s: State, key: Key, limit: int, size: nat, k: nat, slack: nat)
    requires Sized(s.requests, key, limit, size) && CommittedCount(s.requests, key) <= k
    ensures Runs(s, []) && Exec(s, []) == s && Tame(s, [], key, limit, size, k, slack)
  {
  }

  /** Every request has this one budget and asks for at most `size` tokens. */
  predicate Solo(requests: seq<Request>, key: Key, limit: int, size: nat) {
    forall r :: 0 <= r < |requests| ==>
      requests[r].budgets == [Budget(key, limit)] && 0 <= requests[r].requested <= size
  }

  lemma SoloSized(requests: seq<Request>, key: Key, limit: int, size: nat)
    requires Solo(requests, key, limit, size)
    ensures Sized(requests, key, limit, size)
  {
  }

  /** A request that has found room and is waiting for the model. */
  function Waiting(key: Key, limit: int, requested: nat): Request {
    Request([Budget(key, limit)], requested, InFlight)
  }

  lemma CountAppend(requests: seq<Request>, req: Request, key: Key)
    ensures CommittedCount(requests + [req], key) ==
              CommittedCount(requests, key) + if Committed(req, key) then 1 else 0
  {
    assert (requests + [req])[..|requests|] == requests;
  }

  lemma WaitingCommitted(key: Key, limit: int, requested: nat)
    ensures Committed(Waiting(key, limit, requested), key)
  {
    assert Waiting(key, limit, requested).budgets[0].key == key;
  }

  function BeginOn(key: Key, limit: int, requested: int): Step {
    Begin(key.scope,
          if key.period == Minute then Some(limit) else None,
          if key.period == Hour then Some(limit) else None,
          if key.period == Day then Some(limit) else None,
          requested)
  }

  function Admission(key: Key, limit: int, requested: int, r: nat): seq<Step> {
    [BeginOn(key, limit, requested), Get(r)]
  }

  lemma AdmissionRuns(s: State, key: Key, limit: int, requested: nat)
    requires key in s.store ==> s.store[key].value + requested <= limit
    ensures
      var begin, get := BeginOn(key, limit, requested), Get(|s.requests|);
      && Apply(s, begin) == s.(requests := s.requests + [Request([Budget(key, limit)], requested, Checking(0))])
      && Enabled(Apply(s, begin), get)
      && Apply(Apply(s, begin), get) == s.(requests := s.requests + [Waiting(key, limit, requested)])
  {
    var n := |s.requests|;
    var t := Apply(s, BeginOn(key, limit, requested));
    assert t.requests[n] == Request([Budget(key, limit)], requested, Checking(0));
    assert t.requests[n := Waiting(key, limit, requested)] == s.requests + [Waiting(key, limit, requested)];
  }

  /** A request begins, finds room and waits for the model. */
  lemma Admit(s: State, key: Key, limit: int, size: nat, k: nat, slack: nat, requested: nat)
    requires Solo(s.requests, key, limit, size) && requested <= size && CommittedCount(s.requests, key) < k
    requires key in s.store ==> s.store[key].value + requested <= limit
    ensures
      var steps := Admission(key, limit, requested, |s.requests|);
      var t := s.(requests := s.requests + [Waiting(key, limit, requested)]);
      && Runs(s, steps) && Exec(s, steps) == t && Tame(s, steps, key, limit, size, k, slack)
      && Solo(t.requests, key, limit, size)
      && CommittedCount(t.requests, key) == CommittedCount(s.requests, key) + 1
  {
    hide Tame, Sized, CommittedCount, Committed, Apply, Room, Enabled;
    var begin, get := BeginOn(key, limit, requested), Get(|s.requests|);
    var checking := Request([Budget(key, limit)], requested, Checking(0));
    assert Enabled(s, begin) by { BeginEnabled(s, key, limit, requested); }
    AdmissionRuns(s, key, limit, requested);
    var t := Apply(s, begin);
    var u := Apply(t, get);
    WaitingCommitted(key, limit, requested);
    CheckingUncommitted(key, limit, requested);
    CountAppend(s.requests, checking, key);
    CountAppend(s.requests, Waiting(key, limit, requested), key);
    SoloSized(s.requests, key, limit, size);
    SoloSized(t.requests, key, limit, size);
    SoloSized(u.requests, key, limit, size);
    TameNothing(u, key, limit, size, k, slack);
    TameCons(t, get, [], key, limit, size, k, slack);
    assert [get] + [] == [get] && [begin] + [get] == Admission(key, limit, requested, |s.requests|);
    TameCons(s, begin, [get], key, limit, size, k, slack);
  }

  lemma BeginEnabled(s: State, key: Key, limit: int, requested: int)
    ensures Enabled(s, BeginOn(key, limit, requested))
  {
  }

  lemma CheckingUncommitted(key: Key, limit: int, requested: nat)
    ensures !Committed(Request([Budget(key, limit)], requested, Checking(0)), key)
  {
  }

  /** A waiting request reports: its tokens go to the counter and it is committed no longer. */
  lemma ReportOne(s: State, key: Key, limit: int, size: nat, r: nat, used: nat)
    requires Solo(s.requests, key, limit, size) && r < |s.requests| && s.requests[r].pc.InFlight?
    ensures
      var t := Apply(s, Report(r, used));
      && Solo(t.requests, key, limit, size) && |t.requests| == |s.requests|
      && (forall q :: 0 <= q < |s.requests| && q != r ==> t.requests[q] == s.requests[q])
      && Value(t.store, key) == Value(s.store, key) + used
      && CommittedCount(t.requests, key) == CommittedCount(s.requests, key) - 1
  {
    hide CommittedCount, Pending;
    var t := Apply(s, Report(r, used));
    assert s.requests[r].budgets[0].key == key;
    Replace(s.requests, r, t.requests[r], key, 0);
    IncrAllEffect(s.store, s.requests[r].budgets, used, key);
  }

  /** No time passes and no deadline is set. */
  predicate Steady(steps: seq<Step>) {
    forall i :: 0 <= i < |steps| ==> !steps[i].Tick? && !steps[i].ExpireKeys?
  }

  // ----- the run that reaches the bound

  /** Small requests, one after the other, bring the counter to any value that leaves room for a full one. */
  lemma {:induction false} FillUp(s: State, key: Key, limit: int, size: nat, k: nat, slack: nat, target: nat)
    returns (steps: seq<Step>)
    requires Solo(s.requests, key, limit, size) && CommittedCount(s.requests, key) == 0 && k >= 1 && size + slack >= 1
    requires Value(s.store, key) <= target && target + size <= limit
    ensures Runs(s, steps) && Tame(s, steps, key, limit, size, k, slack) && Steady(steps)
    ensures
      var t := Exec(s, steps);
      && Solo(t.requests, key, limit, size) && CommittedCount(t.requests, key) == 0
      && Value(t.store, key) == target
    decreases target - Value(s.store, key)
  {
    hide Tame, Sized, CommittedCount, Committed, Apply, Solo;
    SoloSized(s.requests, key, limit, size);
    if Value(s.store, key) == target {
      steps := [];
      TameNothing(s, key, limit, size, k, slack);
    } else {
      var requested := if size == 0 then 0 else 1;
      var n := |s.requests|;
      Admit(s, key, limit, size, k, slack, requested);
      var t := s.(requests := s.requests + [Waiting(key, limit, requested)]);
      assert t.requests[n] == Waiting(key, limit, requested);
      ReportOne(t, key, limit, size, n, 1);
      var rest := FillUp(Apply(t, Report(n, 1)), key, limit, size, k, slack, target);
      SoloSized(t.requests, key, limit, size);
      TameCons(t, Report(n, 1), rest, key, limit, size, k, slack);
      TameConcat(s, Admission(key, limit, requested, n), [Report(n, 1)] + rest, key, limit, size, k, slack);
      steps := Admission(key, limit, requested, n) + ([Report(n, 1)] + rest);
    }
  }

  /** `n` requests of full size find room before any of them reports. */
  lemma {:induction false} CheckMany(s: State, key: Key, limit: int, size: nat, k: nat, slack: nat, n: nat)
    returns (steps: seq<Step>)
    requires Solo(s.requests, key, limit, size) && CommittedCount(s.requests, key) + n <= k
    requires key in s.store ==> s.store[key].value + size <= limit
    ensures Runs(s, steps) && Tame(s, steps, key, limit, size, k, slack) && Steady(steps)
    ensures
      var t := Exec(s, steps);
      && t.store == s.store && Solo(t.requests, key, limit, size)
      && |t.requests| == |s.requests| + n && CommittedCount(t.requests, key) == CommittedCount(s.requests, key) + n
      && (forall r :: 0 <= r < |s.requests| ==> t.requests[r] == s.requests[r])
      && (forall r :: |s.requests| <= r < |t.requests| ==> t.requests[r] == Waiting(key, limit, size))
    decreases n
  {
    hide Tame, Sized, CommittedCount, Solo;
    SoloSized(s.requests, key, limit, size);
    if n == 0 {
      steps := [];
      TameNothing(s, key, limit, size, k, slack);
    } else {
      Admit(s, key, limit, size, k, slack, size);
      var t := s.(requests := s.requests + [Waiting(key, limit, size)]);
      var rest := CheckMany(t, key, limit, size, k, slack, n - 1);
      TameConcat(s, Admission(key, limit, size, |s.requests|), rest, key, limit, size, k, slack);
      steps := Admission(key, limit, size, |s.requests|) + rest;
      assert t.requests[|s.requests|] == Waiting(key, limit, size);
      assert forall r :: 0 <= r < |s.requests| ==> t.requests[r] == s.requests[r];
    }
  }

  /** The `n` requests from `first` on report all they may. */
  lemma {:induction false} ReportMany(
      s: State, key: Key, limit: int, size: nat, k: nat, slack: nat, first: nat, n: nat)
    returns (steps: seq<Step>)
    requires Solo(s.requests, key, limit, size) && CommittedCount(s.requests, key) <= k
    requires first + n <= |s.requests|
    requires forall r :: first <= r < first + n ==> s.requests[r] == Waiting(key, limit, size)
    ensures Runs(s, steps) && Tame(s, steps, key, limit, size, k, slack) && Steady(steps)
    ensures
      var t := Exec(s, steps);
      && Solo(t.requests, key, limit, size) && CommittedCount(t.requests, key) == CommittedCount(s.requests, key) - n
      && Value(t.store, key) == Value(s.store, key) + n * (size + slack)
    decreases n
  {
    hide Tame, Sized, CommittedCount, Apply, Solo;
    SoloSized(s.requests, key, limit, size);
    if n == 0 {
      steps := [];
      TameNothing(s, key, limit, size, k, slack);
    } else {
      var step := Report(first, size + slack);
      ReportOne(s, key, limit, size, first, size + slack);
      var rest := ReportMany(Apply(s, step), key, limit, size, k, slack, first + 1, n - 1);
      TameCons(s, step, rest, key, limit, size, k, slack);
      steps := [step] + rest;
      assert n * (size + slack) == (n - 1) * (size + slack) + (size + slack);
    }
  }

  /** A run in which at most `k` requests are ever between check and report, none larger than it may be. */
  ghost predicate TameRun(steps: seq<Step>, key: Key, limit: int, size: nat, k: nat, slack: nat) {
    Runs(Init(), steps) && Tame(Init(), steps, key, limit, size, k, slack)
  }

  /** The counter has not passed the value that leaves room for just one more full request. */
  predicate Ready(s: State, key: Key, limit: int, size: nat, slack: nat) {
    && Solo(s.requests, key, limit, size) && CommittedCount(s.requests, key) == 0
    && Value(s.store, key) <= Max(limit, size) - size
    && (limit <= size ==> key !in s.store)
    && (size == slack == 0 ==> Value(s.store, key) == Max(limit, size))
  }

  lemma Prepare(s: State, key: Key, limit: int, size: nat, k: nat, slack: nat) returns (steps: seq<Step>, t: State)
    requires k >= 1 && Ready(s, key, limit, size, slack)
    ensures Runs(s, steps) && Tame(s, steps, key, limit, size, k, slack) && Steady(steps) && t == Exec(s, steps)
    ensures Solo(t.requests, key, limit, size) && CommittedCount(t.requests, key) == 0
    ensures Value(t.store, key) == Max(limit, size) - size
    ensures key in t.store ==> t.store[key].value + size <= limit
  {
    var target := Max(limit, size) - size;
    SoloSized(s.requests, key, limit, size);
    TameNothing(s, key, limit, size, k, slack);
    hide Tame, Sized, CommittedCount, Solo;
    steps := [];
    if Value(s.store, key) < target {
      steps := FillUp(s, key, limit, size, k, slack, target);
    }
    t := Exec(s, steps);
  }

  /** From there the counter can be brought to the bound. */
  lemma ReachBound(s: State, key: Key, limit: int, size: nat, k: nat, slack: nat) returns (steps: seq<Step>)
    requires k >= 1 && Ready(s, key, limit, size, slack)
    ensures Runs(s, steps) && Tame(s, steps, key, limit, size, k, slack) && Steady(steps)
    ensures
      var t := Exec(s, steps);
      && Solo(t.requests, key, limit, size) && CommittedCount(t.requests, key) == 0
      && Value(t.store, key) == Bound(limit, size, k, slack)
  {
    hide Tame, Sized, CommittedCount, Committed, Apply, Solo, Runs, Exec, Ready, Steady;
    var fill, t := Prepare(s, key, limit, size, k, slack);
    var checks := CheckMany(t, key, limit, size, k, slack, k);
    var u := Exec(t, checks);
    var reports := ReportMany(u, key, limit, size, k, slack, |t.requests|, k);
    TameConcat(t, checks, reports, key, limit, size, k, slack);
    TameConcat(s, fill, checks + reports, key, limit, size, k, slack);
    SteadyConcat(checks, reports);
    SteadyConcat(fill, checks + reports);
    steps := fill + (checks + reports);
    FullReports(size, k, slack);
  }

  lemma SteadyConcat(a: seq<Step>, b: seq<Step>)
    requires Steady(a) && Steady(b)
    ensures Steady(a + b)
  {
  }

  /**
    The bound of `OvershootBound` is reached by a run of its own kind, for every key
    and every limit, unless requests neither ask for nor report anything.
  */
  lemma OvershootReached(key: Key, limit: int, size: nat, k: nat, slack: nat) returns (steps: seq<Step>)
    requires k >= 1 && (limit <= size || size + slack >= 1)
    ensures TameRun(steps, key, limit, size, k, slack)
    ensures Value(Exec(Init(), steps).store, key) == Max(limit, size) + (k - 1) * size + k * slack
  {
    NothingCommitted(key);
    hide CommittedCount, Tame, Runs, Exec;
    steps := ReachBound(Init(), key, limit, size, k, slack);
  }

  lemma FullReports(size: nat, k: nat, slack: nat)
    ensures k * (size + slack) == size + (k - 1) * size + k * slack
  {
  }

  lemma NothingCommitted(key: Key)
    ensures CommittedCount([], key) == 0
  {
  }

  // ----- when budgets hold

  /** Requests that neither ask for nor report anything leave the counter missing. */
  lemma {:induction false} NeverRaised(s: State, steps: seq<Step>, key: Key, limit: int, k: nat)
    requires Inv(s) && Runs(s, steps) && Tame(s, steps, key, limit, 0, k, 0) && key !in s.store
    ensures key !in Exec(s, steps).store
    decreases |steps|
  {
    if steps != [] {
      var step := steps[0];
      InvStep(s, step);
      StillMissing(s, step, key, limit);
      NeverRaised(Apply(s, step), steps[1..], key, limit, k);
    }
  }

  lemma StillMissing(s: State, step: Step, key: Key, limit: int)
    requires Inv(s) && Enabled(s, step) && Sized(s.requests, key, limit, 0) && key !in s.store
    requires step.Report? ==> step.used <= s.requests[step.r].requested
    ensures key !in Apply(s, step).store
  {
    match step
    case Report(r, used) =>
      IncrAllEffect(s.store, s.requests[r].budgets, used, key);
      if Names(s.requests[r].budgets, key) {
        var i :| 0 <= i < |s.requests[r].budgets| && s.requests[r].budgets[i].key == key;
        assert s.requests[r].requested <= 0;
      }
    case ExpireKeys(r) => ExpireAllEffect(s.store, s.now, s.requests[r].budgets, s.requests[r].pc.keys, key);
    case _ =>
  }

  /**
    The bound is attained exactly when requests ask for or report something, or the
    limit is no larger than a request.
  */
  lemma BoundReachedIff(key: Key, limit: int, size: nat, k: nat, slack: nat)
    requires k >= 1
    ensures
      (exists steps ::
         && TameRun(steps, key, limit, size, k, slack)
         && Value(Exec(Init(), steps).store, key) == Max(limit, size) + (k - 1) * size + k * slack)
      <==> limit <= size || size + slack >= 1
  {
    if limit <= size || size + slack >= 1 {
      var steps := OvershootReached(key, limit, size, k, slack);
    } else {
      forall steps | TameRun(steps, key, limit, size, k, slack) ensures Value(Exec(Init(), steps).store, key) == 0 {
        NeverRaised(Init(), steps, key, limit, k);
      }
      assert (k - 1) * size == 0 && k * slack == 0;
    }
  }

  /** No tame run takes the counter past the limit. */
  ghost predicate BudgetHolds(key: Key, limit: int, size: nat, k: nat, slack: nat) {
    forall steps :: TameRun(steps, key, limit, size, k, slack) ==> Value(Exec(Init(), steps).store, key) <= limit
  }

  /**
    A budget holds on all runs exactly when requests report no more than they asked
    for, a single one fits the limit, and no two that ask for something overlap.
  */
  lemma BudgetHoldsIff(key: Key, limit: int, size: nat, k: nat, slack: nat)
    requires k >= 1
    ensures BudgetHolds(key, limit, size, k, slack) <==> slack == 0 && size <= limit && (k == 1 || size == 0)
  {
    if slack == 0 && size <= limit && (k == 1 || size == 0) {
      forall steps | TameRun(steps, key, limit, size, k, slack)
        ensures Value(Exec(Init(), steps).store, key) <= limit
      {
        OvershootBound(steps, key, limit, size, k, slack);
      }
    } else {
      var steps := OvershootReached(key, limit, size, k, slack);
      PastLimit(limit, size, k, slack);
    }
  }

  lemma PastLimit(limit: int, size: nat, k: nat, slack: nat)
    requires k >= 1 && !(slack == 0 && size <= limit && (k == 1 || size == 0))
    ensures Max(limit, size) + (k - 1) * size + k * slack > limit
  {
    assert (k - 1) * size >= 0 && k * slack >= slack;
    assert k > 1 && size > 0 ==> (k - 1) * size > 0;
  }
}
