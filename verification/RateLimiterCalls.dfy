/** What one call through several limits does to the counters, and what it answers. */
module RateLimiterCalls {
  import opened Wrappers
  import opened Redis
  import opened RateLimiter
  import opened RateLimiterInvariants

  /** The attempts of one call, in order. */
  function CallLog(log: seq<Attempt>, c: nat): seq<Attempt> {
    if log == [] then []
    else
      var last := log[|log| - 1];
      CallLog(log[..|log| - 1], c) + if last.call == c then [last] else []
  }

  lemma CallLogAppend(log: seq<Attempt>, a: Attempt, c: nat)
    ensures CallLog(log + [a], c) == CallLog(log, c) + if a.call == c then [a] else []
  {
    assert (log + [a])[..|log|] == log;
  }

  /** The attempts follow the limits in order, and the first `n` of them were admitted. */
  ghost predicate Follows(attempts: seq<Attempt>, limits: seq<Limit>, n: nat) {
    && n <= |attempts| <= |limits|
    && (forall j :: 0 <= j < |attempts| ==> attempts[j].key == limits[j].key && attempts[j].max == limits[j].max)
    && (forall j :: 0 <= j < n ==> Admits(attempts[j]))
  }

  ghost predicate CallFits(call: Call, attempts: seq<Attempt>, authWindow: int) {
    match call.pc
    case AtIncr(i) => |attempts| == i < |call.limits| && Follows(attempts, call.limits, i)
    case AtExpire(i, n) =>
      |attempts| == i + 1 && Follows(attempts, call.limits, i) && attempts[i].count == n
    case AtTtl(i) =>
      |attempts| == i + 1 && Follows(attempts, call.limits, i) && !Admits(attempts[i])
    case Done(true, retry) =>
      |attempts| == |call.limits| && Follows(attempts, call.limits, |attempts|) && retry == 0
    case Done(false, retry) =>
      && 1 <= |attempts|
      && Follows(attempts, call.limits, |attempts| - 1)
      && !Admits(attempts[|attempts| - 1])
      && 1 <= retry <= Max(1, WindowOf(attempts[|attempts| - 1].key, authWindow))
  }

  ghost predicate CallHolds(s: State, c: nat) {
    if c in s.calls then CallFits(s.calls[c], CallLog(s.log, c), s.authWindow) else CallLog(s.log, c) == []
  }

  ghost predicate CallsOk(s: State) {
    forall c :: CallHolds(s, c)
  }

  lemma FollowsNext(attempts: seq<Attempt>, a: Attempt, limits: seq<Limit>)
    requires |attempts| < |limits| && Follows(attempts, limits, |attempts|)
    requires a.key == limits[|attempts|].key && a.max == limits[|attempts|].max
    ensures Follows(attempts + [a], limits, |attempts|)
    ensures Admits(a) ==> Follows(attempts + [a], limits, |attempts| + 1)
  {
  }

  lemma IncrFits(s: State, c: nat)
    requires CallHolds(s, c) && Enabled(s, Incr(c))
    ensures CallHolds(Apply(s, Incr(c)), c)
  {
    var t := Apply(s, Incr(c));
    var a := t.log[|s.log|];
    CallLogAppend(s.log, a, c);
    FollowsNext(CallLog(s.log, c), a, s.calls[c].limits);
  }

  lemma TtlBound(s: State, key: Key)
    requires CounterOk(s, key)
    ensures Ttl(s.store, s.now, key) <= Max(WindowOf(key, s.authWindow), 1)
  {
  }

  /** A call that sets a deadline or reads a TTL keeps its attempts and moves on as its count decides. */
  lemma MoverFits(s: State, c: nat)
    requires StoreOk(s) && CallHolds(s, c)
    ensures Enabled(s, ExpireKey(c)) ==> CallHolds(Apply(s, ExpireKey(c)), c)
    ensures Enabled(s, ReadTtl(c)) ==> CallHolds(Apply(s, ReadTtl(c)), c)
  {
    if Enabled(s, ReadTtl(c)) {
      assert CounterOk(s, s.calls[c].limits[s.calls[c].pc.i].key);
      TtlBound(s, s.calls[c].limits[s.calls[c].pc.i].key);
    }
  }

  lemma BystanderFits(s: State, step: Step, c: nat)
    requires CallHolds(s, c) && Enabled(s, step) && (step.Tick? || step.call != c || step.Begin?)
    ensures CallHolds(Apply(s, step), c)
  {
    var t := Apply(s, step);
    if step.Incr? { CallLogAppend(s.log, t.log[|s.log|], c); }
    assert CallLog(t.log, c) == CallLog(s.log, c) && t.authWindow == s.authWindow;
    if step.Begin? && step.call == c {
      assert CallFits(t.calls[c], [], t.authWindow);
    } else {
      assert c in t.calls <==> c in s.calls;
      assert c in s.calls ==> t.calls[c] == s.calls[c];
    }
  }

  lemma CallsStep(s: State, step: Step)
    requires StoreOk(s) && CallsOk(s) && Enabled(s, step)
    ensures CallsOk(Apply(s, step))
  {
    forall c ensures CallHolds(Apply(s, step), c) {
      assert CallHolds(s, c);
      if step == Incr(c) { IncrFits(s, c); }
      else if step == ExpireKey(c) || step == ReadTtl(c) { MoverFits(s, c); }
      else { BystanderFits(s, step, c); }
    }
  }

  lemma {:induction false} CallsExec(s: State, steps: seq<Step>)
    requires Inv(s) && CallsOk(s) && Runs(s, steps)
    ensures CallsOk(Exec(s, steps)) && Exec(s, steps).authWindow == s.authWindow
    decreases |steps|
  {
    if steps != [] {
      CallsStep(s, steps[0]);
      InvStep(s, steps[0]);
      CallsExec(Apply(s, steps[0]), steps[1..]);
    }
  }

  /**
    A finished call was allowed exactly when every one of its limits was counted
    and admitted it; a refused call stopped at the first limit that did not, left
    the later ones uncounted, and was told to wait between 1 second and that
    limit's window.
  */
  lemma CallOutcome(w: int, steps: seq<Step>, c: nat)
    requires Runs(Init(w), steps)
    requires c in Exec(Init(w), steps).calls && Exec(Init(w), steps).calls[c].pc.Done?
    ensures
      var s := Exec(Init(w), steps);
      var call := s.calls[c];
      var attempts := CallLog(s.log, c);
      && (call.pc.allowed ==>
            && |attempts| == |call.limits|
            && Follows(attempts, call.limits, |call.limits|)
            && call.pc.retryAfter == 0)
      && (!call.pc.allowed ==>
            && attempts != []
            && Follows(attempts, call.limits, |attempts| - 1)
            && !Admits(attempts[|attempts| - 1])
            && 1 <= call.pc.retryAfter <= Max(1, WindowOf(attempts[|attempts| - 1].key, w)))
  {
    CallsExec(Init(w), steps);
    assert CallHolds(Exec(Init(w), steps), c);
  }

  lemma AttemptsSoFar(w: int, steps: seq<Step>, c: nat)
    requires Runs(Init(w), steps) && c in Exec(Init(w), steps).calls
    ensures
      var call, n := Exec(Init(w), steps).calls[c], |CallLog(Exec(Init(w), steps).log, c)|;
      match call.pc
      case AtIncr(i) => n == i
      case AtExpire(i, _) => n == i + 1
      case AtTtl(i) => n == i + 1
      case Done(allowed, _) => allowed ==> n == |call.limits|
  {
    CallsExec(Init(w), steps);
    assert CallHolds(Exec(Init(w), steps), c);
  }

  // ----- the gateway's limits, as configured

  /**
    The attempts are on the counters of the given limits: the minute's, the hour's and
    the day's, each with its own maximum, in that order, as far as they go.
  */
  predicate InOrder(attempts: seq<Attempt>, scope: string, rpm: Option<int>, rph: Option<int>, rpd: Option<int>) {
    var hour := if rpm.Some? then 1 else 0;
    var day := hour + if rph.Some? then 1 else 0;
    var all := day + if rpd.Some? then 1 else 0;
    && |attempts| <= all
    && (rpm.Some? && |attempts| > 0 ==>
          attempts[0].key == AiKey(Minute, scope) && attempts[0].max == rpm.value)
    && (rph.Some? && |attempts| > hour ==>
          attempts[hour].key == AiKey(Hour, scope) && attempts[hour].max == rph.value)
    && (rpd.Some? && |attempts| > day ==>
          attempts[day].key == AiKey(Day, scope) && attempts[day].max == rpd.value)
  }

  function HowMany(rpm: Option<int>, rph: Option<int>, rpd: Option<int>): nat {
    (if rpm.Some? then 1 else 0) + (if rph.Some? then 1 else 0) + (if rpd.Some? then 1 else 0)
  }

  lemma FollowsInOrder(
      attempts: seq<Attempt>, n: nat, scope: string, rpm: Option<int>, rph: Option<int>, rpd: Option<int>)
    requires Follows(attempts, AiLimits(scope, rpm, rph, rpd), n)
    ensures InOrder(attempts, scope, rpm, rph, rpd) && |AiLimits(scope, rpm, rph, rpd)| == HowMany(rpm, rph, rpd)
  {
  }

  /** The counter's deadline, if it has one, is no less than `window` after its birth and no more than that from now. */
  predicate DeadlineWithin(s: State, key: Key, window: int) {
    key in s.store && s.store[key].deadline.Some? ==>
      && key in s.births
      && s.births[key].time + window <= s.store[key].deadline.value <= s.now + window
  }

  lemma DeadlineOfWindow(s: State, key: Key)
    requires CounterOk(s, key)
    ensures DeadlineWithin(s, key, 1000 * WindowOf(key, s.authWindow))
  {
  }

  lemma Windows(scope: string, w: int)
    ensures WindowOf(AiKey(Minute, scope), w) == 60 && WindowOf(AiKey(Hour, scope), w) == 3600
    ensures WindowOf(AiKey(Day, scope), w) == 86400
  {
  }

  /** The windows of the counters, in milliseconds: a deadline lies one window after its counter's birth. */
  lemma WindowsAre(w: int, steps: seq<Step>, scope: string)
    requires Runs(Init(w), steps)
    ensures
      var s := Exec(Init(w), steps);
      && DeadlineWithin(s, AiKey(Minute, scope), 60000)
      && DeadlineWithin(s, AiKey(Hour, scope), 3600000)
      && DeadlineWithin(s, AiKey(Day, scope), 86400000)
      && forall path, ip :: DeadlineWithin(s, AuthKey(path, ip), 1000 * w)
  {
    var s := Exec(Init(w), steps);
    InvReachable(w, steps);
    CallsExec(Init(w), steps);
    Windows(scope, w);
    hide DeadlineWithin, CounterOk;
    DeadlineOfWindow(s, AiKey(Minute, scope));
    DeadlineOfWindow(s, AiKey(Hour, scope));
    DeadlineOfWindow(s, AiKey(Day, scope));
    forall path, ip ensures DeadlineWithin(s, AuthKey(path, ip), 1000 * w) {
      DeadlineOfWindow(s, AuthKey(path, ip));
    }
  }

  // ----- a lost EXPIRE

  /** The counter has no deadline and nobody is going to set one. */
  ghost predicate Orphaned(s: State, key: Key) {
    && key in s.store && s.store[key].deadline.None? && s.store[key].value >= 1
    && (forall c :: !Owes(s, c, key))
  }

  predicate InProgress(s: State, c: nat) {
    c in s.calls && CallOk(s.calls[c]) && !s.calls[c].pc.Done?
  }

  /** A Redis error lets the check of one limit pass, and the call goes on to the next. */
  function FailOpen(s: State, c: nat): State
    requires InProgress(s, c)
  {
    var call := s.calls[c];
    var next := call.pc.i + 1;
    s.(calls := SetPc(s.calls, c, if next < |call.limits| then AtIncr(next) else Done(true, 0)))
  }

  /** Failing open leaves a counter orphaned exactly when the call owed that counter its EXPIRE. */
  lemma FailureOrphans(s: State, c: nat, key: Key)
    requires Inv(s) && InProgress(s, c)
    ensures Orphaned(FailOpen(s, c), key) <==> Owes(s, c, key)
  {
    var t := FailOpen(s, c);
    assert CounterOk(s, key);
    assert forall d :: d != c && Owes(t, d, key) ==> Owes(s, d, key);
    if Orphaned(t, key) {
      var d :| Owes(s, d, key);
      assert d != c ==> Owes(t, d, key);
    }
  }

  /** It does happen: a new call whose EXPIRE fails on a counter it has just created leaves an orphan. */
  lemma OrphanArises(s: State, c: nat, limits: seq<Limit>)
    requires Inv(s) && c !in s.calls && limits != [] && limits[0].key !in s.store
    ensures
      var steps := [Begin(c, limits), Incr(c)];
      && Runs(s, steps)
      && Owes(Exec(s, steps), c, limits[0].key)
      && Orphaned(FailOpen(Exec(s, steps), c), limits[0].key)
  {
    var begun := Apply(s, Begin(c, limits));
    RunsOne(s, Begin(c, limits));
    RunsOne(begun, Incr(c));
    RunsConcat(s, [Begin(c, limits)], [Incr(c)]);
    assert [Begin(c, limits)] + [Incr(c)] == [Begin(c, limits), Incr(c)];
    InvStep(s, Begin(c, limits));
    InvStep(begun, Incr(c));
    FailureOrphans(Apply(begun, Incr(c)), c, limits[0].key);
  }

  lemma OrphanStep(s: State, step: Step, key: Key)
    requires Orphaned(s, key) && Enabled(s, step)
    ensures Orphaned(Apply(s, step), key) && Apply(s, step).store[key].value >= s.store[key].value
    ensures step.Incr? && Apply(s, step).log[|s.log|].key == key ==>
              Apply(s, step).log[|s.log|].count > s.store[key].value
  {
    var t := Apply(s, step);
    if step.ExpireKey? { assert !Owes(s, step.call, key); }
    forall c ensures !Owes(t, c, key) {
      assert !Owes(s, c, key);
    }
  }

  /**
    Such a counter outlives every run: it never expires and only grows, so once it
    reaches a limit every later attempt with that limit is refused.
  */
  lemma {:induction false} OrphanForever(s: State, steps: seq<Step>, key: Key)
    requires Orphaned(s, key) && Runs(s, steps)
    ensures Orphaned(Exec(s, steps), key)
    ensures s.log <= Exec(s, steps).log
    ensures forall i :: |s.log| <= i < |Exec(s, steps).log| && Exec(s, steps).log[i].key == key ==>
              Exec(s, steps).log[i].count > s.store[key].value
    decreases |steps|
  {
    if steps != [] {
      OrphanStep(s, steps[0], key);
      OrphanForever(Apply(s, steps[0]), steps[1..], key);
    }
  }
}
