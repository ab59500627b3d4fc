/** The inductive invariant of the limiter, proved step by step. */
module RateLimiterInvariants {
  import opened RateLimiter

  ghost predicate Inv(s: State) {
    Obligations(s) && StoreOk(s) && LogOk(s)
  }

  lemma {:induction false} NoAttempts(log: seq<Attempt>, key: Key, g: nat)
    requires forall i :: 0 <= i < |log| ==> !(log[i].key == key && log[i].generation == g)
    ensures Attempts(log, key, g) == 0
  {
    if log != [] { NoAttempts(log[..|log| - 1], key, g); }
  }

  lemma AttemptsAppend(log: seq<Attempt>, a: Attempt, key: Key, g: nat)
    ensures Attempts(log + [a], key, g) == Attempts(log, key, g) + if a.key == key && a.generation == g then 1 else 0
  {
    assert (log + [a])[..|log|] == log;
  }

  lemma IncrObligations(s: State, c: nat)
    requires Inv(s) && Enabled(s, Incr(c))
    ensures Obligations(Apply(s, Incr(c)))
  {
    var t := Apply(s, Incr(c));
    var call := s.calls[c];
    var key := call.limits[call.pc.i].key;
    assert forall d, k :: d != c ==> (Owes(t, d, k) <==> Owes(s, d, k));
    assert forall k :: !Owes(s, c, k);
    if key in s.store {
      assert CounterOk(s, key);
      assert forall k :: !Owes(t, c, k);
    } else {
      assert Owes(t, c, key);
      assert forall k :: Owes(t, c, k) ==> k == key;
    }
    forall k | k in t.store && t.store[k].deadline.None? ensures exists d :: Owes(t, d, k) {
      if k != key || key in s.store {
        var d :| Owes(s, d, k);
        assert Owes(t, d, k);
      }
    }
  }

  lemma ExpireObligations(s: State, c: nat)
    requires Inv(s) && Enabled(s, ExpireKey(c))
    ensures Obligations(Apply(s, ExpireKey(c)))
  {
    var t := Apply(s, ExpireKey(c));
    var call := s.calls[c];
    var key := call.limits[call.pc.i].key;
    assert Owes(s, c, key);
    assert forall d, k :: d != c ==> (Owes(t, d, k) <==> Owes(s, d, k));
    assert forall k :: !Owes(t, c, k);
    forall k | k in t.store && t.store[k].deadline.None? ensures exists d :: Owes(t, d, k) {
      assert k != key;
      var d :| Owes(s, d, k);
      assert Owes(t, d, k);
    }
  }

  lemma OtherObligations(s: State, step: Step)
    requires Inv(s) && Enabled(s, step) && !step.Incr? && !step.ExpireKey?
    ensures Obligations(Apply(s, step))
  {
    var t := Apply(s, step);
    assert forall d, k :: Owes(t, d, k) <==> Owes(s, d, k);
    forall k | k in t.store && t.store[k].deadline.None? ensures exists d :: Owes(t, d, k) {
      var d :| Owes(s, d, k);
      assert Owes(t, d, k);
    }
  }

  /** Every generation in the log is at most the current one of its key. */
  lemma GenerationBound(s: State, key: Key, g: nat)
    requires LogOk(s) && (key in s.births ==> s.births[key].generation < g)
    ensures Attempts(s.log, key, g) == 0
  {
    forall i | 0 <= i < |s.log| ensures !(s.log[i].key == key && s.log[i].generation == g) {
      assert EntryOk(s, i);
    }
    NoAttempts(s.log, key, g);
  }

  /** The new attempt: its generation is the current one, and opens only after the last one has run a window. */
  lemma IncrCounts(s: State, c: nat)
    requires StoreOk(s) && LogOk(s) && Enabled(s, Incr(c))
    ensures
      var t := Apply(s, Incr(c));
      var a := t.log[|s.log|];
      && t.log == s.log + [a]
      && t.births == s.births[a.key := Birth(a.generation, a.born)]
      && a.key in t.store && a.count == t.store[a.key].value
      && a.born <= a.time == s.now
      && a.count == Attempts(s.log, a.key, a.generation) + 1
      && (a.count == 1 ==> a.time == a.born)
  {
    var t := Apply(s, Incr(c));
    var a := t.log[|s.log|];
    assert CounterOk(s, a.key);
    if a.key !in s.store { GenerationBound(s, a.key, a.generation); }
  }

  lemma IncrStore(s: State, c: nat)
    requires StoreOk(s) && LogOk(s) && Enabled(s, Incr(c))
    ensures StoreOk(Apply(s, Incr(c)))
  {
    var t := Apply(s, Incr(c));
    var a := t.log[|s.log|];
    IncrCounts(s, c);
    forall k ensures CounterOk(t, k) {
      assert CounterOk(s, k);
      if k in t.births { AttemptsAppend(s.log, a, k, t.births[k].generation); }
    }
  }

  lemma ExpireStore(s: State, c: nat)
    requires Inv(s) && Enabled(s, ExpireKey(c))
    ensures StoreOk(Apply(s, ExpireKey(c)))
  {
    var t := Apply(s, ExpireKey(c));
    var call := s.calls[c];
    assert Owes(s, c, call.limits[call.pc.i].key);
    forall k ensures CounterOk(t, k) {
      assert CounterOk(s, k);
    }
  }

  lemma IncrPair(s: State, c: nat, i: nat)
    requires StoreOk(s) && LogOk(s) && Enabled(s, Incr(c)) && i < |s.log|
    ensures
      var t := Apply(s, Incr(c));
      EntryOk(t, i) && PairOk(t, i, |s.log|)
  {
    var t := Apply(s, Incr(c));
    assert t.log[i] == s.log[i] && t.log[..i] == s.log[..i];
    assert EntryOk(s, i) && CounterOk(s, s.log[i].key);
  }

  lemma IncrLog(s: State, c: nat)
    requires StoreOk(s) && LogOk(s) && Enabled(s, Incr(c))
    ensures LogOk(Apply(s, Incr(c)))
  {
    var t := Apply(s, Incr(c));
    var n := |s.log|;
    IncrCounts(s, c);
    forall i: nat | i <= n ensures EntryOk(t, i) {
      if i < n { IncrPair(s, c, i); } else { assert t.log[..n] == s.log; }
    }
    forall i: nat, j: nat | i < j <= n ensures PairOk(t, i, j) {
      if j < n { assert PairOk(s, i, j); } else { IncrPair(s, c, i); }
    }
  }

  /** A step that issues no INCR leaves history alone. */
  lemma QuietLog(s: State, step: Step)
    requires LogOk(s) && Enabled(s, step) && !step.Incr?
    ensures LogOk(Apply(s, step))
  {
    var t := Apply(s, step);
    assert t.log == s.log && t.births == s.births && t.authWindow == s.authWindow && s.now <= t.now;
    forall i: nat | i < |s.log| ensures EntryOk(t, i) { assert EntryOk(s, i); }
    forall i: nat, j: nat | i < j < |s.log| ensures PairOk(t, i, j) { assert PairOk(s, i, j); }
  }

  lemma QuietStore(s: State, step: Step)
    requires StoreOk(s) && Enabled(s, step) && !step.Incr? && !step.ExpireKey?
    ensures StoreOk(Apply(s, step))
  {
    var t := Apply(s, step);
    forall k ensures CounterOk(t, k) { assert CounterOk(s, k); }
  }

  lemma InvStep(s: State, step: Step)
    requires Inv(s) && Enabled(s, step)
    ensures Inv(Apply(s, step))
  {
    match step
    case Incr(c) => IncrObligations(s, c); IncrStore(s, c); IncrLog(s, c);
    case ExpireKey(c) => ExpireObligations(s, c); ExpireStore(s, c); QuietLog(s, step);
    case _ => OtherObligations(s, step); QuietStore(s, step); QuietLog(s, step);
  }

  lemma {:induction false} InvExec(s: State, steps: seq<Step>)
    requires Inv(s) && Runs(s, steps)
    ensures Inv(Exec(s, steps))
    decreases |steps|
  {
    if steps != [] {
      InvStep(s, steps[0]);
      InvExec(Apply(s, steps[0]), steps[1..]);
    }
  }

  lemma InvReachable(w: int, steps: seq<Step>)
    requires Runs(Init(w), steps)
    ensures Inv(Exec(Init(w), steps))
  {
    InvExec(Init(w), steps);
  }
}
