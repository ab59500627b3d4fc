/**
  The token budget as a state machine.  A request first GETs each of its budget
  keys, and only after the model has answered adds what it used, in one MULTI
  pipeline of INCRBYs followed by one pipeline of EXPIREs.
*/
module TokenBudget {
  import opened Wrappers
  import opened Redis

  datatype Key = Key(period: Period, scope: string)

  datatype Budget = Budget(key: Key, max: int)

  datatype Pc =
    | Checking(i: nat)
    | AtTtl(i: nat)
    | Refused(retryAfter: int)
    | InFlight
    | Owing(keys: set<Key>)
    | Finished

  datatype Request = Request(budgets: seq<Budget>, requested: int, pc: Pc)

  /** Requests are never forgotten, and known by their position. */
  datatype State = State(now: int, store: Store<Key>, requests: seq<Request>)

  datatype Step =
    | Begin(scope: string, tpm: Option<int>, tph: Option<int>, tpd: Option<int>, requested: int)
    | Get(r: nat)
    | ReadTtl(r: nat)
    | Report(r: nat, used: int)
    | ExpireKeys(r: nat)
    | Tick(elapsed: int)

  function Init(): State {
    State(0, map[], [])
  }

  function Budgets(scope: string, tpm: Option<int>, tph: Option<int>, tpd: Option<int>): seq<Budget> {
    (if tpm.Some? then [Budget(Key(Minute, scope), tpm.value)] else []) +
    (if tph.Some? then [Budget(Key(Hour, scope), tph.value)] else []) +
    (if tpd.Some? then [Budget(Key(Day, scope), tpd.value)] else [])
  }

  /** One budget for each limit that is given: the minute's, the hour's and the day's, in that order. */
  predicate InOrder(budgets: seq<Budget>, scope: string, tpm: Option<int>, tph: Option<int>, tpd: Option<int>) {
    var hour := if tpm.Some? then 1 else 0;
    var day := hour + if tph.Some? then 1 else 0;
    && |budgets| == day + (if tpd.Some? then 1 else 0)
    && (tpm.Some? ==> budgets[0] == Budget(Key(Minute, scope), tpm.value))
    && (tph.Some? ==> budgets[hour] == Budget(Key(Hour, scope), tph.value))
    && (tpd.Some? ==> budgets[day] == Budget(Key(Day, scope), tpd.value))
  }

  lemma BudgetsInOrder(scope: string, tpm: Option<int>, tph: Option<int>, tpd: Option<int>)
    ensures InOrder(Budgets(scope, tpm, tph, tpd), scope, tpm, tph, tpd)
  {
  }

  function After(budgets: seq<Budget>, i: nat): Pc {
    if i < |budgets| then Checking(i) else InFlight
  }

  predicate Enabled(s: State, step: Step) {
    match step
    case Begin(_, _, _, _, _) => true
    case Get(r) => r < |s.requests| && s.requests[r].pc.Checking? && s.requests[r].pc.i < |s.requests[r].budgets|
    case ReadTtl(r) => r < |s.requests| && s.requests[r].pc.AtTtl? && s.requests[r].pc.i < |s.requests[r].budgets|
    case Report(r, _) => r < |s.requests| && s.requests[r].pc.InFlight?
    case ExpireKeys(r) => r < |s.requests| && s.requests[r].pc.Owing?
    case Tick(elapsed) => elapsed > 0
  }

  /** The INCRBY pipeline: the new store, and the value each command returned. */
  function IncrAll(store: Store<Key>, budgets: seq<Budget>, used: int): (result: (Store<Key>, seq<int>))
    ensures |result.1| == |budgets|
    decreases |budgets|
  {
    if budgets == [] then (store, [])
    else
      var next := IncrBy(store, budgets[0].key, used);
      var rest := IncrAll(next, budgets[1..], used);
      (rest.0, [next[budgets[0].key].value] + rest.1)
  }

  /** The keys whose counter came back equal to what was just added. */
  function Created(budgets: seq<Budget>, results: seq<int>, used: int): set<Key>
    requires |results| == |budgets|
  {
    set i | 0 <= i < |budgets| && results[i] == used :: budgets[i].key
  }

  /** The budget keys that have no counter. */
  function Missing(store: Store<Key>, budgets: seq<Budget>): set<Key> {
    set i | 0 <= i < |budgets| && budgets[i].key !in store :: budgets[i].key
  }

  /** The EXPIRE pipeline. */
  function ExpireAll(store: Store<Key>, now: int, budgets: seq<Budget>, keys: set<Key>): Store<Key>
    decreases |budgets|
  {
    if budgets == [] then store
    else
      var k := budgets[0].key;
      ExpireAll(if k in keys then Expire(store, now, k, PeriodSeconds(k.period)) else store, now, budgets[1..], keys)
  }

  function SetPc(s: State, r: nat, pc: Pc): seq<Request>
    requires r < |s.requests|
  {
    s.requests[r := s.requests[r].(pc := pc)]
  }

  /** A budget has room when its counter is missing or stays within the limit. */
  predicate Room(store: Store<Key>, b: Budget, requested: int) {
    b.key in store ==> store[b.key].value + requested <= b.max
  }

  function Apply(s: State, step: Step): State
    requires Enabled(s, step)
  {
    match step
    case Begin(scope, tpm, tph, tpd, requested) =>
      var budgets := Budgets(scope, tpm, tph, tpd);
      s.(requests := s.requests + [Request(budgets, requested, After(budgets, 0))])
    case Get(r) =>
      var req := s.requests[r];
      var i := req.pc.i;
      var room := Room(s.store, req.budgets[i], req.requested);
      s.(requests := SetPc(s, r, if room then After(req.budgets, i + 1) else AtTtl(i)))
    case ReadTtl(r) =>
      var req := s.requests[r];
      s.(requests := SetPc(s, r, Refused(Max(Ttl(s.store, s.now, req.budgets[req.pc.i].key), 1))))
    case Report(r, used) =>
      if used <= 0 then s.(requests := SetPc(s, r, Finished))
      else
        var req := s.requests[r];
        var (store, results) := IncrAll(s.store, req.budgets, used);
        s.(store := store, requests := SetPc(s, r, Owing(Created(req.budgets, results, used))))
    case ExpireKeys(r) =>
      var req := s.requests[r];
      s.(store := ExpireAll(s.store, s.now, req.budgets, req.pc.keys), requests := SetPc(s, r, Finished))
    case Tick(elapsed) => s.(now := s.now + elapsed, store := Purge(s.store, s.now + elapsed))
  }

  predicate Runs(s: State, steps: seq<Step>)
    decreases |steps|
  {
    steps == [] || (Enabled(s, steps[0]) && Runs(Apply(s, steps[0]), steps[1..]))
  }

  function Exec(s: State, steps: seq<Step>): State
    requires Runs(s, steps)
    decreases |steps|
  {
    if steps == [] then s else Exec(Apply(s, steps[0]), steps[1..])
  }

  lemma RunsOne(s: State, step: Step)
    requires Enabled(s, step)
    ensures Runs(s, [step]) && Exec(s, [step]) == Apply(s, step)
  {
    assert [step][1..] == [];
    assert Runs(Apply(s, step), []) && Exec(Apply(s, step), []) == Apply(s, step);
  }

  lemma {:induction false} RunsConcat(s: State, a: seq<Step>, b: seq<Step>)
    requires Runs(s, a) && Runs(Exec(s, a), b)
    ensures Runs(s, a + b) && Exec(s, a + b) == Exec(Exec(s, a), b)
    decreases |a|
  {
    if a == [] {
      assert a + b == b;
    } else {
      RunsConcat(Apply(s, a[0]), a[1..], b);
      assert (a + b)[1..] == a[1..] + b;
    }
  }

  // ----- the pipelines, key by key

  function Value(store: Store<Key>, key: Key): int {
    if key in store then store[key].value else 0
  }

  predicate Names(budgets: seq<Budget>, key: Key) {
    exists i :: 0 <= i < |budgets| && budgets[i].key == key
  }

  predicate Distinct(budgets: seq<Budget>) {
    forall i, j :: 0 <= i < j < |budgets| ==> budgets[i].key != budgets[j].key
  }

  /** With distinct keys, each named counter grows by `used` and reports its own new value. */
  lemma {:induction false} IncrAllEffect(store: Store<Key>, budgets: seq<Budget>, used: int, key: Key)
    requires Distinct(budgets)
    decreases |budgets|
    ensures
      var (after, results) := IncrAll(store, budgets, used);
      && (key in after <==> key in store || Names(budgets, key))
      && (Names(budgets, key) ==>
            after[key] == if key in store then store[key].(value := store[key].value + used) else Counter(used, None))
      && (!Names(budgets, key) && key in store ==> after[key] == store[key])
      && (forall i :: 0 <= i < |budgets| && budgets[i].key == key ==> results[i] == Value(store, key) + used)
  {
    if budgets != [] {
      var next := IncrBy(store, budgets[0].key, used);
      assert Distinct(budgets[1..]);
      IncrAllEffect(next, budgets[1..], used, key);
      assert forall i :: 1 <= i < |budgets| ==> budgets[i] == budgets[1..][i - 1];
      if Names(budgets[1..], key) {
        var j :| 0 <= j < |budgets[1..]| && budgets[1..][j].key == key;
        assert budgets[j + 1].key == key;
      }
      if budgets[0].key == key {
        assert !Names(budgets[1..], key);
      } else if Names(budgets, key) {
        var j :| 0 <= j < |budgets| && budgets[j].key == key;
        assert budgets[1..][j - 1].key == key;
      }
    }
  }

  /** `count == used` singles out the counters this pipeline created, because stored values are positive. */
  lemma CreatedExactly(store: Store<Key>, budgets: seq<Budget>, used: int)
    requires Distinct(budgets) && forall k :: k in store ==> store[k].value >= 1
    ensures Created(budgets, IncrAll(store, budgets, used).1, used) == Missing(store, budgets)
  {
    var results := IncrAll(store, budgets, used).1;
    forall i | 0 <= i < |budgets| ensures results[i] == used <==> budgets[i].key !in store {
      IncrAllEffect(store, budgets, used, budgets[i].key);
    }
  }

  lemma {:induction false} ExpireAllEffect(store: Store<Key>, now: int, budgets: seq<Budget>, keys: set<Key>, key: Key)
    decreases |budgets|
    ensures
      var after := ExpireAll(store, now, budgets, keys);
      && (key in after <==> key in store)
      && (key in store ==>
            after[key] ==
              if key in keys && Names(budgets, key)
              then store[key].(deadline := Some(now + 1000 * PeriodSeconds(key.period)))
              else store[key])
  {
    if budgets != [] {
      var k := budgets[0].key;
      var next := if k in keys then Expire(store, now, k, PeriodSeconds(k.period)) else store;
      ExpireAllEffect(next, now, budgets[1..], keys, key);
      if Names(budgets[1..], key) {
        var j :| 0 <= j < |budgets[1..]| && budgets[1..][j].key == key;
        assert budgets[j + 1].key == key;
      }
      if Names(budgets, key) && k != key {
        var j :| 0 <= j < |budgets| && budgets[j].key == key;
        assert budgets[1..][j - 1].key == key;
      }
    }
  }
}
