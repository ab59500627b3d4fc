/**
  The fixed-window limiter as a state machine.  Many calls interleave: each step
  below is one Redis command issued by one call, or the passing of time.  Client
  code between two commands touches nothing shared, so it is part of the step.
*/
module RateLimiter {
  import opened Wrappers
  import opened Redis

  datatype Key =
    | AuthKey(path: string, ip: string)
    | AiKey(period: Period, scope: string)

  datatype Limit = Limit(key: Key, max: int)

  /** Where a call stands: the command it issues next, or its answer. */
  datatype Pc =
    | AtIncr(i: nat)
    | AtExpire(i: nat, count: int)
    | AtTtl(i: nat)
    | Done(allowed: bool, retryAfter: int)

  datatype Call = Call(limits: seq<Limit>, pc: Pc)

  /** One INCR as history records it: `count` is the value Redis returned, `born` when that counter was created. */
  datatype Attempt = Attempt(call: nat, key: Key, max: int, generation: nat, count: int, time: int, born: int)

  /** The latest counter created under a key: its number among the counters of that key, and when it was created. */
  datatype Birth = Birth(generation: nat, time: int)

  /** `births` and `log` are history; no step's effect on the other fields depends on them. */
  datatype State = State(
    authWindow: int,
    now: int,
    store: Store<Key>,
    calls: map<nat, Call>,
    births: map<Key, Birth>,
    log: seq<Attempt>)

  datatype Step =
    | Begin(call: nat, limits: seq<Limit>)
    | Incr(call: nat)
    | ExpireKey(call: nat)
    | ReadTtl(call: nat)
    | Tick(elapsed: int)

  function Init(authWindow: int): State {
    State(authWindow, 0, map[], map[], map[], [])
  }

  /** The window of a key, in seconds. */
  function WindowOf(key: Key, authWindow: int): int {
    match key
    case AuthKey(_, _) => authWindow
    case AiKey(period, _) => PeriodSeconds(period)
  }

  /** The limits a gateway request is checked against, in the order they are tried. */
  function AiLimits(scope: string, rpm: Option<int>, rph: Option<int>, rpd: Option<int>): seq<Limit> {
    (if rpm.Some? then [Limit(AiKey(Minute, scope), rpm.value)] else []) +
    (if rph.Some? then [Limit(AiKey(Hour, scope), rph.value)] else []) +
    (if rpd.Some? then [Limit(AiKey(Day, scope), rpd.value)] else [])
  }

  function Start(limits: seq<Limit>): Pc {
    if limits == [] then Done(true, 0) else AtIncr(0)
  }

  /** The pc once the counter of limit `i` is known to stand at `count`. */
  function Judge(limits: seq<Limit>, i: nat, count: int): Pc
    requires i < |limits|
  {
    if count > limits[i].max then AtTtl(i)
    else if i + 1 < |limits| then AtIncr(i + 1)
    else Done(true, 0)
  }

  predicate CallOk(call: Call) {
    match call.pc
    case AtIncr(i) => i < |call.limits|
    case AtExpire(i, _) => i < |call.limits|
    case AtTtl(i) => i < |call.limits|
    case Done(_, _) => true
  }

  predicate Enabled(s: State, step: Step) {
    match step
    case Begin(c, _) => c !in s.calls
    case Incr(c) => c in s.calls && CallOk(s.calls[c]) && s.calls[c].pc.AtIncr?
    case ExpireKey(c) => c in s.calls && CallOk(s.calls[c]) && s.calls[c].pc.AtExpire?
    case ReadTtl(c) => c in s.calls && CallOk(s.calls[c]) && s.calls[c].pc.AtTtl?
    case Tick(elapsed) => elapsed > 0
  }

  function SetPc(calls: map<nat, Call>, c: nat, pc: Pc): map<nat, Call>
    requires c in calls
  {
    calls[c := calls[c].(pc := pc)]
  }

  function NextBirth(s: State, key: Key): Birth {
    if key in s.store && key in s.births then s.births[key]
    else if key in s.births then Birth(s.births[key].generation + 1, s.now)
    else Birth(0, s.now)
  }

  function ApplyIncr(s: State, c: nat): State
    requires Enabled(s, Incr(c))
  {
    var call := s.calls[c];
    var i := call.pc.i;
    var key := call.limits[i].key;
    var store := IncrBy(s.store, key, 1);
    var count := store[key].value;
    var birth := NextBirth(s, key);
    s.(store := store,
       calls := SetPc(s.calls, c, if count == 1 then AtExpire(i, count) else Judge(call.limits, i, count)),
       births := s.births[key := birth],
       log := s.log + [Attempt(c, key, call.limits[i].max, birth.generation, count, s.now, birth.time)])
  }

  function ApplyExpire(s: State, c: nat): State
    requires Enabled(s, ExpireKey(c))
  {
    var call := s.calls[c];
    var key := call.limits[call.pc.i].key;
    s.(store := Expire(s.store, s.now, key, WindowOf(key, s.authWindow)),
       calls := SetPc(s.calls, c, Judge(call.limits, call.pc.i, call.pc.count)))
  }

  function ApplyTtl(s: State, c: nat): State
    requires Enabled(s, ReadTtl(c))
  {
    var call := s.calls[c];
    var ttl := Ttl(s.store, s.now, call.limits[call.pc.i].key);
    s.(calls := SetPc(s.calls, c, Done(false, Max(ttl, 1))))
  }

  function Apply(s: State, step: Step): State
    requires Enabled(s, step)
  {
    match step
    case Begin(c, limits) => s.(calls := s.calls[c := Call(limits, Start(limits))])
    case Incr(c) => ApplyIncr(s, c)
    case ExpireKey(c) => ApplyExpire(s, c)
    case ReadTtl(c) => ApplyTtl(s, c)
    case Tick(elapsed) => s.(now := s.now + elapsed, store := Purge(s.store, s.now + elapsed))
  }

  /** `steps` can be taken one after the other from `s`. */
  predicate Runs(s: State, steps: seq<Step>)
    decreases |steps|
  {
    steps == [] || (Enabled(s, steps[0]) && Runs(Apply(s, steps[0]), steps[1..]))
  }

  function Exec(s: State, steps: seq<Step>): State
    requires Runs(s, steps)
    decreases |steps|
  {
    if steps == [] then s else Exec(Apply(s, steps[0]), steps[1..])
  }

  lemma RunsOne(s: State, step: Step)
    requires Enabled(s, step)
    ensures Runs(s, [step]) && Exec(s, [step]) == Apply(s, step)
  {
    assert [step][1..] == [];
    assert Runs(Apply(s, step), []) && Exec(Apply(s, step), []) == Apply(s, step);
  }

  lemma {:induction false} RunsConcat(s: State, a: seq<Step>, b: seq<Step>)
    requires Runs(s, a) && Runs(Exec(s, a), b)
    ensures Runs(s, a + b) && Exec(s, a + b) == Exec(Exec(s, a), b)
    decreases |a|
  {
    if a == [] {
      assert a + b == b;
    } else {
      RunsConcat(Apply(s, a[0]), a[1..], b);
      assert (a + b)[1..] == a[1..] + b;
    }
  }

  // ----- who owes an EXPIRE

  predicate Owes(s: State, c: nat, key: Key) {
    && c in s.calls
    && CallOk(s.calls[c])
    && s.calls[c].pc.AtExpire?
    && s.calls[c].limits[s.calls[c].pc.i].key == key
  }

  /** Counters without a deadline and calls about to set one correspond one to one. */
  ghost predicate Obligations(s: State) {
    && (forall c, key :: Owes(s, c, key) ==>
          key in s.store && s.store[key].deadline.None? && s.calls[c].pc.count == 1)
    && (forall c, d, key :: Owes(s, c, key) && Owes(s, d, key) ==> c == d)
    && (forall key :: key in s.store && s.store[key].deadline.None? ==> exists c :: Owes(s, c, key))
  }

  // ----- generations

  /** How many attempts of `log` fell on generation `g` of `key`. */
  function Attempts(log: seq<Attempt>, key: Key, g: nat): nat {
    if log == [] then 0
    else
      var last := log[|log| - 1];
      Attempts(log[..|log| - 1], key, g) + if last.key == key && last.generation == g then 1 else 0
  }

  predicate Admits(a: Attempt) {
    a.count <= a.max
  }

  /** How many of them were admitted. */
  function Admitted(log: seq<Attempt>, key: Key, g: nat): nat {
    if log == [] then 0
    else
      var last := log[|log| - 1];
      Admitted(log[..|log| - 1], key, g) +
      if last.key == key && last.generation == g && Admits(last) then 1 else 0
  }

  function Span(s: State, key: Key): int {
    1000 * WindowOf(key, s.authWindow)
  }

  /**
    A stored counter holds the number of attempts of its generation; a missing one
    expired a window after its birth.
  */
  predicate CounterOk(s: State, key: Key) {
    && (key in s.store ==>
          && key in s.births
          && s.store[key].value >= 1
          && s.store[key].value == Attempts(s.log, key, s.births[key].generation)
          && Alive(s.store[key], s.now)
          && (s.store[key].deadline.Some? ==>
                s.births[key].time + Span(s, key) <= s.store[key].deadline.value <= s.now + Span(s, key)))
    && (key in s.births ==>
          && s.births[key].time <= s.now
          && (key !in s.store ==> s.births[key].time + Span(s, key) <= s.now))
  }

  ghost predicate StoreOk(s: State) {
    forall key :: CounterOk(s, key)
  }

  /** An attempt of an earlier generation ended before, and began a window before, a later one. */
  predicate Precedes(a: Attempt, generation: nat, born: int, span: int) {
    && a.generation <= generation
    && (a.generation == generation ==> a.born == born)
    && (a.generation < generation ==> a.born + span <= born && a.time <= born)
  }

  predicate EntryOk(s: State, i: nat)
    requires i < |s.log|
  {
    var a := s.log[i];
    && a.key in s.births
    && a.born <= a.time <= s.now
    && a.count == Attempts(s.log[..i], a.key, a.generation) + 1
    && (a.count == 1 ==> a.time == a.born)
    && Precedes(a, s.births[a.key].generation, s.births[a.key].time, Span(s, a.key))
  }

  predicate PairOk(s: State, i: nat, j: nat)
    requires i < |s.log| && j < |s.log|
  {
    var a, b := s.log[i], s.log[j];
    a.key == b.key ==> a.time <= b.time && Precedes(a, b.generation, b.born, Span(s, a.key))
  }

  ghost predicate LogOk(s: State) {
    && (forall i :: 0 <= i < |s.log| ==> EntryOk(s, i))
    && (forall i, j :: 0 <= i < j < |s.log| ==> PairOk(s, i, j))
  }
}
