/** The two client functions of the token budget, run among arbitrary other requests. */
module TokenBudgetClient {
  import opened Wrappers
  import opened Redis
  import opened TokenBudget
  import opened TokenBudgetTheorems

  predicate By(step: Step, r: nat) {
    match step
    case Begin(_, _, _, _, _) => false
    case Tick(_) => false
    case _ => step.r == r
  }

  lemma OthersKeepRequest(s: State, step: Step, r: nat)
    requires Enabled(s, step) && r < |s.requests| && !By(step, r)
    ensures r < |Apply(s, step).requests| && Apply(s, step).requests[r] == s.requests[r]
  {
  }

  class Server {
    var state: State
    /** What the rest of the system does at each point where the client may be preempted. */
    var schedule: seq<seq<Step>>
    ghost var trace: seq<Step>

    ghost predicate Valid()
      reads this
    {
      Runs(Init(), trace) && state == Exec(Init(), trace)
    }

    constructor (schedule: seq<seq<Step>>)
      ensures Valid() && trace == []
    {
      this.schedule := schedule;
      state := Init();
      trace := [];
    }

    method Take(step: Step)
      requires Valid() && Enabled(state, step)
      modifies this`state, this`trace
      ensures Valid() && trace == old(trace) + [step] && state == Apply(old(state), step)
    {
      RunsOne(state, step);
      RunsConcat(Init(), trace, [step]);
      state := Apply(state, step);
      trace := trace + [step];
    }

    method Others(r: nat)
      requires Valid() && r < |state.requests|
      modifies this
      ensures Valid() && old(trace) <= trace
      ensures r < |state.requests| && state.requests[r] == old(state.requests[r])
    {
      if schedule == [] { return; }
      var batch := schedule[0];
      schedule := schedule[1..];
      for n := 0 to |batch|
        invariant Valid() && old(trace) <= trace
        invariant r < |state.requests| && state.requests[r] == old(state.requests[r])
      {
        if Enabled(state, batch[n]) && !By(batch[n], r) {
          OthersKeepRequest(state, batch[n], r);
          Take(batch[n]);
        }
      }
    }

    /** Looks at the i-th counter: whether the tokens requested still fit its budget. */
    method Fits(r: nat, i: nat, ghost from: nat) returns (fits: bool)
      requires Valid() && from <= |trace| && r < |state.requests| && i < |state.requests[r].budgets|
      requires state.requests[r].pc == Checking(i)
      modifies this
      ensures Valid() && old(trace) <= trace && r < |state.requests|
      ensures
        var req := old(state.requests[r]);
        && state.requests[r] == req.(pc := if fits then After(req.budgets, i + 1) else AtTtl(i))
        && Looked(trace, from, r, req.budgets[i], req.requested, fits)
    {
      hide Looked;
      Others(r);
      fits := Room(state.store, state.requests[r].budgets[i], state.requests[r].requested);
      LookedNow(trace, from, r, state.requests[r].budgets[i], state.requests[r].requested, fits);
      Look(state, r, i);
      Take(Get(r));
    }

    /** Asks how long the i-th counter still lives, and is refused until then. */
    method RetryAfter(r: nat, i: nat) returns (retryAfter: int)
      requires Valid() && r < |state.requests| && i < |state.requests[r].budgets|
      requires state.requests[r].pc == AtTtl(i)
      modifies this
      ensures Valid() && old(trace) <= trace && r < |state.requests| && retryAfter >= 1
      ensures state.requests[r] == old(state.requests[r]).(pc := Refused(retryAfter))
      ensures ToldToWait(trace, r, old(state.requests[r].budgets[i].key), retryAfter)
    {
      hide ToldToWait;
      Others(r);
      var key := state.requests[r].budgets[i].key;
      retryAfter := Max(Ttl(state.store, state.now, key), 1);
      ToldNow(trace, r, key);
      Take(ReadTtl(r));
    }
  }

  // ----- what a trace tells

  /** The request has looked at the budget, at or after position `from`, and found room in it, or none. */
  ghost predicate Looked(trace: seq<Step>, from: nat, r: nat, b: Budget, requested: int, room: bool) {
    exists t: nat :: from <= t < |trace| && trace[t] == Get(r) && Runs(Init(), trace[..t])
                     && room == Room(Exec(Init(), trace[..t]).store, b, requested)
  }

  lemma {:induction false} LookedStays(
      trace: seq<Step>, longer: seq<Step>, from: nat, r: nat, b: Budget, requested: int, room: bool)
    requires trace <= longer && Looked(trace, from, r, b, requested, room)
    ensures Looked(longer, from, r, b, requested, room)
  {
    var t: nat :| from <= t < |trace| && trace[t] == Get(r) && Runs(Init(), trace[..t])
                  && room == Room(Exec(Init(), trace[..t]).store, b, requested);
    assert longer[..t] == trace[..t] && longer[t] == trace[t];
  }

  lemma {:induction false} LookedNow(
      trace: seq<Step>, from: nat, r: nat, b: Budget, requested: int, room: bool)
    requires from <= |trace| && Runs(Init(), trace)
    requires room == Room(Exec(Init(), trace).store, b, requested)
    ensures Looked(trace + [Get(r)], from, r, b, requested, room)
  {
    var t := |trace|;
    assert (trace + [Get(r)])[..t] == trace && (trace + [Get(r)])[t] == Get(r);
  }

  /** It has found room in each of the first `n` budgets. */
  ghost predicate RoomIn(trace: seq<Step>, from: nat, r: nat, budgets: seq<Budget>, requested: int, n: nat) {
    n <= |budgets| && forall i :: 0 <= i < n ==> Looked(trace, from, r, budgets[i], requested, true)
  }

  lemma RoomStays(
      trace: seq<Step>, longer: seq<Step>, from: nat, r: nat, budgets: seq<Budget>, requested: int, n: nat)
    requires trace <= longer && RoomIn(trace, from, r, budgets, requested, n)
    ensures RoomIn(longer, from, r, budgets, requested, n)
  {
    hide Looked;
    forall i | 0 <= i < n ensures Looked(longer, from, r, budgets[i], requested, true) {
      LookedStays(trace, longer, from, r, budgets[i], requested, true);
    }
  }

  lemma OneMoreRoom(trace: seq<Step>, from: nat, r: nat, budgets: seq<Budget>, requested: int, n: nat)
    requires RoomIn(trace, from, r, budgets, requested, n) && n < |budgets|
    requires Looked(trace, from, r, budgets[n], requested, true)
    ensures RoomIn(trace, from, r, budgets, requested, n + 1)
  {
  }

  lemma NoLooks(trace: seq<Step>, from: nat, r: nat, budgets: seq<Budget>, requested: int)
    ensures RoomIn(trace, from, r, budgets, requested, 0)
  {
  }

  /** One more look, and where it leaves the request. */
  lemma Look(s: State, r: nat, i: nat)
    requires Enabled(s, Get(r)) && s.requests[r].pc == Checking(i)
    ensures
      var t := Apply(s, Get(r));
      var req := s.requests[r];
      |t.requests| == |s.requests|
      && t.requests[r] ==
           req.(pc := if Room(s.store, req.budgets[i], req.requested) then After(req.budgets, i + 1) else AtTtl(i))
  {
  }

  /**
    Every named counter has grown by `used`, missing ones from nothing and without a
    deadline; no other has changed.
  */
  ghost predicate Raised(before: Store<Key>, after: Store<Key>, budgets: seq<Budget>, used: int) {
    forall key ::
      && (key in after <==> key in before || Names(budgets, key))
      && (key in after ==>
            after[key] ==
              if !Names(budgets, key) then before[key]
              else if key in before then before[key].(value := before[key].value + used)
              else Counter(used, None))
  }

  /** The window of a counter, in milliseconds. */
  function WindowMs(key: Key): int {
    match key.period
    case Minute => 60000
    case Hour => 3600000
    case Day => 86400000
  }

  /** The given counters have got the deadline of their own window, and nothing else has changed. */
  ghost predicate Dated(before: Store<Key>, after: Store<Key>, now: int, keys: set<Key>) {
    forall key ::
      && (key in after <==> key in before)
      && (key in before ==>
            after[key] ==
              if key in keys then before[key].(deadline := Some(now + WindowMs(key)))
              else before[key])
  }

  /** The step at `t` of the trace is the report, and adds the tokens to the request's counters. */
  ghost predicate ReportedAt(trace: seq<Step>, t: nat, r: nat, budgets: seq<Budget>, used: int) {
    && t < |trace| && trace[t] == Report(r, used) && Runs(Init(), trace[..t]) && Runs(Init(), trace[..t + 1])
    && (used <= 0 ==> Exec(Init(), trace[..t + 1]).store == Exec(Init(), trace[..t]).store)
    && (used > 0 ==> Raised(Exec(Init(), trace[..t]).store, Exec(Init(), trace[..t + 1]).store, budgets, used))
  }

  /** The step at `u` sets the deadline of the counters that were missing at `t`. */
  ghost predicate DatedAt(trace: seq<Step>, t: nat, u: nat, r: nat, budgets: seq<Budget>) {
    && t < u < |trace| && trace[u] == ExpireKeys(r)
    && Runs(Init(), trace[..t]) && Runs(Init(), trace[..u]) && Runs(Init(), trace[..u + 1])
    && Dated(Exec(Init(), trace[..u]).store, Exec(Init(), trace[..u + 1]).store, Exec(Init(), trace[..u]).now,
             Missing(Exec(Init(), trace[..t]).store, budgets))
  }

  lemma ReportRaises(s: State, r: nat, used: int)
    requires Inv(s) && Enabled(s, Report(r, used)) && used > 0
    ensures
      var t := Apply(s, Report(r, used));
      && Raised(s.store, t.store, s.requests[r].budgets, used)
      && t.requests[r] == s.requests[r].(pc := Owing(Missing(s.store, s.requests[r].budgets)))
  {
    var budgets := s.requests[r].budgets;
    CreatedExactly(s.store, budgets, used);
    forall key
      ensures
        var after := IncrAll(s.store, budgets, used).0;
        && (key in after <==> key in s.store || Names(budgets, key))
        && (key in after ==>
              after[key] ==
                if !Names(budgets, key) then s.store[key]
                else if key in s.store then s.store[key].(value := s.store[key].value + used)
                else Counter(used, None))
    {
      IncrAllEffect(s.store, budgets, used, key);
    }
  }

  lemma ExpireDates(s: State, r: nat)
    requires Enabled(s, ExpireKeys(r))
    requires forall key :: key in s.requests[r].pc.keys ==> Names(s.requests[r].budgets, key)
    ensures Dated(s.store, Apply(s, ExpireKeys(r)).store, s.now, s.requests[r].pc.keys)
  {
    var req := s.requests[r];
    forall key
      ensures
        var after := ExpireAll(s.store, s.now, req.budgets, req.pc.keys);
        && (key in after <==> key in s.store)
        && (key in s.store ==>
              after[key] ==
                if key in req.pc.keys then s.store[key].(deadline := Some(s.now + WindowMs(key)))
                else s.store[key])
    {
      ExpireAllEffect(s.store, s.now, req.budgets, req.pc.keys, key);
    }
  }

  lemma ReportedNow(trace: seq<Step>, r: nat, used: int)
    requires Runs(Init(), trace) && Enabled(Exec(Init(), trace), Report(r, used))
    ensures ReportedAt(trace + [Report(r, used)], |trace|, r, Exec(Init(), trace).requests[r].budgets, used)
  {
    var s, t, longer := Exec(Init(), trace), |trace|, trace + [Report(r, used)];
    hide Raised;
    assert longer[..t] == trace && longer[..t + 1] == longer;
    RunsOne(s, Report(r, used));
    RunsConcat(Init(), trace, [Report(r, used)]);
    InvExec(Init(), trace);
    if used > 0 { ReportRaises(s, r, used); }
  }

  lemma ReportedStays(trace: seq<Step>, longer: seq<Step>, t: nat, r: nat, budgets: seq<Budget>, used: int)
    requires trace <= longer && ReportedAt(trace, t, r, budgets, used)
    ensures ReportedAt(longer, t, r, budgets, used) && longer[..t] == trace[..t]
  {
    hide Raised, Exec, Runs;
    assert longer[..t] == trace[..t] && longer[..t + 1] == trace[..t + 1] && longer[t] == trace[t];
  }

  /** Where a report leaves the request. */
  lemma ReportLeaves(trace: seq<Step>, r: nat, used: int)
    requires Runs(Init(), trace) && Enabled(Exec(Init(), trace), Report(r, used))
    ensures
      var s := Exec(Init(), trace);
      var t := Apply(s, Report(r, used));
      |t.requests| == |s.requests|
      && t.requests[r] ==
           s.requests[r].(pc := if used <= 0 then Finished else Owing(Missing(s.store, s.requests[r].budgets)))
  {
    hide Raised, Exec, Runs;
    InvExec(Init(), trace);
    if used > 0 { ReportRaises(Exec(Init(), trace), r, used); }
  }

  lemma ExpireLeaves(s: State, r: nat)
    requires Enabled(s, ExpireKeys(r))
    ensures
      var t := Apply(s, ExpireKeys(r));
      |t.requests| == |s.requests| && t.requests[r] == s.requests[r].(pc := Finished)
  {
  }

  lemma DatedNow(trace: seq<Step>, t: nat, r: nat, budgets: seq<Budget>, used: int)
    requires Runs(Init(), trace) && ReportedAt(trace, t, r, budgets, used)
    requires r < |Exec(Init(), trace).requests|
    requires Exec(Init(), trace).requests[r].budgets == budgets
    requires Exec(Init(), trace).requests[r].pc == Owing(Missing(Exec(Init(), trace[..t]).store, budgets))
    ensures DatedAt(trace + [ExpireKeys(r)], t, |trace|, r, budgets)
  {
    hide Raised, Dated, Missing;
    var s, u, longer := Exec(Init(), trace), |trace|, trace + [ExpireKeys(r)];
    assert longer[..u] == trace && longer[..u + 1] == longer && longer[..t] == trace[..t];
    RunsOne(s, ExpireKeys(r));
    RunsConcat(Init(), trace, [ExpireKeys(r)]);
    MissingNamed(Exec(Init(), trace[..t]).store, budgets);
    ExpireDates(s, r);
  }

  /** The last step reads the counter's TTL, and the answer tells how long it has to live at that moment. */
  ghost predicate ToldToWait(trace: seq<Step>, r: nat, key: Key, retryAfter: int) {
    trace != [] &&
    var n := |trace| - 1;
    && trace[n] == ReadTtl(r) && Runs(Init(), trace[..n])
    && TellsWait(Exec(Init(), trace[..n]).store, Exec(Init(), trace[..n]).now, key, retryAfter)
  }

  lemma ToldNow(trace: seq<Step>, r: nat, key: Key)
    requires Runs(Init(), trace)
    ensures
      var s := Exec(Init(), trace);
      ToldToWait(trace + [ReadTtl(r)], r, key, Max(Ttl(s.store, s.now, key), 1))
  {
    assert (trace + [ReadTtl(r)])[..|trace|] == trace;
    TtlTellsWait(Exec(Init(), trace).store, Exec(Init(), trace).now, key);
  }

  // ----- the client functions

  /**
    Checks every configured budget in order, one GET each, and stops at the first
    without room: allowed means that each had room when it was looked at, refused
    that those before the last had and the last had none; the caller is then told how
    long that counter still lives.
  */
  method CheckAiTokenLimits(
      server: Server?, scope: string, tpm: Option<int>, tph: Option<int>, tpd: Option<int>, requested: int)
    returns (allowed: bool, retryAfter: int, r: nat)
    requires server != null ==> server.Valid()
    modifies server
    ensures server == null ==> allowed && retryAfter == 0
    ensures server != null ==>
              && server.Valid() && old(server.trace) <= server.trace
              && r < |server.state.requests|
              && InOrder(server.state.requests[r].budgets, scope, tpm, tph, tpd)
              && server.state.requests[r].requested == requested
              && server.state.requests[r].pc == if allowed then InFlight else Refused(retryAfter)
    ensures if allowed then retryAfter == 0 else retryAfter >= 1
    ensures server != null ==>
              var budgets, from := server.state.requests[r].budgets, |old(server.trace)|;
              if allowed then RoomIn(server.trace, from, r, budgets, requested, |budgets|)
              else
                exists n: nat ::
                  && RoomIn(server.trace, from, r, budgets, requested, n)
                  && n < |budgets| && Looked(server.trace, from, r, budgets[n], requested, false)
                  && ToldToWait(server.trace, r, budgets[n].key, retryAfter)
  {
    if server == null {
      return true, 0, 0;
    }
    var budgets := Budgets(scope, tpm, tph, tpd);
    ghost var from := |server.trace|;
    r := |server.state.requests|;
    server.Take(Begin(scope, tpm, tph, tpd, requested));
    NoLooks(server.trace, from, r, budgets, requested);
    BudgetsInOrder(scope, tpm, tph, tpd);
    hide Budgets, InOrder, ToldToWait, Runs, Exec, Apply, Looked, RoomIn;
    for i := 0 to |budgets|
      invariant server.Valid() && old(server.trace) <= server.trace
      invariant r < |server.state.requests|
      invariant server.state.requests[r] == Request(budgets, requested, After(budgets, i))
      invariant RoomIn(server.trace, from, r, budgets, requested, i)
    {
      ghost var start := server.trace;
      var fits := server.Fits(r, i, from);
      ghost var looked := server.trace;
      RoomStays(start, looked, from, r, budgets, requested, i);
      if !fits {
        retryAfter := server.RetryAfter(r, i);
        RoomStays(looked, server.trace, from, r, budgets, requested, i);
        LookedStays(looked, server.trace, from, r, budgets[i], requested, false);
        return false, retryAfter, r;
      }
      OneMoreRoom(looked, from, r, budgets, requested, i);
    }
    return true, 0, r;
  }

  /**
    Adds the tokens used, then sets the deadline of the counters this created: at
    one point of the trace all named counters grow, and at a later one those that
    were missing then get the deadline of their own window.
  */
  method IncrementAiTokenUsage(server: Server?, r: nat, used: int)
    requires server != null ==>
               server.Valid() && r < |server.state.requests| && server.state.requests[r].pc.InFlight?
    modifies server
    ensures server != null ==>
              && server.Valid() && old(server.trace) <= server.trace
              && r < |server.state.requests|
              && server.state.requests[r] == old(server.state.requests[r]).(pc := Finished)
              && (forall key :: !Owes(server.state, r, key))
    ensures server != null ==>
              var budgets := old(server.state.requests[r].budgets);
              exists t: nat ::
                && |old(server.trace)| <= t && ReportedAt(server.trace, t, r, budgets, used)
                && (used > 0 ==> exists u: nat :: DatedAt(server.trace, t, u, r, budgets))
  {
    if server == null {
      return;
    }
    hide ReportedAt, DatedAt, Apply, Runs, Exec, Inv;
    ghost var budgets := server.state.requests[r].budgets;
    server.Others(r);
    ghost var s, t := server.state, |server.trace|;
    ReportedNow(server.trace, r, used);
    ReportLeaves(server.trace, r, used);
    server.Take(Report(r, used));
    ghost var reported := server.trace;
    if used > 0 {
      server.Others(r);
      ghost var u := |server.trace|;
      ReportedStays(reported, server.trace, t, r, budgets, used);
      MissingNamed(s.store, budgets);
      DatedNow(server.trace, t, r, budgets, used);
      ExpireLeaves(server.state, r);
      ghost var until := server.trace;
      server.Take(ExpireKeys(r));
      ReportedStays(until, server.trace, t, r, budgets, used);
      assert DatedAt(server.trace, t, u, r, budgets);
    }
  }

  lemma MissingNamed(store: Store<Key>, budgets: seq<Budget>)
    ensures forall key :: key in Missing(store, budgets) ==> Names(budgets, key)
  {
  }
}
