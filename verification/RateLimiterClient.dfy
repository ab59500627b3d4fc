/**
  The client code that issues the commands, one method per source function.
  Between two of its commands any number of other calls and clock ticks may run:
  whatever they do, the client takes only steps of the state machine, so every
  property of reachable states holds while the code runs.
*/
module RateLimiterClient {
  import opened Wrappers
  import opened Redis
  import opened RateLimiter
  import opened RateLimiterCalls

  predicate By(step: Step, c: nat) {
    !step.Tick? && step.call == c
  }

  /** Steps of other calls leave a call where it stands. */
  lemma OthersKeepCall(s: State, step: Step, c: nat)
    requires Enabled(s, step) && c in s.calls && !By(step, c)
    ensures c in Apply(s, step).calls && Apply(s, step).calls[c] == s.calls[c]
  {
  }

  class Server {
    var state: State
    /** What the rest of the system does at each point where the client may be preempted. */
    var schedule: seq<seq<Step>>
    const authWindow: int
    ghost var trace: seq<Step>

    ghost predicate Valid()
      reads this
    {
      Runs(Init(authWindow), trace) && state == Exec(Init(authWindow), trace)
    }

    constructor (authWindow: int, schedule: seq<seq<Step>>)
      ensures Valid() && trace == [] && this.authWindow == authWindow
    {
      this.authWindow := authWindow;
      this.schedule := schedule;
      state := Init(authWindow);
      trace := [];
    }

    /** One step of the machine. */
    method Take(step: Step)
      requires Valid() && Enabled(state, step)
      modifies this`state, this`trace
      ensures Valid() && trace == old(trace) + [step] && state == Apply(old(state), step)
    {
      RunsOne(state, step);
      RunsConcat(Init(authWindow), trace, [step]);
      state := Apply(state, step);
      trace := trace + [step];
    }

    /** The next entry of the schedule runs; steps that are not possible then, or are the client's own, are dropped. */
    method Others(c: nat)
      requires Valid() && c in state.calls
      modifies this
      ensures Valid() && old(trace) <= trace
      ensures c in state.calls && state.calls[c] == old(state.calls[c])
      ensures forall j :: |old(trace)| <= j < |trace| ==> !By(trace[j], c)
    {
      if schedule == [] { return; }
      var batch := schedule[0];
      schedule := schedule[1..];
      for n := 0 to |batch|
        invariant Valid() && old(trace) <= trace
        invariant c in state.calls && state.calls[c] == old(state.calls[c])
        invariant forall j :: |old(trace)| <= j < |trace| ==> !By(trace[j], c)
      {
        if Enabled(state, batch[n]) && !By(batch[n], c) {
          OthersKeepCall(state, batch[n], c);
          Take(batch[n]);
        }
      }
    }

    method Incr(c: nat) returns (count: int)
      requires Valid() && Enabled(state, Step.Incr(c))
      modifies this`state, this`trace
      ensures Valid() && trace == old(trace) + [Step.Incr(c)] && state == Apply(old(state), Step.Incr(c))
      ensures count == state.log[|old(state.log)|].count
    {
      Take(Step.Incr(c));
      count := state.log[|state.log| - 1].count;
    }
  }

  /** The last step reads the counter's TTL, and the answer tells how long it has to live at that moment. */
  ghost predicate ToldToWait(w: int, trace: seq<Step>, c: nat, key: Key, retryAfter: int) {
    trace != [] &&
    var n := |trace| - 1;
    && trace[n] == ReadTtl(c) && Runs(Init(w), trace[..n])
    && TellsWait(Exec(Init(w), trace[..n]).store, Exec(Init(w), trace[..n]).now, key, retryAfter)
  }

  lemma ToldNow(w: int, trace: seq<Step>, c: nat, key: Key)
    requires Runs(Init(w), trace)
    ensures
      var s := Exec(Init(w), trace);
      ToldToWait(w, trace + [ReadTtl(c)], c, key, Max(Ttl(s.store, s.now, key), 1))
  {
    assert (trace + [ReadTtl(c)])[..|trace|] == trace;
    TtlTellsWait(Exec(Init(w), trace).store, Exec(Init(w), trace).now, key);
  }

  /** A call after `i` of its limits: at the next, done, or refused by the last and told how long to wait. */
  ghost predicate Stands(server: Server, c: nat, limits: seq<Limit>, i: nat, allowed: bool, retryAfter: int)
    reads server
  {
    && server.Valid() && c in server.state.calls && i <= |limits|
    && server.state.calls[c] ==
         Call(limits,
           if !allowed then Done(false, retryAfter) else if i < |limits| then AtIncr(i) else Done(true, retryAfter))
    && (allowed ==> retryAfter == 0)
    && (!allowed ==>
          && |CallLog(server.state.log, c)| == i > 0
          && ToldToWait(server.authWindow, server.trace, c, limits[i - 1].key, retryAfter))
  }

  /**
    Checks one limit.  The call is left at its next limit when admitted, finished
    when it was the last one or was refused.
  */
  method CheckRateLimit(server: Server?, c: nat, ghost limits: seq<Limit>, i: nat)
    returns (allowed: bool, retryAfter: int)
    requires server != null ==> i < |limits| && Stands(server, c, limits, i, true, 0)
    modifies server
    ensures server == null ==> allowed && retryAfter == 0
    ensures server != null ==>
              old(server.trace) <= server.trace && Stands(server, c, limits, i + 1, allowed, retryAfter)
  {
    if server == null {
      return true, 0;
    }
    hide CallLog, ToldToWait, Runs, Exec;
    server.Others(c);
    var limit := server.state.calls[c].limits[i];
    var count := server.Incr(c);
    if count == 1 {
      server.Others(c);
      server.Take(ExpireKey(c));
    }
    if count > limit.max {
      server.Others(c);
      var ttl := Ttl(server.state.store, server.state.now, limit.key);
      ToldNow(server.authWindow, server.trace, c, limit.key);
      AttemptsSoFar(server.authWindow, server.trace, c);
      server.Take(ReadTtl(c));
      return false, Max(ttl, 1);
    }
    return true, 0;
  }

  /**
    The attempts of a request are on the minute's, the hour's and the day's counter, in
    that order.  Allowed means that each configured limit was tried once and admitted it,
    refused that all up to the last tried did, and that one did not.
  */
  predicate Checked(
      attempts: seq<Attempt>, allowed: bool, scope: string, rpm: Option<int>, rph: Option<int>, rpd: Option<int>)
  {
    && InOrder(attempts, scope, rpm, rph, rpd)
    && (forall i :: 0 <= i < |attempts| - 1 ==> Admits(attempts[i]))
    && (attempts != [] ==> (Admits(attempts[|attempts| - 1]) <==> allowed))
    && |attempts| >= if allowed then HowMany(rpm, rph, rpd) else 1
  }

  lemma Outcome(
      attempts: seq<Attempt>, allowed: bool, scope: string, rpm: Option<int>, rph: Option<int>, rpd: Option<int>)
    requires
      if allowed then
        |attempts| == |AiLimits(scope, rpm, rph, rpd)| && Follows(attempts, AiLimits(scope, rpm, rph, rpd), |attempts|)
      else
        && attempts != [] && Follows(attempts, AiLimits(scope, rpm, rph, rpd), |attempts| - 1)
        && !Admits(attempts[|attempts| - 1])
    ensures Checked(attempts, allowed, scope, rpm, rph, rpd)
    ensures |attempts| <= |AiLimits(scope, rpm, rph, rpd)|
    ensures attempts != [] ==> attempts[|attempts| - 1].key == AiLimits(scope, rpm, rph, rpd)[|attempts| - 1].key
  {
    FollowsInOrder(attempts, if allowed then |attempts| else |attempts| - 1, scope, rpm, rph, rpd);
    hide AiLimits, InOrder, Admits, HowMany;
  }

  lemma StandsChecked(
      server: Server, c: nat, scope: string, rpm: Option<int>, rph: Option<int>, rpd: Option<int>,
      i: nat, allowed: bool, retryAfter: int)
    requires Stands(server, c, AiLimits(scope, rpm, rph, rpd), i, allowed, retryAfter)
    requires !allowed || i == |AiLimits(scope, rpm, rph, rpd)|
    ensures
      var attempts := CallLog(server.state.log, c);
      && Checked(attempts, allowed, scope, rpm, rph, rpd)
      && (!allowed ==>
            attempts != [] && ToldToWait(server.authWindow, server.trace, c, attempts[|attempts| - 1].key, retryAfter))
  {
    CallOutcome(server.authWindow, server.trace, c);
    Outcome(CallLog(server.state.log, c), allowed, scope, rpm, rph, rpd);
    hide AiLimits, CallLog, Checked, ToldToWait, Runs, Exec;
  }

  /**
    Checks every configured limit in order and stops at the first refusal.  With no
    server, or with nothing configured, the request is allowed without a command.
    However the rest of the system interleaves, the request is allowed exactly when
    each of its limits counted it and had room, and otherwise told how long the
    counter that had none still lives.
  */
  method CheckAiRateLimits(
      server: Server?, c: nat, scope: string, rpm: Option<int>, rph: Option<int>, rpd: Option<int>)
    returns (allowed: bool, retryAfter: int)
    requires server != null ==> server.Valid() && c !in server.state.calls
    modifies server
    ensures server == null ==> allowed && retryAfter == 0
    ensures server != null ==>
              && server.Valid() && old(server.trace) <= server.trace
              && c in server.state.calls
              && server.state.calls[c] == Call(AiLimits(scope, rpm, rph, rpd), Done(allowed, retryAfter))
    ensures server != null ==>
              var attempts := CallLog(server.state.log, c);
              && Checked(attempts, allowed, scope, rpm, rph, rpd)
              && (!allowed ==> ToldToWait(server.authWindow, server.trace, c, attempts[|attempts| - 1].key, retryAfter))
  {
    if server == null {
      return true, 0;
    }
    var limits := AiLimits(scope, rpm, rph, rpd);
    server.Take(Begin(c, limits));
    allowed, retryAfter := true, 0;
    var i := 0;
    assert Stands(server, c, limits, 0, true, 0);
    hide *;
    while i < |limits| && allowed
      invariant old(server.trace) <= server.trace && 0 <= i <= |limits|
      invariant Stands(server, c, limits, i, allowed, retryAfter) && (allowed ==> retryAfter == 0)
      decreases |limits| - i, allowed
    {
      allowed, retryAfter := CheckRateLimit(server, c, limits, i);
      i := i + 1;
    }
    StandsChecked(server, c, scope, rpm, rph, rpd, i, allowed, retryAfter);
  }
}
