/** What the token budget guarantees, for every interleaving of requests and clock ticks. */
module TokenBudgetTheorems {
  import opened Wrappers
  import opened TokenBudget

  // ----- who owes an EXPIRE

  predicate Owes(s: State, r: nat, key: Key) {
    r < |s.requests| && s.requests[r].pc.Owing? && key in s.requests[r].pc.keys
  }

  ghost predicate Inv(s: State) {
    && (forall key :: key in s.store ==> s.store[key].value >= 1)
    && (forall r :: 0 <= r < |s.requests| ==> Distinct(s.requests[r].budgets))
    && (forall r: nat, key :: Owes(s, r, key) ==>
          Names(s.requests[r].budgets, key) && key in s.store && s.store[key].deadline.None?)
    && (forall r: nat, q: nat, key :: Owes(s, r, key) && Owes(s, q, key) ==> r == q)
    && (forall key :: key in s.store && s.store[key].deadline.None? ==> exists r: nat :: Owes(s, r, key))
  }

  /** The report creates the counters that were missing, and owes an EXPIRE for exactly those. */
  lemma ReportOwes(s: State, r: nat, used: int)
    requires Inv(s) && Enabled(s, Report(r, used)) && used > 0
    ensures
      var t := Apply(s, Report(r, used));
      && (forall key :: Owes(t, r, key) <==> Names(s.requests[r].budgets, key) && key !in s.store)
      && (forall q: nat, key :: q != r ==> (Owes(t, q, key) <==> Owes(s, q, key)))
  {
    CreatedExactly(s.store, s.requests[r].budgets, used);
  }

  lemma ReportInv(s: State, r: nat, used: int)
    requires Inv(s) && Enabled(s, Report(r, used)) && used > 0
    ensures Inv(Apply(s, Report(r, used)))
  {
    var t := Apply(s, Report(r, used));
    ReportOwes(s, r, used);
    forall key
      ensures key in t.store <==> key in s.store || Names(s.requests[r].budgets, key)
      ensures key in t.store ==> t.store[key].value >= 1
      ensures key in t.store ==> t.store[key].deadline == if key in s.store then s.store[key].deadline else None
    {
      IncrAllEffect(s.store, s.requests[r].budgets, used, key);
    }
    forall key | key in t.store && t.store[key].deadline.None? ensures exists q: nat :: Owes(t, q, key) {
      if key in s.store {
        var q: nat :| Owes(s, q, key);
        assert q != r && Owes(t, q, key);
      } else {
        assert Owes(t, r, key);
      }
    }
  }

  lemma ExpireInv(s: State, r: nat)
    requires Inv(s) && Enabled(s, ExpireKeys(r))
    ensures Inv(Apply(s, ExpireKeys(r)))
  {
    var t := Apply(s, ExpireKeys(r));
    var req := s.requests[r];
    forall key
      ensures key in t.store <==> key in s.store
      ensures key in s.store ==> t.store[key].value == s.store[key].value
      ensures key in s.store ==> (t.store[key].deadline.None? <==> s.store[key].deadline.None? && !Owes(s, r, key))
    {
      ExpireAllEffect(s.store, s.now, req.budgets, req.pc.keys, key);
      if key in req.pc.keys { assert Owes(s, r, key); }
    }
    assert forall q: nat, key :: Owes(t, q, key) <==> q != r && Owes(s, q, key);
    forall key | key in t.store && t.store[key].deadline.None? ensures exists q: nat :: Owes(t, q, key) {
      var q: nat :| Owes(s, q, key);
      assert Owes(t, q, key);
    }
  }

  lemma OtherInv(s: State, step: Step)
    requires Inv(s) && Enabled(s, step) && !step.ExpireKeys? && !(step.Report? && step.used > 0)
    ensures Inv(Apply(s, step))
  {
    var t := Apply(s, step);
    assert forall q: nat, key :: Owes(t, q, key) <==> Owes(s, q, key);
    forall key | key in t.store && t.store[key].deadline.None? ensures exists q: nat :: Owes(t, q, key) {
      var q: nat :| Owes(s, q, key);
      assert Owes(t, q, key);
    }
  }

  lemma InvStep(s: State, step: Step)
    requires Inv(s) && Enabled(s, step)
    ensures Inv(Apply(s, step))
  {
    if step.ExpireKeys? { ExpireInv(s, step.r); }
    else if step.Report? && step.used > 0 { ReportInv(s, step.r, step.used); }
    else { OtherInv(s, step); }
  }

  lemma {:induction false} InvExec(s: State, steps: seq<Step>)
    requires Inv(s) && Runs(s, steps)
    ensures Inv(Exec(s, steps))
    decreases |steps|
  {
    if steps != [] {
      InvStep(s, steps[0]);
      InvExec(Apply(s, steps[0]), steps[1..]);
    }
  }

  /** The counters without a deadline are exactly those one request, and only one, is about to EXPIRE. */
  lemma TtlObligation(steps: seq<Step>, key: Key)
    requires Runs(Init(), steps)
    ensures
      var s := Exec(Init(), steps);
      && (key in s.store && s.store[key].deadline.None? <==> exists r: nat :: Owes(s, r, key))
      && forall r: nat, q: nat :: Owes(s, r, key) && Owes(s, q, key) ==> r == q
  {
    InvExec(Init(), steps);
  }

  // ----- overshoot

  /** The request has passed the check of `key` and may still add to its counter. */
  predicate Committed(req: Request, key: Key) {
    match req.pc
    case Checking(i) => i <= |req.budgets| && Names(req.budgets[..i], key)
    case InFlight => Names(req.budgets, key)
    case _ => false
  }

  function CommittedCount(requests: seq<Request>, key: Key): nat {
    if requests == [] then 0
    else
      CommittedCount(requests[..|requests| - 1], key) + if Committed(requests[|requests| - 1], key) then 1 else 0
  }

  /** What the committed requests may still add, each no more than it asked for plus `slack`. */
  function Pending(requests: seq<Request>, key: Key, slack: nat): int {
    if requests == [] then 0
    else
      var last := requests[|requests| - 1];
      Pending(requests[..|requests| - 1], key, slack) + if Committed(last, key) then last.requested + slack else 0
  }

  /** Requests on the key ask for at most `size` tokens under a budget of at most `limit`. */
  ghost predicate Sized(requests: seq<Request>, key: Key, limit: int, size: nat) {
    forall r, i :: 0 <= r < |requests| && 0 <= i < |requests[r].budgets| && requests[r].budgets[i].key == key ==>
      0 <= requests[r].requested <= size && requests[r].budgets[i].max <= limit
  }

  /** No more than `k` requests are between check and report, and none reports more than it asked for plus `slack`. */
  ghost predicate Tame(s: State, steps: seq<Step>, key: Key, limit: int, size: nat, k: nat, slack: nat)
    requires Runs(s, steps)
    decreases |steps|
  {
    && Sized(s.requests, key, limit, size)
    && CommittedCount(s.requests, key) <= k
    && (steps != [] ==>
          && (steps[0].Report? ==> steps[0].used <= s.requests[steps[0].r].requested + slack)
          && Tame(Apply(s, steps[0]), steps[1..], key, limit, size, k, slack))
  }

  function Bound(limit: int, size: nat, k: nat, slack: nat): int {
    Max(limit, size) + (k - 1) * size + k * slack
  }

  function Delta(was: bool, is_: bool, amount: int): int {
    (if is_ then amount else 0) - (if was then amount else 0)
  }

  /** Replacing one request, without changing what it asked for, changes count and pending by its own share. */
  lemma {:induction false} Replace(requests: seq<Request>, r: nat, req: Request, key: Key, slack: nat)
    requires r < |requests| && req.requested == requests[r].requested
    ensures CommittedCount(requests[r := req], key) ==
              CommittedCount(requests, key) + Delta(Committed(requests[r], key), Committed(req, key), 1)
    ensures Pending(requests[r := req], key, slack) ==
              Pending(requests, key, slack)
              + Delta(Committed(requests[r], key), Committed(req, key), req.requested + slack)
  {
    var n := |requests| - 1;
    if r < n {
      Replace(requests[..n], r, req, key, slack);
      assert requests[r := req][..n] == requests[..n][r := req];
    } else {
      assert requests[r := req][..n] == requests[..n];
    }
  }

  lemma {:induction false} CommittedNamed(req: Request, key: Key)
    requires Committed(req, key)
    ensures Names(req.budgets, key)
  {
    if req.pc.Checking? {
      var j :| 0 <= j < |req.budgets[..req.pc.i]| && req.budgets[..req.pc.i][j].key == key;
      assert req.budgets[j].key == key;
    }
  }

  lemma SizedCommitted(req: Request, requests: seq<Request>, r: nat, key: Key, limit: int, size: nat)
    requires Sized(requests, key, limit, size) && r < |requests| && req == requests[r] && Committed(req, key)
    ensures 0 <= req.requested <= size
  {
    CommittedNamed(req, key);
    var i :| 0 <= i < |req.budgets| && req.budgets[i].key == key;
    assert requests[r].budgets[i].key == key;
  }

  lemma SizedPrefix(requests: seq<Request>, key: Key, limit: int, size: nat)
    requires Sized(requests, key, limit, size) && requests != []
    ensures Sized(requests[..|requests| - 1], key, limit, size)
  {
  }

  lemma Monotone(count: nat, most: nat, each: nat)
    requires count <= most
    ensures count * each <= most * each
  {
  }

  lemma Distributes(n: nat, a: nat, b: nat)
    ensures n * (a + b) == n * a + n * b
  {
  }

  // Multiplication by addition: it keeps the induction below free of products.
  function Times(count: nat, each: nat): (r: nat)
    ensures r == count * each
  {
    if count == 0 then 0 else Times(count - 1, each) + each
  }

  lemma {:induction false} PendingWithin(
      requests: seq<Request>, key: Key, limit: int, size: nat, slack: nat, each: nat)
    requires Sized(requests, key, limit, size) && size + slack <= each
    ensures 0 <= Pending(requests, key, slack) <= Times(CommittedCount(requests, key), each)
  {
    if requests != [] {
      var n := |requests| - 1;
      SizedPrefix(requests, key, limit, size);
      hide Sized, Committed;
      PendingWithin(requests[..n], key, limit, size, slack, each);
      if Committed(requests[n], key) {
        SizedCommitted(requests[n], requests, n, key, limit, size);
      }
    }
  }

  /** The stored value plus everything still pending never passes the bound. */
  ghost predicate Contained(s: State, key: Key, limit: int, size: nat, k: nat, slack: nat) {
    Value(s.store, key) + Pending(s.requests, key, slack) <= Bound(limit, size, k, slack)
  }

  lemma Share(count: nat, k: nat, size: nat, slack: nat)
    requires count + 1 <= k
    ensures count * (size + slack) <= (k - 1) * (size + slack) == (k - 1) * size + k * slack - slack
  {
    Monotone(count, k - 1, size + slack);
    Distributes(k - 1, size, slack);
    Distributes(slack, k - 1, 1);
  }

  /** A request becomes committed to a key by finding room in its budget. */
  lemma NewlyCommitted(s: State, r: nat, key: Key)
    requires Enabled(s, Get(r))
    requires Committed(Apply(s, Get(r)).requests[r], key) && !Committed(s.requests[r], key)
    ensures
      var req := s.requests[r];
      var i := req.pc.i;
      req.budgets[i].key == key && Room(s.store, req.budgets[i], req.requested)
  {
    var req := s.requests[r];
    var i := req.pc.i;
    assert forall j :: 0 <= j < i ==> req.budgets[..i][j] == req.budgets[j];
    assert i + 1 == |req.budgets| ==> req.budgets[..i + 1] == req.budgets;
    assert Names(req.budgets[..i + 1], key);
  }

  /** Passing a check is the only step that can raise the total, and it was checked against the limit. */
  lemma GetContained(s: State, r: nat, key: Key, limit: int, size: nat, k: nat, slack: nat)
    requires Inv(s) && Enabled(s, Get(r)) && k >= 1
    requires Sized(s.requests, key, limit, size) && Contained(s, key, limit, size, k, slack)
    requires CommittedCount(Apply(s, Get(r)).requests, key) <= k
    ensures Contained(Apply(s, Get(r)), key, limit, size, k, slack)
  {
    var t := Apply(s, Get(r));
    var req := s.requests[r];
    var i := req.pc.i;
    Replace(s.requests, r, t.requests[r], key, slack);
    PendingWithin(s.requests, key, limit, size, slack, size + slack);
    if Committed(t.requests[r], key) && !Committed(req, key) {
      NewlyCommitted(s, r, key);
      hide Committed, Sized;
      Share(CommittedCount(s.requests, key), k, size, slack);
    } else if Committed(req, key) {
      SizedCommitted(req, s.requests, r, key, limit, size);
    }
  }

  /** A report moves tokens from pending to stored. */
  lemma ReportContained(s: State, r: nat, used: int, key: Key, limit: int, size: nat, k: nat, slack: nat)
    requires Inv(s) && Enabled(s, Report(r, used))
    requires Sized(s.requests, key, limit, size) && Contained(s, key, limit, size, k, slack)
    requires used <= s.requests[r].requested + slack
    ensures Contained(Apply(s, Report(r, used)), key, limit, size, k, slack)
  {
    var t := Apply(s, Report(r, used));
    Replace(s.requests, r, t.requests[r], key, slack);
    IncrAllEffect(s.store, s.requests[r].budgets, used, key);
  }

  lemma OtherContained(s: State, step: Step, key: Key, limit: int, size: nat, k: nat, slack: nat)
    requires Inv(s) && Enabled(s, step) && !step.Get? && !step.Report?
    requires Contained(s, key, limit, size, k, slack)
    ensures Contained(Apply(s, step), key, limit, size, k, slack)
  {
    var t := Apply(s, step);
    match step
    case Begin(_, _, _, _, _) =>
      assert t.requests[..|s.requests|] == s.requests;
      assert !Committed(t.requests[|s.requests|], key);
    case ReadTtl(r) => Replace(s.requests, r, t.requests[r], key, slack);
    case ExpireKeys(r) =>
      Replace(s.requests, r, t.requests[r], key, slack);
      ExpireAllEffect(s.store, s.now, s.requests[r].budgets, s.requests[r].pc.keys, key);
    case Tick(_) =>
  }

  lemma ContainedStep(s: State, step: Step, key: Key, limit: int, size: nat, k: nat, slack: nat)
    requires Inv(s) && Enabled(s, step) && k >= 1
    requires Sized(s.requests, key, limit, size) && CommittedCount(Apply(s, step).requests, key) <= k
    requires step.Report? ==> step.used <= s.requests[step.r].requested + slack
    requires Contained(s, key, limit, size, k, slack)
    ensures Contained(Apply(s, step), key, limit, size, k, slack)
  {
    match step
    case Get(r) => GetContained(s, r, key, limit, size, k, slack);
    case Report(r, used) => ReportContained(s, r, used, key, limit, size, k, slack);
    case _ => OtherContained(s, step, key, limit, size, k, slack);
  }

  lemma {:induction false} ContainedExec(
      s: State, steps: seq<Step>, key: Key, limit: int, size: nat, k: nat, slack: nat)
    requires Inv(s) && Runs(s, steps) && k >= 1
    requires Tame(s, steps, key, limit, size, k, slack) && Contained(s, key, limit, size, k, slack)
    ensures Contained(Exec(s, steps), key, limit, size, k, slack)
    ensures Sized(Exec(s, steps).requests, key, limit, size)
    decreases |steps|
  {
    if steps != [] {
      var t := Apply(s, steps[0]);
      assert Tame(t, steps[1..], key, limit, size, k, slack);
      InvStep(s, steps[0]);
      ContainedStep(s, steps[0], key, limit, size, k, slack);
      ContainedExec(t, steps[1..], key, limit, size, k, slack);
    }
  }

  lemma BoundNatural(limit: int, size: nat, k: nat, slack: nat)
    requires k >= 1
    ensures Bound(limit, size, k, slack) >= 0
  {
    assert (k - 1) * size >= 0 && k * slack >= 0;
  }

  lemma ContainedInit(key: Key, limit: int, size: nat, k: nat, slack: nat)
    requires k >= 1
    ensures Contained(Init(), key, limit, size, k, slack)
  {
    BoundNatural(limit, size, k, slack);
  }

  lemma ValueWithin(s: State, key: Key, limit: int, size: nat, k: nat, slack: nat)
    requires Sized(s.requests, key, limit, size) && Contained(s, key, limit, size, k, slack)
    ensures Value(s.store, key) <= Bound(limit, size, k, slack)
  {
    PendingWithin(s.requests, key, limit, size, slack, size + slack);
  }

  /**
    If at most k requests are ever between check and report, each asks for at most
    `size` tokens and reports at most `slack` more than it asked for, then no
    counter ever exceeds max(limit, size) + (k - 1) * size + k * slack.
  */
  lemma OvershootBound(steps: seq<Step>, key: Key, limit: int, size: nat, k: nat, slack: nat)
    requires Runs(Init(), steps) && k >= 1
    requires Tame(Init(), steps, key, limit, size, k, slack)
    ensures Value(Exec(Init(), steps).store, key) <= Max(limit, size) + (k - 1) * size + k * slack
  {
    ContainedInit(key, limit, size, k, slack);
    ContainedExec(Init(), steps, key, limit, size, k, slack);
    ValueWithin(Exec(Init(), steps), key, limit, size, k, slack);
  }
}
