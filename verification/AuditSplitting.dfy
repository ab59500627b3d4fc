/** Ingesting a batch in one call and in two. */
module AuditSplitting {
  import opened AuditEvents
  import opened AuditIngestion
  import opened AuditIngestionTheorems
  import opened AuditReingestion

  // ----- what the second part stores

  /** The events of `b` that a single pass over `a + b` stores. */
  function Onto(taken: set<Id>, recent: set<Key>, a: seq<Event>, b: seq<Event>): seq<Event> {
    if b == [] then []
    else
      var n := |b| - 1;
      Onto(taken, recent, a, b[..n]) + if Accepts(taken, recent, a + b[..n], b[n]) then [b[n]] else []
  }

  lemma {:induction false} AcceptedOnto(taken: set<Id>, recent: set<Key>, a: seq<Event>, b: seq<Event>)
    ensures Accepted(taken, recent, a + b) == Accepted(taken, recent, a) + Onto(taken, recent, a, b)
  {
    var first := Accepted(taken, recent, a);
    if b == [] {
      assert a + b == a && first + [] == first;
    } else {
      var n := |b| - 1;
      assert a + b == (a + b[..n]) + [b[n]];
      AcceptedOnto(taken, recent, a, b[..n]);
      hide Accepts, Accepted;
      AcceptedAppend(taken, recent, a + b[..n], b[n]);
      var kept := if Accepts(taken, recent, a + b[..n], b[n]) then [b[n]] else [];
      var before := Onto(taken, recent, a, b[..n]);
      assert (first + before) + kept == first + (before + kept);
    }
  }

  lemma {:induction false} OntoIff(taken: set<Id>, recent: set<Key>, a: seq<Event>, b: seq<Event>, e: Event)
    ensures e in Onto(taken, recent, a, b) <==>
              exists i :: 0 <= i < |b| && b[i] == e && Accepts(taken, recent, a + b[..i], e)
  {
    hide Accepts;
    if b != [] {
      var n := |b| - 1;
      OntoIff(taken, recent, a, b[..n], e);
      assert forall i :: 0 <= i < n ==> b[..n][i] == b[i] && b[..n][..i] == b[..i];
    }
  }

  // ----- one event

  /** The store has had the discovery within the last day. */
  predicate Known(rows: seq<Row>, tenant: string, now: int, e: Event) {
    IsDiscovery(e) && KeyOf(e) in Recent(rows, tenant, now)
  }

  /** The same discovery, whatever its source, stored at `now` and still recent at `nowThen`. */
  predicate Rediscovers(x: Event, e: Event, now: int, nowThen: int) {
    && IsDiscovery(x) && IsDiscovery(e) && KeyOf(x) == KeyOf(e)
    && (if x.timestamp.Some? then x.timestamp.value else now) >= nowThen - DISCOVERY_WINDOW
  }

  /**
    Apart from the first part, nothing speaks against the event: its identifier is
    new, and its own part has not had it.
  */
  predicate Unmet(rows: seq<Row>, tenant: string, earlier: seq<Event>, e: Event) {
    && (e.externalId.Some? ==> (e.source, e.externalId.value) !in Taken(rows, tenant))
    && (forall x :: x in earlier ==> !SameId(x, e) && !SameDiscovery(x, e))
  }

  /** In one call: the first part holds the identifier or, of its own source, the discovery, stored or not. */
  ghost predicate HeldBack(rows: seq<Row>, tenant: string, a: seq<Event>, e: Event, now: int) {
    Known(rows, tenant, now, e) || exists x :: x in a && (SameId(x, e) || SameDiscovery(x, e))
  }

  /** In two calls: the first has stored the identifier or, of any source, the discovery. */
  ghost predicate KnownByThen(
      rows: seq<Row>, tenant: string, kept: seq<Event>, e: Event, now: int, nowThen: int)
  {
    Known(rows, tenant, nowThen, e) || exists x :: x in kept && (SameId(x, e) || Rediscovers(x, e, now, nowThen))
  }

  /** The i-th event of the second part is stored in one of the two ways and not in the other. */
  ghost predicate Differs(
      rows: seq<Row>, tenant: string, a: seq<Event>, b: seq<Event>, i: nat, now: int, nowThen: int)
    requires i < |b|
  {
    var kept := Accepted(Taken(rows, tenant), Recent(rows, tenant, now), a);
    && Unmet(rows, tenant, b[..i], b[i])
    && (HeldBack(rows, tenant, a, b[i], now) <==> !KnownByThen(rows, tenant, kept, b[i], now, nowThen))
  }

  lemma KnownAppend(rows: seq<Row>, tenant: string, events: seq<Event>, now: int, nowThen: int, e: Event)
    ensures
      Known(rows + Rows(tenant, now, events), tenant, nowThen, e) <==>
        Known(rows, tenant, nowThen, e) || exists x :: x in events && Rediscovers(x, e, now, nowThen)
  {
    var new_ := Rows(tenant, now, events);
    var after := rows + new_;
    if x :| x in events && Rediscovers(x, e, now, nowThen) {
      var i :| 0 <= i < |events| && events[i] == x;
      assert new_[i] == RowOf(tenant, now, x) && new_[i] in after;
    }
    if Known(after, tenant, nowThen, e) && !Known(rows, tenant, nowThen, e) {
      var r :| r in after && r.tenant == tenant && IsDiscovery(r.event)
               && r.timestamp >= nowThen - DISCOVERY_WINDOW && KeyOf(r.event) == KeyOf(e);
      assert r in new_;
      var i :| 0 <= i < |new_| && new_[i] == r;
      assert events[i] in events && Rediscovers(events[i], e, now, nowThen);
    }
  }

  /** The discoveries the store knows of after a call. */
  lemma RecentAfter(rows: seq<Row>, tenant: string, raws: seq<Raw>, now: int, nowThen: int, e: Event)
    requires |raws| <= MAX_BATCH
    ensures
      Known(Ingested(rows, tenant, raws, now), tenant, nowThen, e) <==>
        || Known(rows, tenant, nowThen, e)
        || exists x :: x in SinglePass(rows, tenant, raws, now) && Rediscovers(x, e, now, nowThen)
  {
    hide SinglePass, Stored, Known, Rediscovers;
    var stored, kept := Stored(rows, tenant, raws, now), SinglePass(rows, tenant, raws, now);
    StoredIsSinglePass(rows, tenant, raws, now);
    assert forall x :: x in stored <==> x in multiset(stored);
    assert forall x :: x in kept <==> x in multiset(kept);
    KnownAppend(rows, tenant, stored, now, nowThen, e);
  }

  lemma AcceptsInOne(rows: seq<Row>, tenant: string, a: seq<Event>, earlier: seq<Event>, e: Event, now: int)
    ensures Accepts(Taken(rows, tenant), Recent(rows, tenant, now), a + earlier, e) <==>
              Unmet(rows, tenant, earlier, e) && !HeldBack(rows, tenant, a, e, now)
  {
    hide Taken, Recent;
    assert forall x :: x in a + earlier <==> x in a || x in earlier;
  }

  lemma AcceptsInTwo(
      rows: seq<Row>, tenant: string, raws: seq<Raw>, earlier: seq<Event>, e: Event, now: int, nowThen: int)
    requires |raws| <= MAX_BATCH
    ensures
      var after := Ingested(rows, tenant, raws, now);
      Accepts(Taken(after, tenant), Recent(after, tenant, nowThen), earlier, e) <==>
        && Unmet(rows, tenant, earlier, e)
        && !KnownByThen(rows, tenant, SinglePass(rows, tenant, raws, now), e, now, nowThen)
  {
    hide Taken, Recent, Ingested, SinglePass, Rediscovers;
    TakenAfter(rows, tenant, raws, now);
    RecentAfter(rows, tenant, raws, now, nowThen, e);
  }

  /**
    An event of the second part is stored in one way and not the other exactly when,
    nothing else speaking against it, the first part holds its identifier or its own
    source's discovery with none of those in the store, or the store has come to know
    its discovery from another source.
  */
  lemma SplitEventIff(
      rows: seq<Row>, tenant: string, a: seq<Raw>, b: seq<Event>, i: nat, now: int, nowThen: int)
    requires |a| <= MAX_BATCH && i < |b|
    ensures
      var events, after := Normalized(a), Ingested(rows, tenant, a, now);
      var inOne := Accepts(Taken(rows, tenant), Recent(rows, tenant, now), events + b[..i], b[i]);
      var inTwo := Accepts(Taken(after, tenant), Recent(after, tenant, nowThen), b[..i], b[i]);
      (inOne <==> !inTwo) <==> Differs(rows, tenant, events, b, i, now, nowThen)
  {
    hide Accepts, Taken, Recent, Ingested, Normalized, Unmet, HeldBack, KnownByThen;
    AcceptsInOne(rows, tenant, Normalized(a), b[..i], b[i], now);
    AcceptsInTwo(rows, tenant, a, b[..i], b[i], now, nowThen);
  }

  // ----- the whole batch

  ghost predicate NoneDiffers(
      rows: seq<Row>, tenant: string, a: seq<Event>, b: seq<Event>, now: int, nowThen: int)
  {
    forall i :: 0 <= i < |b| ==> !Differs(rows, tenant, a, b, i, now, nowThen)
  }

  lemma {:induction false} SameParts(
      rows: seq<Row>, tenant: string, a: seq<Raw>, b: seq<Event>, now: int, nowThen: int)
    requires |a| <= MAX_BATCH && NoneDiffers(rows, tenant, Normalized(a), b, now, nowThen)
    ensures
      var after := Ingested(rows, tenant, a, now);
      Onto(Taken(rows, tenant), Recent(rows, tenant, now), Normalized(a), b)
      == Accepted(Taken(after, tenant), Recent(after, tenant, nowThen), b)
  {
    if b != [] {
      hide Accepts, Taken, Recent, Ingested, Normalized, Unmet, HeldBack, KnownByThen, Differs;
      var n := |b| - 1;
      forall i | 0 <= i < n ensures !Differs(rows, tenant, Normalized(a), b[..n], i, now, nowThen) {
        assert !Differs(rows, tenant, Normalized(a), b, i, now, nowThen);
        DiffersPrefix(rows, tenant, Normalized(a), b, n, i, now, nowThen);
      }
      SameParts(rows, tenant, a, b[..n], now, nowThen);
      assert !Differs(rows, tenant, Normalized(a), b, n, now, nowThen);
      SplitEventIff(rows, tenant, a, b, n, now, nowThen);
    }
  }

  lemma DiffersPrefix(
      rows: seq<Row>, tenant: string, a: seq<Event>, b: seq<Event>, n: nat, i: nat, now: int, nowThen: int)
    requires i < n <= |b|
    ensures Differs(rows, tenant, a, b[..n], i, now, nowThen) <==> Differs(rows, tenant, a, b, i, now, nowThen)
  {
    assert b[..n][..i] == b[..i] && b[..n][i] == b[i];
  }

  /** Where the two ways differ about an event, its only copy that either could store is that one. */
  lemma OnlyThere(
      rows: seq<Row>, tenant: string, a: seq<Event>, b: seq<Event>, i: nat, j: nat, now: int, nowThen: int)
    requires i < |b| && j < |b| && b[i] == b[j] && Differs(rows, tenant, a, b, i, now, nowThen)
    ensures i == j || !Unmet(rows, tenant, b[..j], b[j])
  {
    hide Taken, Recent, Accepted;
    var e := b[i];
    assert SameId(e, e) || SameDiscovery(e, e);
    assert forall k :: 0 <= k < i ==> b[k] in b[..i];
    assert forall k :: 0 <= k < j ==> b[k] in b[..j];
  }

  lemma DifferenceShows(
      rows: seq<Row>, tenant: string, a: seq<Raw>, b: seq<Event>, i: nat, now: int, nowThen: int)
    requires |a| <= MAX_BATCH && i < |b| && Differs(rows, tenant, Normalized(a), b, i, now, nowThen)
    ensures
      var after := Ingested(rows, tenant, a, now);
      (b[i] in Onto(Taken(rows, tenant), Recent(rows, tenant, now), Normalized(a), b)
       <==> b[i] !in Accepted(Taken(after, tenant), Recent(after, tenant, nowThen), b))
  {
    hide Accepts, Accepted, Onto, Taken, Recent, Ingested, Normalized, Unmet, HeldBack, KnownByThen, Differs;
    var e, events := b[i], Normalized(a);
    var after := Ingested(rows, tenant, a, now);
    OntoIff(Taken(rows, tenant), Recent(rows, tenant, now), events, b, e);
    AcceptedIff(Taken(after, tenant), Recent(after, tenant, nowThen), b, e);
    SplitEventIff(rows, tenant, a, b, i, now, nowThen);
    forall j | 0 <= j < |b| && b[j] == e && j != i
      ensures !Accepts(Taken(rows, tenant), Recent(rows, tenant, now), events + b[..j], e)
      ensures !Accepts(Taken(after, tenant), Recent(after, tenant, nowThen), b[..j], e)
    {
      OnlyThere(rows, tenant, events, b, i, j, now, nowThen);
      AcceptsInOne(rows, tenant, events, b[..j], e, now);
      AcceptsInTwo(rows, tenant, a, b[..j], e, now, nowThen);
    }
  }

  lemma {:induction false} NormalizedConcat(a: seq<Raw>, b: seq<Raw>)
    ensures Normalized(a + b) == Normalized(a) + Normalized(b)
  {
    if b == [] {
      assert a + b == a && Normalized(a) + [] == Normalized(a);
    } else {
      hide Normalize;
      var n := |b| - 1;
      assert (a + b)[..|a + b| - 1] == a + b[..n];
      NormalizedConcat(a, b[..n]);
    }
  }

  /**
    One call for a batch stores the same events as two calls for its parts exactly
    when no event of the second part differs.
  */
  lemma SplitBatchIff(rows: seq<Row>, tenant: string, a: seq<Raw>, b: seq<Raw>, now: int, nowThen: int)
    requires |a + b| <= MAX_BATCH
    ensures
      multiset(Stored(rows, tenant, a + b, now)) ==
        multiset(Stored(rows, tenant, a, now))
        + multiset(Stored(Ingested(rows, tenant, a, now), tenant, b, nowThen))
      <==> NoneDiffers(rows, tenant, Normalized(a), Normalized(b), now, nowThen)
  {
    var after := Ingested(rows, tenant, a, now);
    var first, second := Normalized(a), Normalized(b);
    var taken, recent := Taken(rows, tenant), Recent(rows, tenant, now);
    NormalizedConcat(a, b);
    StoredIsSinglePass(rows, tenant, a + b, now);
    StoredIsSinglePass(rows, tenant, a, now);
    StoredIsSinglePass(after, tenant, b, nowThen);
    AcceptedOnto(taken, recent, first, second);
    hide Accepted, Onto, Normalized, Stored, Ingested, Taken, Recent, Differs;
    var onto := Onto(taken, recent, first, second);
    var again := Accepted(Taken(after, tenant), Recent(after, tenant, nowThen), second);
    if NoneDiffers(rows, tenant, first, second, now, nowThen) {
      SameParts(rows, tenant, a, second, now, nowThen);
    } else {
      var i :| 0 <= i < |second| && Differs(rows, tenant, first, second, i, now, nowThen);
      DifferenceShows(rows, tenant, a, second, i, now, nowThen);
      assert second[i] in onto <==> second[i] in multiset(onto);
      assert second[i] in again <==> second[i] in multiset(again);
      CancelFirst(multiset(Accepted(taken, recent, first)), multiset(onto), multiset(again));
    }
  }

  lemma CancelFirst(first: multiset<Event>, a: multiset<Event>, b: multiset<Event>)
    ensures first + a == first + b ==> a == b
  {
    assert (first + a) - first == a && (first + b) - first == b;
  }

  // ----- two cases

  ghost predicate NoDiscoveries(events: seq<Event>) {
    forall e :: e in events ==> !IsDiscovery(e)
  }

  /** Without discoveries, every identifier of a batch is in the store once the batch has been ingested. */
  lemma {:induction false} AllIdsTaken(taken: set<Id>, recent: set<Key>, events: seq<Event>)
    requires NoDiscoveries(events)
    ensures Ids(events) <= taken + Ids(Accepted(taken, recent, events))
  {
    if events != [] {
      var n := |events| - 1;
      var init, e := events[..n], events[n];
      assert events == init + [e];
      AllIdsTaken(taken, recent, init);
      AcceptedAppend(taken, recent, init, e);
      hide Accepted;
      IdsAppend(init, e);
      IdsAppend(Accepted(taken, recent, init), e);
      assert forall x :: x in init && SameId(x, e) ==> (e.source, e.externalId.value) in Ids(init);
    }
  }

  lemma IdsAppend(events: seq<Event>, e: Event)
    ensures Ids(events + [e]) ==
              Ids(events) + if e.externalId.Some? then {(e.source, e.externalId.value)} else {}
    ensures Ids(events + []) == Ids(events)
  {
    assert forall x :: x in events + [e] <==> x in events || x == e;
    assert events + [] == events;
  }

  /** Without discoveries nothing differs: a batch may be cut anywhere. */
  lemma SplitBatch(rows: seq<Row>, tenant: string, a: seq<Raw>, b: seq<Raw>, now: int, nowThen: int)
    requires |a + b| <= MAX_BATCH && NoDiscoveries(Normalized(a + b))
    ensures
      multiset(Stored(rows, tenant, a + b, now)) ==
        multiset(Stored(rows, tenant, a, now))
        + multiset(Stored(Ingested(rows, tenant, a, now), tenant, b, nowThen))
  {
    hide Accepted, Normalized, Stored, Ingested, Taken, Recent, Ids;
    var first, second := Normalized(a), Normalized(b);
    NormalizedConcat(a, b);
    assert NoDiscoveries(first) && NoDiscoveries(second) by {
      assert forall e :: e in first || e in second ==> e in first + second;
    }
    forall i | 0 <= i < |second| ensures !Differs(rows, tenant, first, second, i, now, nowThen) {
      if Unmet(rows, tenant, second[..i], second[i]) {
        IdentifiedAlike(rows, tenant, first, second[..i], second[i], now, nowThen);
      }
    }
    SplitBatchIff(rows, tenant, a, b, now, nowThen);
  }

  lemma IdentifiedAlike(
      rows: seq<Row>, tenant: string, a: seq<Event>, earlier: seq<Event>, e: Event, now: int, nowThen: int)
    requires NoDiscoveries(a) && !IsDiscovery(e) && Unmet(rows, tenant, earlier, e)
    ensures
      var kept := Accepted(Taken(rows, tenant), Recent(rows, tenant, now), a);
      HeldBack(rows, tenant, a, e, now) <==> KnownByThen(rows, tenant, kept, e, now, nowThen)
  {
    hide Accepted, Taken, Recent;
    var taken, recent := Taken(rows, tenant), Recent(rows, tenant, now);
    AllIdsTaken(taken, recent, a);
    AcceptedMembers(taken, recent, a);
    if x :| x in a && SameId(x, e) {
      assert (e.source, e.externalId.value) in Ids(a);
    }
  }

  /**
    Two sources report one new discovery: one call for both stores both, two calls
    store the first only, unless it is dated so far back that it does not count.
  */
  lemma SplitDiscoveries(rows: seq<Row>, tenant: string, a: Event, b: Event, now: int)
    requires Normal(a) && Normal(b) && a.externalId.None? && b.externalId.None?
    requires IsDiscovery(a) && IsDiscovery(b) && KeyOf(a) == KeyOf(b) && a.source != b.source
    requires !Known(rows, tenant, now, a)
    ensures multiset(Stored(rows, tenant, [RawOf(a), RawOf(b)], now)) == multiset{a, b}
    ensures multiset(Stored(rows, tenant, [RawOf(a)], now)) == multiset{a}
    ensures
      multiset(Stored(Ingested(rows, tenant, [RawOf(a)], now), tenant, [RawOf(b)], now)) ==
        if a.timestamp.Some? && a.timestamp.value < now - DISCOVERY_WINDOW then multiset{b} else multiset{}
  {
    hide *;
    var taken, recent := Taken(rows, tenant), Recent(rows, tenant, now);
    var after := Ingested(rows, tenant, [RawOf(a)], now);
    OneNormalized(a);
    OneNormalized(b);
    TwoNormalized(a, b);
    StoredOf(rows, tenant, [RawOf(a), RawOf(b)], now);
    StoredOf(rows, tenant, [RawOf(a)], now);
    StoredOf(after, tenant, [RawOf(b)], now);
    NotRecent(rows, tenant, a, now);
    BothAccepted(taken, recent, a, b);
    AcceptsInTwo(rows, tenant, [RawOf(a)], [], b, now, now);
    OneAccepted(Taken(after, tenant), Recent(after, tenant, now), b);
    SecondCall(rows, tenant, a, b, now);
  }

  lemma TwoNormalized(a: Event, b: Event)
    requires Normal(a) && Normal(b)
    ensures Normalized([RawOf(a), RawOf(b)]) == [a, b]
    ensures |[RawOf(a), RawOf(b)]| <= MAX_BATCH && |[RawOf(a)]| <= MAX_BATCH && |[RawOf(b)]| <= MAX_BATCH
  {
    OneNormalized(a);
    OneNormalized(b);
    hide Normalized, RawOf;
    NormalizedConcat([RawOf(a)], [RawOf(b)]);
    assert [RawOf(a)] + [RawOf(b)] == [RawOf(a), RawOf(b)] && [a] + [b] == [a, b];
  }

  lemma StoredOf(rows: seq<Row>, tenant: string, raws: seq<Raw>, now: int)
    requires |raws| <= MAX_BATCH
    ensures
      var kept := Accepted(Taken(rows, tenant), Recent(rows, tenant, now), Normalized(raws));
      multiset(Stored(rows, tenant, raws, now)) == multiset(kept) && SinglePass(rows, tenant, raws, now) == kept
  {
    hide Stored, Normalized, Taken, Recent, Accepted;
    StoredIsSinglePass(rows, tenant, raws, now);
  }

  lemma NotRecent(rows: seq<Row>, tenant: string, e: Event, now: int)
    requires IsDiscovery(e) && !Known(rows, tenant, now, e)
    ensures KeyOf(e) !in Recent(rows, tenant, now)
  {
  }

  /** What the store knows of the second source's report once the first has been stored. */
  lemma SecondCall(rows: seq<Row>, tenant: string, a: Event, b: Event, now: int)
    requires IsDiscovery(a) && IsDiscovery(b) && KeyOf(a) == KeyOf(b) && a.source != b.source
    requires b.externalId.None? && !Known(rows, tenant, now, a)
    ensures Unmet(rows, tenant, [], b)
    ensures KnownByThen(rows, tenant, [a], b, now, now) <==>
              !(a.timestamp.Some? && a.timestamp.value < now - DISCOVERY_WINDOW)
  {
    hide Recent, Taken;
    assert a in [a] && forall x :: x in [a] ==> x == a;
  }

  lemma OneAccepted(taken: set<Id>, recent: set<Key>, e: Event)
    ensures Accepted(taken, recent, [e]) == if Accepts(taken, recent, [], e) then [e] else []
  {
    hide Accepts;
    assert [e][..0] == [] && Accepted(taken, recent, []) == [];
  }

  lemma BothAccepted(taken: set<Id>, recent: set<Key>, a: Event, b: Event)
    requires IsDiscovery(a) && IsDiscovery(b) && KeyOf(a) == KeyOf(b) && a.source != b.source
    requires a.externalId.None? && b.externalId.None? && KeyOf(a) !in recent
    ensures Accepted(taken, recent, [a]) == [a] && Accepted(taken, recent, [a, b]) == [a, b]
  {
    OneAccepted(taken, recent, a);
    AcceptedAppend(taken, recent, [a], b);
    assert [a] + [b] == [a, b];
  }

  lemma OneNormalized(e: Event)
    requires Normal(e)
    ensures Normalized([RawOf(e)]) == [e]
  {
    hide Normalize;
    NormalizeIdentity(e);
    assert [RawOf(e)][..0] == [];
  }
}
