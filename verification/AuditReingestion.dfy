/** Ingesting a batch again. */
module AuditReingestion {
  import opened AuditEvents
  import opened AuditIngestion
  import opened AuditIngestionTheorems

  // ----- the same batch again

  function Ids(events: seq<Event>): set<Id> {
    set e | e in events && e.externalId.Some? :: (e.source, e.externalId.value)
  }

  function NoIds(events: seq<Event>): bool {
    forall e :: e in events ==> e.externalId.None?
  }

  /** The identifiers the store holds after a call: those it had and those just stored. */
  lemma TakenAfter(rows: seq<Row>, tenant: string, raws: seq<Raw>, now: int)
    requires |raws| <= MAX_BATCH
    ensures Taken(Ingested(rows, tenant, raws, now), tenant) ==
              Taken(rows, tenant) + Ids(SinglePass(rows, tenant, raws, now))
  {
    hide Accepted, Grouped, Normalized, Group;
    var stored := Stored(rows, tenant, raws, now);
    var kept := SinglePass(rows, tenant, raws, now);
    StoredIsSinglePass(rows, tenant, raws, now);
    assert forall e :: e in stored <==> e in multiset(stored);
    assert forall e :: e in kept <==> e in multiset(kept);
    var new_ := Rows(tenant, now, stored);
    assert forall r :: r in new_ ==> r.tenant == tenant && r.event in stored;
    forall id | id in Ids(kept) ensures id in Taken(rows + new_, tenant) {
      var e :| e in stored && e.externalId.Some? && (e.source, e.externalId.value) == id;
      var i :| 0 <= i < |stored| && stored[i] == e;
      assert new_[i] in rows + new_;
    }
  }

  /** An event with an identifier that a single pass would take is taken, or something with its identifier was. */
  lemma FirstTaken(taken: set<Id>, recent: set<Key>, events: seq<Event>, i: nat)
    requires i < |events| && Accepts(taken, recent, events[..i], events[i]) && events[i].externalId.Some?
    ensures (events[i].source, events[i].externalId.value) in Ids(Accepted(taken, recent, events))
  {
    AcceptedIff(taken, recent, events, events[i]);
  }

  /** What was dropped with its identifier met for the first time was dropped for its discovery. */
  lemma NotTaken(taken: set<Id>, recent: set<Key>, events: seq<Event>, i: nat)
    requires i < |events| && events[i].externalId.Some?
    requires IsDiscovery(events[i]) && KeyOf(events[i]) in recent
    requires forall x :: x in events[..i] ==> !SameId(x, events[i])
    ensures (events[i].source, events[i].externalId.value) !in Ids(Accepted(taken, recent, events))
  {
    var e := events[i];
    forall x | x in Accepted(taken, recent, events) ensures !SameId(x, e) {
      AcceptedIff(taken, recent, events, x);
      var j :| 0 <= j < |events| && events[j] == x && Accepts(taken, recent, events[..j], x);
      if j < i {
        assert events[j] in events[..i];
      } else if i < j {
        assert e in events[..j];
      }
    }
  }

  /**
    When the batch comes again, an event with an identifier is stored exactly when
    it had been dropped only for a discovery that the store has since forgotten; one
    without is stored unless its discovery is known.
  */
  lemma ReingestIff(taken: set<Id>, recent: set<Key>, recentThen: set<Key>, events: seq<Event>, i: nat)
    requires i < |events|
    ensures
      var e, earlier := events[i], events[..i];
      var takenThen := taken + Ids(Accepted(taken, recent, events));
      Accepts(takenThen, recentThen, earlier, e) <==>
        if e.externalId.Some? then
          Accepts(taken, recentThen, earlier, e) && IsDiscovery(e) && KeyOf(e) in recent
        else
          IsDiscovery(e) ==> KeyOf(e) !in recentThen && forall x :: x in earlier ==> !SameDiscovery(x, e)
  {
    hide Accepted;
    var e, earlier := events[i], events[..i];
    if e.externalId.Some? && Accepts(taken, recentThen, earlier, e) {
      if IsDiscovery(e) && KeyOf(e) in recent {
        NotTaken(taken, recent, events, i);
      } else {
        FirstTaken(taken, recent, events, i);
      }
    }
  }

  lemma NothingIdentifiedAgain(
      taken: set<Id>, recent: set<Key>, takenThen: set<Id>, recentThen: set<Key>, events: seq<Event>)
    requires recent <= recentThen && taken + Ids(Accepted(taken, recent, events)) <= takenThen
    ensures NoIds(Accepted(takenThen, recentThen, events))
  {
    hide Accepted, Ids;
    forall e | e in Accepted(takenThen, recentThen, events) ensures e.externalId.None? {
      AcceptedIff(takenThen, recentThen, events, e);
      var i :| 0 <= i < |events| && events[i] == e && Accepts(takenThen, recentThen, events[..i], e);
      ReingestIff(taken, recent, recentThen, events, i);
    }
  }

  lemma NoIdsPermuted(a: seq<Event>, b: seq<Event>)
    requires multiset(a) == multiset(b) && NoIds(b)
    ensures NoIds(a)
  {
    assert forall e :: e in a ==> e in multiset(a);
  }

  lemma TakenGrows(rows: seq<Row>, rowsThen: seq<Row>, tenant: string)
    requires rows <= rowsThen
    ensures Taken(rows, tenant) <= Taken(rowsThen, tenant)
  {
    assert forall r :: r in rows ==> r in rowsThen;
  }

  /**
    Ingesting a batch again, any calls later, stores nothing that carries an
    identifier, as long as every discovery known the first time is still known.
  */
  lemma Idempotence(rows: seq<Row>, tenant: string, raws: seq<Raw>, now: int, calls: seq<Call>, nowThen: int)
    requires Unique(rows)
    requires
      var rowsThen := IngestedAll(Ingested(rows, tenant, raws, now), calls);
      Recent(rows, tenant, now) <= Recent(rowsThen, tenant, nowThen)
    ensures NoIds(Stored(IngestedAll(Ingested(rows, tenant, raws, now), calls), tenant, raws, nowThen))
  {
    if |raws| <= MAX_BATCH {
      hide Accepted, Normalized, IngestedAll, Ingested, Grouped, Taken, Recent, Unique, NoIds, Ids, Stored;
      var after := Ingested(rows, tenant, raws, now);
      var rowsThen := IngestedAll(after, calls);
      UniqueKept(rows, tenant, raws, now);
      UniqueKeptAll(after, calls);
      TakenAfter(rows, tenant, raws, now);
      TakenGrows(after, rowsThen, tenant);
      NothingIdentifiedAgain(
        Taken(rows, tenant), Recent(rows, tenant, now),
        Taken(rowsThen, tenant), Recent(rowsThen, tenant, nowThen), Normalized(raws));
      StoredIsSinglePass(rowsThen, tenant, raws, nowThen);
      NoIdsPermuted(Stored(rowsThen, tenant, raws, nowThen), SinglePass(rowsThen, tenant, raws, nowThen));
    }
  }

  /** At an unchanged clock nothing is forgotten, so the batch can be repeated at once. */
  lemma RepeatedAtOnce(rows: seq<Row>, tenant: string, raws: seq<Raw>, now: int)
    requires Unique(rows)
    ensures NoIds(Stored(Ingested(rows, tenant, raws, now), tenant, raws, now))
  {
    var after := Ingested(rows, tenant, raws, now);
    assert IngestedAll(after, []) == after;
    assert Recent(rows, tenant, now) <= Recent(after, tenant, now) by {
      assert forall r :: r in rows ==> r in after;
    }
    Idempotence(rows, tenant, raws, now, [], now);
  }

  /**
    A day later the store may have forgotten: an event with a new identifier that
    was dropped for its discovery is stored when its batch is repeated.
  */
  lemma ForgottenDiscovery(e: Event, known: Event, tenant: string, t: int)
    requires IsDiscovery(e) && IsDiscovery(known) && KeyOf(e) == KeyOf(known)
    requires e.externalId.Some? && known.externalId.None?
    ensures
      var rows := [Row(tenant, t, known)];
      var later := t + DISCOVERY_WINDOW + 1;
      && Accepted(Taken(rows, tenant), Recent(rows, tenant, t), [e]) == []
      && Accepted(Taken(rows, tenant), Recent(rows, tenant, later), [e]) == [e]
  {
    var rows := [Row(tenant, t, known)];
    assert Taken(rows, tenant) == {};
    assert rows[0] in rows && KeyOf(known) in Recent(rows, tenant, t);
    assert Recent(rows, tenant, t + DISCOVERY_WINDOW + 1) == {};
    AcceptedAppend({}, Recent(rows, tenant, t), [], e);
    AcceptedAppend({}, {}, [], e);
    assert [] + [e] == [e];
  }
}
