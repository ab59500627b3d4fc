/** Ingesting batches of audit events into the store. */
module AuditIngestion {
  import opened Wrappers
  import opened AuditEvents

  const MAX_BATCH := 5000
  /** One day, in seconds: how far back the store is searched for discoveries. */
  const DISCOVERY_WINDOW := 86400

  datatype Row = Row(tenant: string, timestamp: int, event: Event)

  function RowOf(tenant: string, now: int, e: Event): Row {
    Row(tenant, if e.timestamp.Some? then e.timestamp.value else now, e)
  }

  function Rows(tenant: string, now: int, events: seq<Event>): (rows: seq<Row>)
    ensures |rows| == |events|
  {
    seq(|events|, i requires 0 <= i < |events| => RowOf(tenant, now, events[i]))
  }

  /** The identifiers the store holds for a tenant, with their sources. */
  function Taken(rows: seq<Row>, tenant: string): set<Id> {
    set r | r in rows && r.tenant == tenant && r.event.externalId.Some? :: (r.event.source, r.event.externalId.value)
  }

  /** The discoveries of the last day. */
  function Recent(rows: seq<Row>, tenant: string, now: int): set<Key> {
    set r | r in rows && r.tenant == tenant && IsDiscovery(r.event) && r.timestamp >= now - DISCOVERY_WINDOW
      :: KeyOf(r.event)
  }

  /** What one call stores, in order. */
  function Stored(rows: seq<Row>, tenant: string, raws: seq<Raw>, now: int): seq<Event> {
    if |raws| > MAX_BATCH then []
    else
      var events := Normalized(raws);
      Grouped(Accepted(Taken(rows, tenant), Recent(rows, tenant, now), events), Sources(events))
  }

  function Ingested(rows: seq<Row>, tenant: string, raws: seq<Raw>, now: int): seq<Row> {
    rows + Rows(tenant, now, Stored(rows, tenant, raws, now))
  }

  datatype Counts = Counts(accepted: nat, skipped: nat, duplicates: nat)

  /** The set of identifiers met, but for those the store has, while going through the events of one source. */
  ghost predicate IdsMet(met: set<string>, existing: set<string>, earlier: seq<Event>) {
    && (forall id :: id in met ==> exists x :: x in earlier && x.externalId == Some(id))
    && (forall x :: x in earlier && x.externalId.Some? ==> x.externalId.value in existing || x.externalId.value in met)
  }

  ghost predicate DiscoveriesMet(met: set<Key>, recent: set<Key>, earlier: seq<Event>) {
    && (forall key :: key in met ==> exists x :: x in earlier && IsDiscovery(x) && KeyOf(x) == key)
    && (forall x :: x in earlier && IsDiscovery(x) ==> KeyOf(x) in recent || KeyOf(x) in met)
  }

  predicate KnownId(e: Event, existing: set<string>, met: set<string>) {
    e.externalId.Some? && (e.externalId.value in existing || e.externalId.value in met)
  }

  predicate KnownDiscovery(e: Event, recent: set<Key>, met: set<Key>) {
    IsDiscovery(e) && (KeyOf(e) in recent || KeyOf(e) in met)
  }

  lemma MeetId(met: set<string>, existing: set<string>, earlier: seq<Event>, e: Event)
    requires IdsMet(met, existing, earlier)
    ensures IdsMet(if e.externalId.Some? && !KnownId(e, existing, met) then met + {e.externalId.value} else met,
                   existing, earlier + [e])
  {
    assert e in earlier + [e] && forall x :: x in earlier ==> x in earlier + [e];
  }

  lemma MeetDiscovery(met: set<Key>, recent: set<Key>, earlier: seq<Event>, e: Event)
    requires DiscoveriesMet(met, recent, earlier)
    ensures DiscoveriesMet(if IsDiscovery(e) && !KnownDiscovery(e, recent, met) then met + {KeyOf(e)} else met,
                           recent, earlier + [e])
  {
    assert e in earlier + [e] && forall x :: x in earlier ==> x in earlier + [e];
  }

  /** The two sets decide as the whole past does. */
  lemma Judged(taken: set<Id>, existing: set<string>, recent: set<Key>, ids: set<string>, keys: set<Key>,
               earlier: seq<Event>, e: Event)
    requires IdsMet(ids, existing, earlier) && DiscoveriesMet(keys, recent, earlier)
    requires forall x :: x in earlier ==> x.source == e.source
    requires e.externalId.Some? ==> (e.externalId.value in existing <==> (e.source, e.externalId.value) in taken)
    ensures Accepts(taken, recent, earlier, e) <==> !KnownId(e, existing, ids) && !KnownDiscovery(e, recent, keys)
  {
  }

  class Store {
    var rows: seq<Row>

    constructor ()
      ensures rows == []
    {
      rows := [];
    }

    /** Of the given identifiers, those the store has for the source. */
    method ExistingExternalIds(tenant: string, source: string, ids: set<string>) returns (existing: set<string>)
      ensures forall id :: id in existing <==> id in ids && (source, id) in Taken(rows, tenant)
    {
      existing := set r | r in rows && r.tenant == tenant && r.event.source == source
                          && r.event.externalId.Some? && r.event.externalId.value in ids
                    :: r.event.externalId.value;
    }

    /** The loop over the events of one source, with its two sets of what has been met. */
    method IngestGroup(tenant: string, recent: set<Key>, source: string, group: seq<Event>)
      returns (kept: seq<Event>, duplicates: nat)
      requires forall i :: 0 <= i < |group| ==> group[i].source == source
      ensures kept == Accepted(Taken(rows, tenant), recent, group)
      ensures |kept| + duplicates == |group|
    {
      hide Taken;
      var ids := set e | e in group && e.externalId.Some? :: e.externalId.value;
      var existing := ExistingExternalIds(tenant, source, ids);
      var taken := Taken(rows, tenant);
      var seenBatch: set<string> := {};
      var seenDiscoveries: set<Key> := {};
      kept, duplicates := [], 0;
      for n := 0 to |group|
        invariant kept == Accepted(taken, recent, group[..n])
        invariant |kept| + duplicates == n
        invariant IdsMet(seenBatch, existing, group[..n])
        invariant DiscoveriesMet(seenDiscoveries, recent, group[..n])
      {
        var event := group[n];
        assert group[..n + 1] == group[..n] + [event];
        assert event.externalId.Some? ==> event.externalId.value in ids;
        hide Accepted, Accepts, IdsMet, DiscoveriesMet, Taken;
        AcceptedAppend(taken, recent, group[..n], event);
        Judged(taken, existing, recent, seenBatch, seenDiscoveries, group[..n], event);
        MeetId(seenBatch, existing, group[..n], event);
        MeetDiscovery(seenDiscoveries, recent, group[..n], event);
        var isDuplicate := false;
        if event.externalId.Some? {
          if event.externalId.value in existing || event.externalId.value in seenBatch {
            isDuplicate := true;
          } else {
            seenBatch := seenBatch + {event.externalId.value};
          }
        }
        if IsDiscovery(event) {
          if KeyOf(event) in recent || KeyOf(event) in seenDiscoveries {
            isDuplicate := true;
          } else {
            seenDiscoveries := seenDiscoveries + {KeyOf(event)};
          }
        }
        if isDuplicate {
          duplicates := duplicates + 1;
        } else {
          kept := kept + [event];
        }
      }
      assert group[..|group|] == group;
    }

    /** The loop over the sources. */
    method IngestGroups(tenant: string, recent: set<Key>, events: seq<Event>)
      returns (toInsert: seq<Event>, duplicates: nat)
      ensures toInsert == Grouped(Accepted(Taken(rows, tenant), recent, events), Sources(events))
      ensures |toInsert| + duplicates == |events|
    {
      hide Taken, Accepted, Group;
      var order, bySource := GroupBySource(events);
      ghost var taken := Taken(rows, tenant);
      toInsert, duplicates := [], 0;
      for n := 0 to |order|
        invariant toInsert == Grouped(Accepted(taken, recent, events), order[..n])
        invariant |toInsert| + duplicates == |Grouped(events, order[..n])|
      {
        assert order[..n + 1][..n] == order[..n];
        GroupSource(events, order[n]);
        var kept, dropped := IngestGroup(tenant, recent, order[n], bySource[order[n]]);
        AcceptedGroup(taken, recent, events, order[n]);
        toInsert := toInsert + kept;
        duplicates := duplicates + dropped;
      }
      assert order[..|order|] == order;
      GroupedPermutes(events, order);
    }

    method IngestAuditEvents(tenant: string, raws: seq<Raw>, now: int) returns (r: Result<Counts, string>)
      modifies this
      ensures r.Err? <==> |raws| > MAX_BATCH
      ensures rows == Ingested(old(rows), tenant, raws, now)
      ensures r.Ok? ==>
                && r.value.accepted == |Stored(old(rows), tenant, raws, now)|
                && r.value.skipped == |raws| - |Normalized(raws)|
                && r.value.accepted + r.value.skipped + r.value.duplicates == |raws|
    {
      hide Taken, Recent, Accepted, Grouped, Sources, Normalized;
      if raws == [] {
        NothingStored(rows, tenant, now);
        return Ok(Counts(0, 0, 0));
      }
      if |raws| > MAX_BATCH {
        return Err("Batch exceeds the maximum");
      }
      var events, skipped := NormalizeAll(raws);
      var recent := if exists e :: e in events && IsDiscovery(e) then Recent(rows, tenant, now) else {};
      RecentUnused(Taken(rows, tenant), Recent(rows, tenant, now), events);
      var toInsert, duplicates := IngestGroups(tenant, recent, events);
      rows := rows + Rows(tenant, now, toInsert);
      r := Ok(Counts(|toInsert|, skipped, duplicates));
    }
  }

  lemma NothingStored(rows: seq<Row>, tenant: string, now: int)
    ensures Stored(rows, tenant, [], now) == [] && Ingested(rows, tenant, [], now) == rows
  {
  }

  lemma {:induction false} GroupSource(events: seq<Event>, source: string)
    ensures forall i :: 0 <= i < |Group(events, source)| ==> Group(events, source)[i].source == source
  {
    if events != [] {
      GroupSource(events[..|events| - 1], source);
    }
  }

  /** The recent discoveries only matter to a batch that holds some. */
  lemma {:induction false} RecentUnused(taken: set<Id>, recent: set<Key>, events: seq<Event>)
    ensures (forall e :: e in events ==> !IsDiscovery(e)) ==>
              Accepted(taken, recent, events) == Accepted(taken, {}, events)
  {
    if events != [] {
      assert events == events[..|events| - 1] + [events[|events| - 1]];
      RecentUnused(taken, recent, events[..|events| - 1]);
    }
  }

  /** The loop that normalises, skipping what cannot be. */
  method NormalizeAll(raws: seq<Raw>) returns (events: seq<Event>, skipped: nat)
    ensures events == Normalized(raws) && |events| + skipped == |raws|
  {
    events, skipped := [], 0;
    for n := 0 to |raws|
      invariant events == Normalized(raws[..n]) && |events| + skipped == n
    {
      assert raws[..n + 1][..n] == raws[..n];
      hide Normalize;
      match Normalize(raws[n])
      case None => skipped := skipped + 1;
      case Some(e) => events := events + [e];
    }
    assert raws[..|raws|] == raws;
  }

  /** The loop that groups by source; a dictionary keeps its keys in the order of their insertion. */
  method GroupBySource(events: seq<Event>) returns (order: seq<string>, bySource: map<string, seq<Event>>)
    ensures order == Sources(events)
    ensures forall s :: s in order <==> s in bySource
    ensures forall s :: s in bySource ==> bySource[s] == Group(events, s)
  {
    order, bySource := [], map[];
    for n := 0 to |events|
      invariant order == Sources(events[..n])
      invariant forall s :: s in order <==> s in bySource
      invariant forall s :: s in bySource ==> bySource[s] == Group(events[..n], s)
    {
      var e := events[n];
      assert events[..n + 1][..n] == events[..n];
      if e.source !in bySource {
        GroupNone(events[..n], e.source);
        order := order + [e.source];
        bySource := bySource[e.source := []];
      }
      bySource := bySource[e.source := bySource[e.source] + [e]];
    }
    assert events[..|events|] == events;
  }

  lemma GroupNone(events: seq<Event>, source: string)
    requires source !in Sources(events)
    ensures Group(events, source) == []
  {
    if Group(events, source) != [] {
      GroupMembers(events, source, Group(events, source)[0]);
    }
  }
}
