/** What ingestion promises: agreement with a single pass, unique identifiers, and what a repeated batch stores. */
module AuditIngestionTheorems {
  import opened AuditEvents
  import opened AuditIngestion

  // ----- grouping by source refines a single pass

  /** Accepted events are events. */
  lemma {:induction false} AcceptedMembers(taken: set<Id>, recent: set<Key>, events: seq<Event>)
    ensures forall e :: e in Accepted(taken, recent, events) ==> e in events
  {
    forall e | e in Accepted(taken, recent, events) ensures e in events {
      AcceptedIff(taken, recent, events, e);
    }
  }

  /** The events of one call that a single pass, remembering what it met under each source, would store. */
  function SinglePass(rows: seq<Row>, tenant: string, raws: seq<Raw>, now: int): seq<Event> {
    Accepted(Taken(rows, tenant), Recent(rows, tenant, now), Normalized(raws))
  }

  /** What is stored is what a single pass stores, and for each source in the same order. */
  lemma StoredIsSinglePass(rows: seq<Row>, tenant: string, raws: seq<Raw>, now: int)
    requires |raws| <= MAX_BATCH
    ensures multiset(Stored(rows, tenant, raws, now)) == multiset(SinglePass(rows, tenant, raws, now))
    ensures forall s :: Group(Stored(rows, tenant, raws, now), s) == Group(SinglePass(rows, tenant, raws, now), s)
  {
    hide Accepted, Grouped, Normalized, Taken, Recent, Group;
    var events := Normalized(raws);
    var kept := SinglePass(rows, tenant, raws, now);
    AcceptedMembers(Taken(rows, tenant), Recent(rows, tenant, now), events);
    GroupedPermutes(kept, Sources(events));
    forall s ensures Group(Grouped(kept, Sources(events)), s) == Group(kept, s) {
      GroupOfGrouped(kept, Sources(events), s);
      if s !in Sources(events) && Group(kept, s) != [] {
        GroupMembers(kept, s, Group(kept, s)[0]);
        assert false;
      }
    }
  }

  lemma {:induction false} GroupConcat(a: seq<Event>, b: seq<Event>, source: string)
    ensures Group(a + b, source) == Group(a, source) + Group(b, source)
  {
    if b == [] {
      assert a + b == a && Group(a, source) + Group(b, source) == Group(a, source);
    } else {
      var n := |b| - 1;
      assert a + b == (a + b[..n]) + [b[n]] && b == b[..n] + [b[n]];
      GroupConcat(a, b[..n], source);
      GroupAppend(a + b[..n], b[n], source);
    }
  }

  lemma {:induction false} GroupTwice(events: seq<Event>, a: string, b: string)
    ensures Group(Group(events, a), b) == if a == b then Group(events, b) else []
  {
    if events != [] {
      var n := |events| - 1;
      GroupTwice(events[..n], a, b);
      if events[n].source == a {
        GroupAppend(Group(events[..n], a), events[n], b);
      } else {
        assert Group(events[..n], a) + [] == Group(events[..n], a);
        assert Group(events[..n], b) + [] == Group(events[..n], b);
      }
    }
  }

  lemma {:induction false} GroupOfGrouped(events: seq<Event>, sources: seq<string>, source: string)
    requires forall i, j :: 0 <= i < j < |sources| ==> sources[i] != sources[j]
    ensures Group(Grouped(events, sources), source) == if source in sources then Group(events, source) else []
  {
    if sources != [] {
      var n := |sources| - 1;
      var init := sources[..n];
      assert sources == init + [sources[n]];
      assert source == sources[n] ==> source !in init;
      GroupOfGrouped(events, init, source);
      hide *;
      var before, last := Grouped(events, init), Group(events, sources[n]);
      assert Grouped(events, sources) == before + last by { GroupedStep(events, sources); }
      GroupConcat(before, last, source);
      GroupTwice(events, sources[n], source);
      NothingAdded(Group(events, source));
    }
  }

  lemma GroupedStep(events: seq<Event>, sources: seq<string>)
    requires sources != []
    ensures
      var n := |sources| - 1;
      Grouped(events, sources) == Grouped(events, sources[..n]) + Group(events, sources[n])
  {
  }

  lemma NothingAdded(events: seq<Event>)
    ensures events + [] == events && [] + events == events
  {
  }

  // ----- unique identifiers

  predicate SameRowId(a: Row, b: Row) {
    a.tenant == b.tenant && SameId(a.event, b.event)
  }

  /** The unique index over tenant, source and external identifier, where there is one. */
  ghost predicate Unique(rows: seq<Row>) {
    forall i, j :: 0 <= i < j < |rows| ==> !SameRowId(rows[i], rows[j])
  }

  ghost predicate Distinct(events: seq<Event>) {
    forall i, j :: 0 <= i < j < |events| ==> !SameId(events[i], events[j])
  }

  lemma DistinctConcat(a: seq<Event>, b: seq<Event>)
    requires Distinct(a) && Distinct(b) && forall x, y :: x in a && y in b ==> !SameId(x, y)
    ensures Distinct(a + b)
  {
  }

  lemma {:induction false} AcceptedDistinct(taken: set<Id>, recent: set<Key>, events: seq<Event>)
    ensures Distinct(Accepted(taken, recent, events))
    ensures forall e :: e in Accepted(taken, recent, events) && e.externalId.Some? ==>
              (e.source, e.externalId.value) !in taken
  {
    if events != [] {
      var n := |events| - 1;
      AcceptedDistinct(taken, recent, events[..n]);
      AcceptedMembers(taken, recent, events[..n]);
      if Accepts(taken, recent, events[..n], events[n]) {
        DistinctConcat(Accepted(taken, recent, events[..n]), [events[n]]);
      }
    }
  }

  lemma {:induction false} GroupDistinct(events: seq<Event>, source: string)
    requires Distinct(events)
    ensures Distinct(Group(events, source))
  {
    if events != [] {
      var n := |events| - 1;
      GroupDistinct(events[..n], source);
      if events[n].source == source {
        forall x | x in Group(events[..n], source) ensures !SameId(x, events[n]) {
          GroupMembers(events[..n], source, x);
        }
        DistinctConcat(Group(events[..n], source), [events[n]]);
      }
    }
  }

  lemma {:induction false} GroupedDistinct(events: seq<Event>, sources: seq<string>)
    requires Distinct(events) && forall i, j :: 0 <= i < j < |sources| ==> sources[i] != sources[j]
    ensures Distinct(Grouped(events, sources))
    ensures forall e :: e in Grouped(events, sources) ==> e in events && e.source in sources
  {
    if sources != [] {
      var n := |sources| - 1;
      GroupedDistinct(events, sources[..n]);
      GroupDistinct(events, sources[n]);
      forall e | e in Group(events, sources[n]) ensures e in events && e.source == sources[n] {
        GroupMembers(events, sources[n], e);
      }
      DistinctConcat(Grouped(events, sources[..n]), Group(events, sources[n]));
    }
  }

  /** One call keeps the identifiers unique, so the index never refuses its insertion. */
  lemma UniqueKept(rows: seq<Row>, tenant: string, raws: seq<Raw>, now: int)
    requires Unique(rows)
    ensures Unique(Ingested(rows, tenant, raws, now))
  {
    hide Accepted, Grouped, Normalized, Sources;
    var events := Normalized(raws);
    var kept := Accepted(Taken(rows, tenant), Recent(rows, tenant, now), events);
    AcceptedDistinct(Taken(rows, tenant), Recent(rows, tenant, now), events);
    GroupedDistinct(kept, Sources(events));
    var stored := Stored(rows, tenant, raws, now);
    var after := Ingested(rows, tenant, raws, now);
    forall i, j | 0 <= i < j < |after| ensures !SameRowId(after[i], after[j]) {
      if i < |rows| <= j {
        assert after[j].event in stored;
        assert rows[i] in rows;
      }
    }
  }

  datatype Call = Call(tenant: string, raws: seq<Raw>, now: int)

  /** The store after a sequence of calls, one after the other. */
  function IngestedAll(rows: seq<Row>, calls: seq<Call>): seq<Row>
    decreases |calls|
  {
    if calls == [] then rows
    else IngestedAll(Ingested(rows, calls[0].tenant, calls[0].raws, calls[0].now), calls[1..])
  }

  /** Any sequence of calls, for any tenants and at any times, keeps the identifiers unique and loses no row. */
  lemma {:induction false} UniqueKeptAll(rows: seq<Row>, calls: seq<Call>)
    requires Unique(rows)
    ensures Unique(IngestedAll(rows, calls)) && rows <= IngestedAll(rows, calls)
    decreases |calls|
  {
    if calls != [] {
      hide Unique;
      UniqueKept(rows, calls[0].tenant, calls[0].raws, calls[0].now);
      UniqueKeptAll(Ingested(rows, calls[0].tenant, calls[0].raws, calls[0].now), calls[1..]);
    }
  }
}
