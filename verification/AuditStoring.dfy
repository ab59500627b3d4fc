/** When an event is stored, told by the rows of the store and the events of the batch themselves. */
module AuditStoring {
  import opened AuditEvents
  import opened AuditIngestion
  import opened AuditIngestionTheorems

  // ----- told by the rows

  /** A row of the tenant carries the event's source and identifier. */
  predicate IdStored(rows: seq<Row>, tenant: string, e: Event) {
    e.externalId.Some? &&
    exists k :: && 0 <= k < |rows| && rows[k].tenant == tenant
                && rows[k].event.source == e.source && rows[k].event.externalId == e.externalId
  }

  /** The event is a discovery, and a row of the tenant has the same actor and resource and is at most a day old. */
  predicate DiscoveryStored(rows: seq<Row>, tenant: string, now: int, e: Event) {
    e.action == "endpoint.tool.discover" &&
    exists k :: && 0 <= k < |rows| && rows[k].tenant == tenant
                && rows[k].event.action == "endpoint.tool.discover"
                && rows[k].event.actor == e.actor && rows[k].event.resource == e.resource
                && rows[k].timestamp >= now - 86400
  }

  /** An earlier event of the batch has the event's source, and its identifier or its discovery. */
  predicate Repeats(earlier: seq<Event>, e: Event) {
    exists k :: && 0 <= k < |earlier| && earlier[k].source == e.source
                && (|| (e.externalId.Some? && earlier[k].externalId == e.externalId)
                    || (e.action == earlier[k].action == "endpoint.tool.discover"
                        && earlier[k].actor == e.actor && earlier[k].resource == e.resource))
  }

  lemma TakenIff(rows: seq<Row>, tenant: string, e: Event)
    requires e.externalId.Some?
    ensures (e.source, e.externalId.value) in Taken(rows, tenant) <==> IdStored(rows, tenant, e)
  {
    if (e.source, e.externalId.value) in Taken(rows, tenant) {
      var r :| r in rows && r.tenant == tenant && r.event.externalId.Some?
               && (r.event.source, r.event.externalId.value) == (e.source, e.externalId.value);
      var k :| 0 <= k < |rows| && rows[k] == r;
    }
  }

  lemma RecentIff(rows: seq<Row>, tenant: string, now: int, e: Event)
    requires IsDiscovery(e)
    ensures KeyOf(e) in Recent(rows, tenant, now) <==> DiscoveryStored(rows, tenant, now, e)
  {
    if KeyOf(e) in Recent(rows, tenant, now) {
      var r :| r in rows && r.tenant == tenant && IsDiscovery(r.event)
               && r.timestamp >= now - DISCOVERY_WINDOW && KeyOf(r.event) == KeyOf(e);
      var k :| 0 <= k < |rows| && rows[k] == r;
    }
  }

  lemma RepeatsIff(earlier: seq<Event>, e: Event)
    ensures Repeats(earlier, e) <==> exists x :: x in earlier && (SameId(x, e) || SameDiscovery(x, e))
  {
    forall k | 0 <= k < |earlier| ensures earlier[k] in earlier {}
    if Repeats(earlier, e) {
      var k :| && 0 <= k < |earlier| && earlier[k].source == e.source
               && (|| (e.externalId.Some? && earlier[k].externalId == e.externalId)
                   || (e.action == earlier[k].action == "endpoint.tool.discover"
                       && earlier[k].actor == e.actor && earlier[k].resource == e.resource));
      assert SameId(earlier[k], e) || SameDiscovery(earlier[k], e);
    }
  }

  /**
    An event is held back exactly by a row of its tenant with its source and
    identifier, by a discovery of its tenant at most a day old, from whatever source,
    or by an earlier event of the batch from its own source.
  */
  lemma AcceptsIff(rows: seq<Row>, tenant: string, now: int, earlier: seq<Event>, e: Event)
    ensures Accepts(Taken(rows, tenant), Recent(rows, tenant, now), earlier, e) <==>
              !IdStored(rows, tenant, e) && !DiscoveryStored(rows, tenant, now, e) && !Repeats(earlier, e)
  {
    if e.externalId.Some? { TakenIff(rows, tenant, e); }
    if IsDiscovery(e) { RecentIff(rows, tenant, now, e); }
    RepeatsIff(earlier, e);
    hide Taken, Recent, SameId, SameDiscovery, Repeats;
  }

  /** The positions of a batch whose events are stored, in order. */
  function StoredAt(rows: seq<Row>, tenant: string, now: int, events: seq<Event>): seq<nat> {
    if events == [] then []
    else
      var n := |events| - 1;
      var e := events[n];
      StoredAt(rows, tenant, now, events[..n])
      + if IdStored(rows, tenant, e) || DiscoveryStored(rows, tenant, now, e) || Repeats(events[..n], e) then []
        else [n]
  }

  function At(events: seq<Event>, positions: seq<nat>): (picked: seq<Event>)
    requires forall k :: 0 <= k < |positions| ==> positions[k] < |events|
    ensures |picked| == |positions|
  {
    seq(|positions|, k requires 0 <= k < |positions| => events[positions[k]])
  }

  lemma {:induction false} StoredAtInRange(rows: seq<Row>, tenant: string, now: int, events: seq<Event>)
    ensures forall k :: 0 <= k < |StoredAt(rows, tenant, now, events)| ==>
              StoredAt(rows, tenant, now, events)[k] < |events|
  {
    if events != [] { StoredAtInRange(rows, tenant, now, events[..|events| - 1]); }
  }

  lemma {:induction false} AcceptedAt(rows: seq<Row>, tenant: string, now: int, events: seq<Event>)
    ensures forall k :: 0 <= k < |StoredAt(rows, tenant, now, events)| ==>
              StoredAt(rows, tenant, now, events)[k] < |events|
    ensures Accepted(Taken(rows, tenant), Recent(rows, tenant, now), events) ==
              At(events, StoredAt(rows, tenant, now, events))
  {
    StoredAtInRange(rows, tenant, now, events);
    if events != [] {
      var n := |events| - 1;
      AcceptedAt(rows, tenant, now, events[..n]);
      AcceptsIff(rows, tenant, now, events[..n], events[n]);
      hide Accepts, Taken, Recent, IdStored, DiscoveryStored, Repeats;
      var before := StoredAt(rows, tenant, now, events[..n]);
      assert At(events, before) == At(events[..n], before);
      assert At(events, before + [n]) == At(events, before) + [events[n]];
      assert before + [] == before && At(events[..n], before) + [] == At(events[..n], before);
    }
  }

  /**
    What a call stores is, source by source and in order, the events at those
    positions of the normalised batch at which nothing of the tenant's own rows and
    nothing earlier of the same source stands against them.
  */
  lemma StoredIs(rows: seq<Row>, tenant: string, raws: seq<Raw>, now: int)
    requires |raws| <= 5000
    ensures
      var events := Normalized(raws);
      var positions := StoredAt(rows, tenant, now, events);
      && (forall k :: 0 <= k < |positions| ==> positions[k] < |events|)
      && multiset(Stored(rows, tenant, raws, now)) == multiset(At(events, positions))
      && forall s :: Group(Stored(rows, tenant, raws, now), s) == Group(At(events, positions), s)
  {
    AcceptedAt(rows, tenant, now, Normalized(raws));
    StoredIsSinglePass(rows, tenant, raws, now);
  }

  // ----- the order of what is stored

  /** The batch has an event of the one source before any of the other. */
  ghost predicate Sooner(events: seq<Event>, source: string, other: string) {
    exists k :: 0 <= k < |events| && events[k].source == source && forall j :: 0 <= j <= k ==> events[j].source != other
  }

  ghost predicate Ahead(sources: seq<string>, source: string, other: string) {
    exists i, j :: 0 <= i < j < |sources| && sources[i] == source && sources[j] == other
  }

  lemma {:induction false} SourcesInOrder(events: seq<Event>, source: string, other: string)
    requires Ahead(Sources(events), source, other)
    ensures Sooner(events, source, other)
  {
    var n := |events| - 1;
    var init := Sources(events[..n]);
    assert forall k :: 0 <= k < n ==> events[..n][k] == events[k];
    if Ahead(init, source, other) {
      SourcesInOrder(events[..n], source, other);
      var k :| && 0 <= k < n && events[..n][k].source == source
               && forall j :: 0 <= j <= k ==> events[..n][j].source != other;
      assert events[k].source == source;
    } else {
      assert source in init && other == events[n].source && other !in init;
      var e :| e in events[..n] && e.source == source;
      var k :| 0 <= k < n && events[..n][k] == e;
      forall j | 0 <= j <= k ensures events[j].source != other { assert events[..n][j] in events[..n]; }
    }
  }

  ghost predicate InOrderOf(events: seq<Event>, sources: seq<string>) {
    forall i, j :: 0 <= i < j < |events| ==>
      events[i].source == events[j].source || Ahead(sources, events[i].source, events[j].source)
  }

  lemma {:induction false} GroupedInOrder(events: seq<Event>, sources: seq<string>)
    ensures InOrderOf(Grouped(events, sources), sources)
    ensures forall e :: e in Grouped(events, sources) ==> e.source in sources
  {
    if sources != [] {
      var n := |sources| - 1;
      GroupedInOrder(events, sources[..n]);
      GroupSource(events, sources[n]);
      var front, last := Grouped(events, sources[..n]), Group(events, sources[n]);
      var all := Grouped(events, sources);
      assert all == front + last;
      hide Grouped, Group;
      forall i, j | 0 <= i < j < |all|
        ensures all[i].source == all[j].source || Ahead(sources, all[i].source, all[j].source)
      {
        FrontFirst(front, last, sources, i, j);
      }
    }
  }

  lemma FrontFirst(front: seq<Event>, last: seq<Event>, sources: seq<string>, i: nat, j: nat)
    requires sources != [] && i < j < |front + last|
    requires InOrderOf(front, sources[..|sources| - 1])
    requires forall e :: e in front ==> e.source in sources[..|sources| - 1]
    requires forall k :: 0 <= k < |last| ==> last[k].source == sources[|sources| - 1]
    ensures
      var all: seq<Event> := front + last;
      all[i].source == all[j].source || Ahead(sources, all[i].source, all[j].source)
  {
    var n := |sources| - 1;
    if j < |front| {
      if front[i].source != front[j].source {
        var a, b :| 0 <= a < b < n && sources[..n][a] == front[i].source && sources[..n][b] == front[j].source;
        assert sources[a] == front[i].source && sources[b] == front[j].source;
      }
    } else if i < |front| {
      assert front[i] in front;
      var a :| 0 <= a < n && sources[..n][a] == front[i].source;
      assert sources[a] == front[i].source && sources[n] == last[j - |front|].source;
    }
  }

  /** Events of one source stay together, and sources follow each other as they first occur in the batch. */
  lemma StoredInOrder(rows: seq<Row>, tenant: string, raws: seq<Raw>, now: int, i: nat, j: nat)
    requires i < j < |Stored(rows, tenant, raws, now)|
    ensures
      var stored := Stored(rows, tenant, raws, now);
      stored[i].source == stored[j].source || Sooner(Normalized(raws), stored[i].source, stored[j].source)
  {
    var events := Normalized(raws);
    GroupedInOrder(Accepted(Taken(rows, tenant), Recent(rows, tenant, now), events), Sources(events));
    var stored := Stored(rows, tenant, raws, now);
    hide Sooner, Accepted, Taken, Recent, Grouped;
    if stored[i].source != stored[j].source {
      SourcesInOrder(events, stored[i].source, stored[j].source);
    }
  }

  // ----- tenants

  /** The rows of one tenant, in order. */
  function OfTenant(rows: seq<Row>, tenant: string): seq<Row> {
    if rows == [] then []
    else
      var n := |rows| - 1;
      OfTenant(rows[..n], tenant) + if rows[n].tenant == tenant then [rows[n]] else []
  }

  lemma {:induction false} OfTenantMembers(rows: seq<Row>, tenant: string, r: Row)
    ensures r in OfTenant(rows, tenant) <==> r in rows && r.tenant == tenant
  {
    if rows != [] {
      var n := |rows| - 1;
      assert rows == rows[..n] + [rows[n]];
      OfTenantMembers(rows[..n], tenant, r);
    }
  }

  lemma {:induction false} OfTenantConcat(a: seq<Row>, b: seq<Row>, tenant: string)
    ensures OfTenant(a + b, tenant) == OfTenant(a, tenant) + OfTenant(b, tenant)
  {
    if b == [] {
      assert a + b == a;
    } else {
      var n := |b| - 1;
      assert (a + b)[..|a| + n] == a + b[..n];
      OfTenantConcat(a, b[..n], tenant);
    }
  }

  lemma {:induction false} OfTenantOwn(rows: seq<Row>, owner: string, tenant: string)
    requires forall k :: 0 <= k < |rows| ==> rows[k].tenant == owner
    ensures OfTenant(rows, tenant) == if tenant == owner then rows else []
  {
    if rows != [] {
      var n := |rows| - 1;
      OfTenantOwn(rows[..n], owner, tenant);
      assert rows == rows[..n] + [rows[n]];
    }
  }

  /**
    Tenants are apart: what a call stores depends on the tenant's own rows alone, and
    it adds to nobody else's.
  */
  lemma TenantsApart(rows: seq<Row>, tenant: string, raws: seq<Raw>, now: int, other: string)
    ensures Stored(rows, tenant, raws, now) == Stored(OfTenant(rows, tenant), tenant, raws, now)
    ensures other != tenant ==> OfTenant(Ingested(rows, tenant, raws, now), other) == OfTenant(rows, other)
  {
    var own := OfTenant(rows, tenant);
    forall r ensures r in own <==> r in rows && r.tenant == tenant { OfTenantMembers(rows, tenant, r); }
    assert Taken(own, tenant) == Taken(rows, tenant) && Recent(own, tenant, now) == Recent(rows, tenant, now);
    hide Taken, Recent, Normalized, Grouped, Accepted, OfTenant;
    var new_ := Rows(tenant, now, Stored(rows, tenant, raws, now));
    OfTenantConcat(rows, new_, other);
    OfTenantOwn(new_, tenant, other);
    assert OfTenant(rows, other) + [] == OfTenant(rows, other);
  }

  /** Every row a call adds is the tenant's, holds a stored event, and is dated by the event, or by the clock. */
  lemma RowsAdded(rows: seq<Row>, tenant: string, raws: seq<Raw>, now: int, k: nat)
    requires |rows| <= k < |Ingested(rows, tenant, raws, now)|
    ensures
      var row := Ingested(rows, tenant, raws, now)[k];
      && row.tenant == tenant && row.event in Stored(rows, tenant, raws, now)
      && (match row.event.timestamp case Some(t) => row.timestamp == t case None => row.timestamp == now)
  {
  }
}
