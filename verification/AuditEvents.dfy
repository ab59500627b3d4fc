/** Audit events from outside: their normal form, and which of a batch are duplicates. */
module AuditEvents {
  import opened Wrappers
  import opened Text

  datatype Stamp = NoStamp | At(time: int) | BadStamp

  /**
    One entry of a batch.  A field is None when the key is missing; otherwise it is
    the value turned into a string.  For `externalId` and `traceId` None stands for
    every false value.
  */
  datatype Raw = Raw(
    status: Option<string>,
    risk: Option<string>,
    actor: Option<string>,
    action: Option<string>,
    resource: Option<string>,
    source: Option<string>,
    details: Option<string>,
    timestamp: Stamp,
    externalId: Option<string>,
    traceId: Option<string>)

  datatype Event = Event(
    actor: string,
    action: string,
    resource: string,
    status: string,
    risk: string,
    details: string,
    timestamp: Option<int>,
    source: string,
    externalId: Option<string>)

  const VALID_STATUSES: set<string> := {"allowed", "blocked", "review"}
  const VALID_RISKS: set<string> := {"low", "medium", "high", "critical"}
  const DISCOVER := "endpoint.tool.discover"

  function Cut(s: string, n: nat): (r: string)
    ensures |r| <= n && r <= s && (|s| <= n ==> r == s)
  {
    if |s| > n then s[..n] else s
  }

  function Given(field: Option<string>, otherwise: string): string {
    if field.Some? then field.value else otherwise
  }

  function Details(raw: Raw): string {
    var details := Strip(Given(raw.details, ""));
    if raw.traceId.None? then details
    else if details != "" then "trace_id=" + raw.traceId.value + "; " + details
    else "trace_id=" + raw.traceId.value
  }

  /** The identifier that duplicates are told by; blank ones count as missing. */
  function ExternalId(raw: Raw): Option<string> {
    var id := Strip(Given(raw.externalId, ""));
    if id == "" then None else Some(Cut(id, 255))
  }

  /** The event as stored: its texts fit the columns and its status and risk are known. */
  predicate Storable(e: Event) {
    && 0 < |e.actor| <= 255 && 0 < |e.action| <= 100 && 0 < |e.resource| <= 255
    && e.status in VALID_STATUSES && e.risk in VALID_RISKS
    && 0 < |e.source| <= 64
    && (e.externalId.Some? ==> 0 < |e.externalId.value| <= 255)
  }

  /** None when the source raises ValueError. */
  function Normalize(raw: Raw): Option<Event> {
    var status := Lower(Strip(Given(raw.status, "")));
    var risk := Lower(Strip(Given(raw.risk, "low")));
    var actor, action := Strip(Given(raw.actor, "")), Strip(Given(raw.action, ""));
    var resource := Strip(Given(raw.resource, ""));
    var source := Strip(Given(raw.source, "external"));
    if status !in VALID_STATUSES || risk !in VALID_RISKS then None
    else if actor == "" || action == "" || resource == "" || raw.timestamp.BadStamp? then None
    else Some(Event(
      Cut(actor, 255), Cut(action, 100), Cut(resource, 255), status, risk, Details(raw),
      if raw.timestamp.At? then Some(raw.timestamp.time) else None,
      Cut(if source == "" then "external" else source, 64),
      ExternalId(raw)))
  }

  lemma NormalizedFits(raw: Raw)
    ensures Normalize(raw).Some? ==> Storable(Normalize(raw).value)
  {
    hide Strip, Lower, Details;
  }

  // ----- field by field

  /** The text of a field without the white space around it; nothing when the field is missing. */
  function Bare(field: Option<string>): string {
    match field
    case None => ""
    case Some(s) => Strip(s)
  }

  /** The first `n` characters of a text, or all of it. */
  predicate CutTo(s: string, full: string, n: nat) {
    s <= full && |s| == Min(|full|, n)
  }

  /**
    An entry is accepted exactly with a known status, a known or no risk, a time stamp
    that can be read or none, and an actor, an action and a resource.
  */
  lemma AcceptedEntries(raw: Raw)
    ensures Normalize(raw).Some? <==>
              && Lower(Bare(raw.status)) in {"allowed", "blocked", "review"}
              && (raw.risk.None? || Lower(Bare(raw.risk)) in {"low", "medium", "high", "critical"})
              && Bare(raw.actor) != "" && Bare(raw.action) != "" && Bare(raw.resource) != ""
              && !raw.timestamp.BadStamp?
  {
    hide Strip, Lower;
    StripFixed("low");
    StripFixed("");
    assert Lower("low") == "low" by { ValidIsPlain("low"); }
  }

  /** The fields of an accepted entry: what is missing gets its default, texts are cut, a trace id goes in front. */
  lemma NormalizedFields(raw: Raw)
    requires Normalize(raw).Some?
    ensures
      var e := Normalize(raw).value;
      && e.status == Lower(Bare(raw.status))
      && e.risk == (if raw.risk.None? then "low" else Lower(Bare(raw.risk)))
      && CutTo(e.actor, Bare(raw.actor), 255)
      && CutTo(e.action, Bare(raw.action), 100)
      && CutTo(e.resource, Bare(raw.resource), 255)
      && CutTo(e.source, if Bare(raw.source) == "" then "external" else Bare(raw.source), 64)
      && (match raw.timestamp case At(t) => e.timestamp == Some(t) case _ => e.timestamp == None)
      && (e.externalId.None? <==> Bare(raw.externalId) == "")
      && (e.externalId.Some? ==> CutTo(e.externalId.value, Bare(raw.externalId), 255))
      && (match raw.traceId
          case None => e.details == Bare(raw.details)
          case Some(id) =>
            e.details == "trace_id=" + id + if Bare(raw.details) == "" then "" else "; " + Bare(raw.details))
  {
    hide Strip, Lower;
    StripFixed("low");
    StripFixed("");
    StripFixed("external");
    assert Lower("low") == "low" by { ValidIsPlain("low"); }
  }

  // ----- what normalising leaves alone

  /** The entry that gives exactly the fields of an event. */
  function RawOf(e: Event): Raw {
    Raw(Some(e.status), Some(e.risk), Some(e.actor), Some(e.action), Some(e.resource), Some(e.source), Some(e.details),
        if e.timestamp.Some? then At(e.timestamp.value) else NoStamp, e.externalId, None)
  }

  predicate Stripped(s: string) {
    s == [] || Trimmed(s)
  }

  /** Storable, and without white space around its texts. */
  predicate Normal(e: Event) {
    && Storable(e)
    && Stripped(e.actor) && Stripped(e.action) && Stripped(e.resource) && Stripped(e.source) && Stripped(e.details)
    && (e.externalId.Some? ==> Stripped(e.externalId.value))
  }

  lemma ValidIsPlain(s: string)
    requires s in VALID_STATUSES || s in VALID_RISKS
    ensures Stripped(s) && Lower(s) == s
  {
    assert Lower("allowed") == "allowed" && Lower("blocked") == "blocked" && Lower("review") == "review";
    assert Lower("low") == "low" && Lower("medium") == "medium";
    assert Lower("high") == "high" && Lower("critical") == "critical";
  }

  /** A text comes through stripping and cutting as it is exactly when there is nothing to strip or cut. */
  lemma CutStripFixed(s: string, n: nat)
    ensures Cut(Strip(s), n) == s <==> Stripped(s) && |s| <= n
  {
    hide Strip;
    StripFixed(s);
  }

  lemma SourceFixed(s: string)
    requires 0 < |s| <= 64
    ensures Cut(if Strip(s) == "" then "external" else Strip(s), 64) == s <==> Stripped(s)
  {
    hide Strip, Cut;
    StripFixed(s);
    StripFixed("external");
    CutStripFixed(s, 64);
    assert Cut("external", 64) == "external" by { CutNothing("external", 64); }
  }

  lemma CutNothing(s: string, n: nat)
    requires |s| <= n
    ensures Cut(s, n) == s
  {
  }

  /**
    Normalising an event once more leaves it alone exactly when it is normal: no field
    is lost, swapped or replaced.
  */
  lemma NormalizeIdentity(e: Event)
    ensures Normalize(RawOf(e)) == Some(e) <==> Normal(e)
  {
    hide Strip, Lower, Cut, Stripped;
    NormalizedFits(RawOf(e));
    if Storable(e) {
      ValidIsPlain(e.status);
      ValidIsPlain(e.risk);
      NormalizeTexts(e);
    }
  }

  lemma NormalizeTexts(e: Event)
    requires Storable(e) && Stripped(e.status) && Stripped(e.risk)
    requires Lower(e.status) == e.status && Lower(e.risk) == e.risk
    ensures Normalize(RawOf(e)) == Some(e) <==> Normal(e)
  {
    hide Strip, Lower, Cut;
    StripFixed("");
    StripFixed(e.status);
    StripFixed(e.risk);
    StripFixed(e.actor);
    StripFixed(e.action);
    StripFixed(e.resource);
    StripFixed(e.details);
    CutStripFixed(e.actor, 255);
    CutStripFixed(e.action, 100);
    CutStripFixed(e.resource, 255);
    SourceFixed(e.source);
    if e.externalId.Some? {
      StripFixed(e.externalId.value);
      CutStripFixed(e.externalId.value, 255);
    }
  }

  /** The entries that can be normalised, in order. */
  function Normalized(raws: seq<Raw>): (events: seq<Event>)
    ensures |events| <= |raws|
  {
    if raws == [] then []
    else
      var rest := Normalized(raws[..|raws| - 1]);
      match Normalize(raws[|raws| - 1])
      case None => rest
      case Some(e) => rest + [e]
  }

  // ----- duplicates

  type Id = (string, string)
  type Key = (string, string)

  predicate IsDiscovery(e: Event) {
    e.action == DISCOVER
  }

  function KeyOf(e: Event): Key {
    (e.actor, e.resource)
  }

  predicate SameId(a: Event, b: Event) {
    a.source == b.source && a.externalId.Some? && a.externalId == b.externalId
  }

  predicate SameDiscovery(a: Event, b: Event) {
    a.source == b.source && IsDiscovery(a) && IsDiscovery(b) && KeyOf(a) == KeyOf(b)
  }

  /**
    Whether an event is stored, given those before it in the batch: neither its
    identifier nor its discovery is known to the store or was met in the batch
    under the same source, no matter whether the earlier event was stored.
  */
  predicate Accepts(taken: set<Id>, recent: set<Key>, earlier: seq<Event>, e: Event) {
    && (e.externalId.Some? ==> (e.source, e.externalId.value) !in taken)
    && (IsDiscovery(e) ==> KeyOf(e) !in recent)
    && (forall x :: x in earlier ==> !SameId(x, e) && !SameDiscovery(x, e))
  }

  /** The events that a single pass over the batch stores. */
  function Accepted(taken: set<Id>, recent: set<Key>, events: seq<Event>): (r: seq<Event>)
    ensures |r| <= |events|
  {
    if events == [] then []
    else
      var n := |events| - 1;
      Accepted(taken, recent, events[..n])
      + if Accepts(taken, recent, events[..n], events[n]) then [events[n]] else []
  }

  lemma {:induction false} AcceptedIff(taken: set<Id>, recent: set<Key>, events: seq<Event>, e: Event)
    ensures e in Accepted(taken, recent, events) <==>
              exists i :: 0 <= i < |events| && events[i] == e && Accepts(taken, recent, events[..i], e)
  {
    if events != [] {
      var n := |events| - 1;
      var init := events[..n];
      AcceptedIff(taken, recent, init, e);
      assert forall i :: 0 <= i < n ==> init[i] == events[i] && init[..i] == events[..i];
    }
  }

  // ----- grouping by source

  /** The events of one source, in order. */
  function Group(events: seq<Event>, source: string): seq<Event> {
    if events == [] then []
    else
      var n := |events| - 1;
      Group(events[..n], source) + if events[n].source == source then [events[n]] else []
  }

  lemma {:induction false} GroupMembers(events: seq<Event>, source: string, e: Event)
    ensures e in Group(events, source) <==> e in events && e.source == source
  {
    if events != [] {
      var n := |events| - 1;
      assert events == events[..n] + [events[n]];
      GroupMembers(events[..n], source, e);
    }
  }

  lemma GroupAppend(events: seq<Event>, e: Event, source: string)
    ensures Group(events + [e], source) == Group(events, source) + if e.source == source then [e] else []
  {
    assert (events + [e])[..|events|] == events;
  }

  lemma AcceptedAppend(taken: set<Id>, recent: set<Key>, events: seq<Event>, e: Event)
    ensures Accepted(taken, recent, events + [e]) ==
              Accepted(taken, recent, events) + if Accepts(taken, recent, events, e) then [e] else []
  {
    assert (events + [e])[..|events|] == events;
  }

  /** An event is judged the same among all the events and among those of its source. */
  lemma AcceptsInGroup(taken: set<Id>, recent: set<Key>, earlier: seq<Event>, e: Event)
    ensures Accepts(taken, recent, Group(earlier, e.source), e) <==> Accepts(taken, recent, earlier, e)
  {
    forall x ensures x in Group(earlier, e.source) <==> x in earlier && x.source == e.source {
      GroupMembers(earlier, e.source, x);
    }
  }

  /** Grouping first and accepting first come to the same. */
  lemma {:induction false} AcceptedGroup(taken: set<Id>, recent: set<Key>, events: seq<Event>, source: string)
    ensures Accepted(taken, recent, Group(events, source)) == Group(Accepted(taken, recent, events), source)
  {
    if events != [] {
      var n := |events| - 1;
      var init, e := events[..n], events[n];
      AcceptedGroup(taken, recent, init, source);
      hide Accepts;
      if e.source == source {
        AcceptsInGroup(taken, recent, init, e);
        AcceptedAppend(taken, recent, Group(init, source), e);
      }
      var kept := Accepted(taken, recent, init);
      assert kept + [] == kept && Group(init, source) + [] == Group(init, source);
      assert Group(kept, source) + [] == Group(kept, source);
      if Accepts(taken, recent, init, e) {
        GroupAppend(kept, e, source);
      }
    }
  }

  /** The sources in the order in which they first occur. */
  function Sources(events: seq<Event>): (r: seq<string>)
    ensures forall s :: s in r <==> exists e :: e in events && e.source == s
    ensures forall i, j :: 0 <= i < j < |r| ==> r[i] != r[j]
  {
    if events == [] then []
    else
      var n := |events| - 1;
      var init := Sources(events[..n]);
      assert events == events[..n] + [events[n]];
      if events[n].source in init then init else init + [events[n].source]
  }

  /** The events grouped by source, one source after the other. */
  function Grouped(events: seq<Event>, sources: seq<string>): seq<Event> {
    if sources == [] then []
    else
      var n := |sources| - 1;
      Grouped(events, sources[..n]) + Group(events, sources[n])
  }

  lemma {:induction false} GroupCount(events: seq<Event>, source: string, e: Event)
    ensures multiset(Group(events, source))[e] == if e.source == source then multiset(events)[e] else 0
  {
    if events != [] {
      var n := |events| - 1;
      GroupCount(events[..n], source, e);
      MultisetInit(events);
    }
  }

  lemma {:induction false} GroupedCount(events: seq<Event>, sources: seq<string>, e: Event)
    requires forall i, j :: 0 <= i < j < |sources| ==> sources[i] != sources[j]
    ensures multiset(Grouped(events, sources))[e] == if e.source in sources then multiset(events)[e] else 0
  {
    if sources != [] {
      var n := |sources| - 1;
      GroupedCount(events, sources[..n], e);
      GroupCount(events, sources[n], e);
      assert sources == sources[..n] + [sources[n]];
    }
  }

  /** Grouping only reorders. */
  lemma GroupedPermutes(events: seq<Event>, sources: seq<string>)
    requires forall i, j :: 0 <= i < j < |sources| ==> sources[i] != sources[j]
    requires forall e :: e in events ==> e.source in sources
    ensures multiset(Grouped(events, sources)) == multiset(events)
    ensures |Grouped(events, sources)| == |events|
  {
    forall e ensures multiset(Grouped(events, sources))[e] == multiset(events)[e] {
      GroupedCount(events, sources, e);
    }
    MultisetLength(Grouped(events, sources), events);
  }
}
