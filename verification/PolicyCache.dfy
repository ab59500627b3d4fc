/** The policy snapshot on disk, guarded by a checksum that ignores the order of rules. */
module PolicyCache {
  import opened Wrappers
  import opened PathMatching
  import opened Policy

  /** A rule as the document holds it: a JSON object with string values. */
  type RawRule = map<string, string>

  datatype Document = Document(version: Option<string>, checksum: Option<string>, rules: seq<RawRule>)

  /** The serialiser and the digest; both are lossless as far as the proofs are concerned. */
  datatype Hashing = Hashing(dumps: seq<RawRule> -> string, sha: string -> string)

  ghost predicate Injective(h: Hashing) {
    && (forall a: seq<RawRule>, b :: h.dumps(a) == h.dumps(b) ==> a == b)
    && (forall x: string, y :: h.sha(x) == h.sha(y) ==> x == y)
  }

  datatype LoadError = Missing | MissingKey | IntegrityCheckFailed

  // ----- the sort key

  /** The order of `str`, by code point. */
  predicate StringLeq(a: string, b: string) {
    if a == [] then true
    else if b == [] then false
    else a[0] < b[0] || (a[0] == b[0] && StringLeq(a[1..], b[1..]))
  }

  /** The first characters that differ decide, and a text comes behind its own beginnings. */
  lemma {:induction false} StringLeqIs(a: string, b: string)
    ensures StringLeq(a, b) <==>
              a <= b || exists i :: 0 <= i < |a| && i < |b| && a[..i] == b[..i] && a[i] < b[i]
  {
    if a != [] && b != [] {
      if a[0] == b[0] {
        StringLeqIs(a[1..], b[1..]);
        assert a == [a[0]] + a[1..] && b == [b[0]] + b[1..];
        if i :| 0 <= i < |a[1..]| && i < |b[1..]| && a[1..][..i] == b[1..][..i] && a[1..][i] < b[1..][i] {
          assert a[..i + 1] == [a[0]] + a[1..][..i] && b[..i + 1] == [b[0]] + b[1..][..i];
          assert a[i + 1] < b[i + 1];
        }
        if i :| 0 <= i < |a| && i < |b| && a[..i] == b[..i] && a[i] < b[i] {
          assert i > 0;
          assert a[1..][..i - 1] == a[..i][1..] && b[1..][..i - 1] == b[..i][1..];
          assert a[1..][i - 1] < b[1..][i - 1];
        }
      } else {
        assert a[..0] == b[..0];
        forall i | 0 < i < |a| && i < |b| ensures a[..i] != b[..i] {
          assert a[..i][0] == a[0] && b[..i][0] == b[0];
        }
      }
    }
  }

  predicate Keyed(r: RawRule) {
    "pattern" in r && "classification" in r && "action" in r
  }

  /** Tuples compare component by component. */
  predicate KeyLeq(a: RawRule, b: RawRule)
    requires Keyed(a) && Keyed(b)
  {
    if a["pattern"] != b["pattern"] then StringLeq(a["pattern"], b["pattern"])
    else if a["classification"] != b["classification"] then StringLeq(a["classification"], b["classification"])
    else StringLeq(a["action"], b["action"])
  }

  lemma {:induction false} StringTotal(a: string, b: string)
    ensures StringLeq(a, b) || StringLeq(b, a)
    ensures StringLeq(a, b) && StringLeq(b, a) ==> a == b
  {
    if a != [] && b != [] && a[0] == b[0] {
      StringTotal(a[1..], b[1..]);
      if a[1..] == b[1..] {
        assert a == [a[0]] + a[1..] && b == [b[0]] + b[1..];
      }
    }
  }

  lemma {:induction false} StringTransitive(a: string, b: string, c: string)
    requires StringLeq(a, b) && StringLeq(b, c)
    ensures StringLeq(a, c)
  {
    if a != [] && a[0] == b[0] && b[0] == c[0] { StringTransitive(a[1..], b[1..], c[1..]); }
  }

  predicate SameKey(a: RawRule, b: RawRule)
    requires Keyed(a) && Keyed(b)
  {
    a["pattern"] == b["pattern"] && a["classification"] == b["classification"] && a["action"] == b["action"]
  }

  lemma KeyTotal(a: RawRule, b: RawRule)
    requires Keyed(a) && Keyed(b)
    ensures KeyLeq(a, b) || KeyLeq(b, a)
    ensures KeyLeq(a, b) && KeyLeq(b, a) ==> SameKey(a, b)
  {
    StringTotal(a["pattern"], b["pattern"]);
    StringTotal(a["classification"], b["classification"]);
    StringTotal(a["action"], b["action"]);
  }

  lemma KeyTransitive(a: RawRule, b: RawRule, c: RawRule)
    requires Keyed(a) && Keyed(b) && Keyed(c) && KeyLeq(a, b) && KeyLeq(b, c)
    ensures KeyLeq(a, c)
  {
    hide StringLeq;
    if a["pattern"] == b["pattern"] == c["pattern"] {
      if a["classification"] == b["classification"] == c["classification"] {
        StringTransitive(a["action"], b["action"], c["action"]);
      } else {
        StringTotal(a["classification"], b["classification"]);
        StringTotal(b["classification"], c["classification"]);
        if a["classification"] != b["classification"] && b["classification"] != c["classification"] {
          StringTransitive(a["classification"], b["classification"], c["classification"]);
        }
      }
    } else {
      StringTotal(a["pattern"], b["pattern"]);
      StringTotal(b["pattern"], c["pattern"]);
      if a["pattern"] != b["pattern"] && b["pattern"] != c["pattern"] {
        StringTransitive(a["pattern"], b["pattern"], c["pattern"]);
      }
    }
  }

  // ----- sorted()

  predicate AllKeyed(rules: seq<RawRule>) {
    forall i :: 0 <= i < |rules| ==> Keyed(rules[i])
  }

  predicate Sorted(rules: seq<RawRule>)
    requires AllKeyed(rules)
  {
    forall i, j :: 0 <= i < j < |rules| ==> KeyLeq(rules[i], rules[j])
  }

  /** Behind every rule that is not larger, which keeps the sort stable. */
  function Insert(sorted: seq<RawRule>, r: RawRule): (result: seq<RawRule>)
    requires AllKeyed(sorted) && Keyed(r)
    ensures multiset(result) == multiset(sorted) + multiset{r} && AllKeyed(result)
  {
    if sorted == [] then [r]
    else
      var n := |sorted| - 1;
      assert sorted == sorted[..n] + [sorted[n]];
      if KeyLeq(sorted[n], r) then sorted + [r] else Insert(sorted[..n], r) + [sorted[n]]
  }

  function SortRules(rules: seq<RawRule>): (result: seq<RawRule>)
    requires AllKeyed(rules)
    ensures multiset(result) == multiset(rules) && AllKeyed(result)
  {
    if rules == [] then []
    else
      var n := |rules| - 1;
      assert rules == rules[..n] + [rules[n]];
      Insert(SortRules(rules[..n]), rules[n])
  }

  lemma {:induction false} InsertBelow(sorted: seq<RawRule>, r: RawRule, bound: RawRule)
    requires AllKeyed(sorted) && Keyed(r) && Keyed(bound) && KeyLeq(r, bound)
    requires forall i :: 0 <= i < |sorted| ==> KeyLeq(sorted[i], bound)
    ensures forall i :: 0 <= i < |Insert(sorted, r)| ==> KeyLeq(Insert(sorted, r)[i], bound)
  {
    hide KeyLeq;
    if sorted != [] { InsertBelow(sorted[..|sorted| - 1], r, bound); }
  }

  lemma {:induction false} InsertSorted(sorted: seq<RawRule>, r: RawRule)
    requires AllKeyed(sorted) && Keyed(r) && Sorted(sorted)
    ensures Sorted(Insert(sorted, r))
  {
    hide KeyLeq;
    if sorted != [] {
      var n := |sorted| - 1;
      var last := sorted[n];
      KeyTotal(last, r);
      if KeyLeq(last, r) {
        forall i | 0 <= i < n ensures KeyLeq(sorted[i], r) { KeyTransitive(sorted[i], last, r); }
        SortedAppend(sorted, r);
      } else {
        InsertSorted(sorted[..n], r);
        InsertBelow(sorted[..n], r, last);
        SortedAppend(Insert(sorted[..n], r), last);
      }
    }
  }

  lemma SortedAppend(sorted: seq<RawRule>, r: RawRule)
    requires AllKeyed(sorted) && Keyed(r) && Sorted(sorted)
    requires forall i :: 0 <= i < |sorted| ==> KeyLeq(sorted[i], r)
    ensures AllKeyed(sorted + [r]) && Sorted(sorted + [r])
  {
    hide KeyLeq;
  }

  lemma {:induction false} SortSorts(rules: seq<RawRule>)
    requires AllKeyed(rules)
    ensures Sorted(SortRules(rules))
  {
    if rules != [] {
      var n := |rules| - 1;
      SortSorts(rules[..n]);
      InsertSorted(SortRules(rules[..n]), rules[n]);
    }
  }

  /** No keys besides the three that are sorted by. */
  predicate Plain(rules: seq<RawRule>) {
    forall i :: 0 <= i < |rules| ==> rules[i].Keys == {"pattern", "classification", "action"}
  }

  lemma PlainSameKey(a: RawRule, b: RawRule)
    requires a.Keys == b.Keys == {"pattern", "classification", "action"} && SameKey(a, b)
    ensures a == b
  {
  }

  lemma PlainMembers(a: seq<RawRule>, b: seq<RawRule>)
    requires multiset(a) == multiset(b) && Plain(a)
    ensures Plain(b)
  {
    forall i | 0 <= i < |b| ensures b[i].Keys == {"pattern", "classification", "action"} {
      assert b[i] in multiset(a);
    }
  }

  ghost predicate Canonical(rules: seq<RawRule>) {
    AllKeyed(rules) && Sorted(rules) && Plain(rules)
  }

  lemma CanonicalInit(rules: seq<RawRule>)
    requires Canonical(rules) && rules != []
    ensures Canonical(rules[..|rules| - 1])
  {
    hide KeyLeq, Keyed;
  }

  lemma SameLast(a: seq<RawRule>, b: seq<RawRule>)
    requires multiset(a) == multiset(b) && Canonical(a) && Canonical(b) && |a| == |b| && a != []
    ensures a[|a| - 1] == b[|b| - 1]
  {
    hide KeyLeq, SameKey, Sorted;
    LastIsGreatest(a, b);
    LastIsGreatest(b, a);
    KeyTotal(a[|a| - 1], b[|b| - 1]);
    PlainSameKey(a[|a| - 1], b[|b| - 1]);
  }

  /** A sorted list is determined by its elements. */
  lemma {:induction false} SortedUnique(a: seq<RawRule>, b: seq<RawRule>)
    requires multiset(a) == multiset(b) && Canonical(a) && Canonical(b)
    ensures a == b
  {
    hide Canonical;
    MultisetLength(a, b);
    if a != [] {
      var n := |a| - 1;
      SameLast(a, b);
      MultisetSameLast(a, b);
      CanonicalInit(a);
      CanonicalInit(b);
      SortedUnique(a[..n], b[..n]);
      assert a == a[..n] + [a[n]] && b == b[..n] + [b[n]];
    }
  }

  lemma LastIsGreatest(a: seq<RawRule>, b: seq<RawRule>)
    requires multiset(a) == multiset(b) && AllKeyed(a) && AllKeyed(b) && Sorted(a) && Sorted(b)
    requires |a| == |b| && a != []
    ensures KeyLeq(b[|b| - 1], a[|a| - 1])
  {
    var last := b[|b| - 1];
    assert last in multiset(a);
    var i :| 0 <= i < |a| && a[i] == last;
    KeyTotal(last, last);
  }

  // ----- checksum, save, load

  /** None stands for the KeyError of a rule without one of its keys. */
  function Checksum(h: Hashing, rules: seq<RawRule>): Option<string> {
    if AllKeyed(rules) then Some(h.sha(h.dumps(SortRules(rules)))) else None
  }

  function ToRaw(r: Rule): RawRule {
    map["pattern" := r.pattern, "classification" := r.classification, "action" := r.action]
  }

  function FromRaw(r: RawRule): Rule
    requires Keyed(r)
  {
    Rule(r["pattern"], r["classification"], r["action"])
  }

  function ToRawAll(rules: seq<Rule>): (raw: seq<RawRule>)
    ensures |raw| == |rules| && AllKeyed(raw) && Plain(raw)
  {
    seq(|rules|, i requires 0 <= i < |rules| => ToRaw(rules[i]))
  }

  function FromRawAll(raw: seq<RawRule>): (rules: seq<Rule>)
    requires AllKeyed(raw)
    ensures |rules| == |raw|
  {
    seq(|raw|, i requires 0 <= i < |raw| => FromRaw(raw[i]))
  }

  function LoadDocument(h: Hashing, document: Document): Result<LocalPolicy, LoadError> {
    match Checksum(h, document.rules)
    case None => Err(MissingKey)
    case Some(sum) =>
      if document.checksum != Some(sum) then Err(IntegrityCheckFailed)
      else Ok(LocalPolicy(FromRawAll(document.rules), if document.version.Some? then document.version.value else "1"))
  }

  function SavedDocument(h: Hashing, policy: LocalPolicy): Document {
    var rules := ToRawAll(policy.rules);
    Document(Some(policy.version), Checksum(h, rules), rules)
  }

  /** Every rule of the document has its keys, and the recorded checksum is that of its rules once sorted. */
  predicate Intact(h: Hashing, document: Document) {
    AllKeyed(document.rules) && document.checksum == Some(h.sha(h.dumps(SortRules(document.rules))))
  }

  /** The policy has the document's rules, one for one and in order, and its version. */
  predicate Holds(document: Document, policy: LocalPolicy) {
    && |policy.rules| == |document.rules|
    && (forall i :: 0 <= i < |document.rules| ==>
          var raw, rule := document.rules[i], policy.rules[i];
          Keyed(raw) && rule == Rule(raw["pattern"], raw["classification"], raw["action"]))
    && policy.version == match document.version case None => "1" case Some(version) => version
  }

  const DEFAULTS := LocalPolicy([
    Rule(".env", "*", "block"),
    Rule(".env.*", "*", "block"),
    Rule("*.pem", "*", "block"),
    Rule("*.key", "*", "block"),
    Rule("credentials.*", "*", "block"),
    Rule("~/.ssh/**", "*", "block"),
    Rule("~/.aws/**", "*", "block"),
    Rule("*.sql", "PII", "redact"),
    Rule("src/**", "*", "allow"),
    Rule("tests/**", "*", "allow")
  ], "1")

  class Cache {
    const hashing: Hashing
    /** The document on disk, if there is one. */
    var file: Option<Document>

    constructor (hashing: Hashing, file: Option<Document>)
      ensures this.hashing == hashing && this.file == file
    {
      this.hashing := hashing;
      this.file := file;
    }

    method Save(policy: LocalPolicy)
      modifies this
      ensures file == Some(SavedDocument(hashing, policy))
    {
      var rules := ToRawAll(policy.rules);
      file := Some(Document(Some(policy.version), Checksum(hashing, rules), rules));
    }

    /**
      Succeeds exactly on an intact document and yields what it holds; what was saved
      is loaded again; the error says which of its demands the document fails.
    */
    method Load() returns (r: Result<LocalPolicy, LoadError>)
      ensures r.Ok? <==> file.Some? && Intact(hashing, file.value)
      ensures r.Ok? ==> Holds(file.value, r.value)
      ensures forall saved :: file == Some(SavedDocument(hashing, saved)) ==> r == Ok(saved)
      ensures file.Some? ==> r == LoadDocument(hashing, file.value)
      ensures r == Err(Missing) <==> file.None?
      ensures r == Err(MissingKey) <==> file.Some? && !AllKeyed(file.value.rules)
    {
      if file.None? {
        return Err(Missing);
      }
      var document := file.value;
      var sum := Checksum(hashing, document.rules);
      if sum.None? {
        return Err(MissingKey);
      }
      if document.checksum != sum {
        return Err(IntegrityCheckFailed);
      }
      var version := if document.version.Some? then document.version.value else "1";
      r := Ok(LocalPolicy(FromRawAll(document.rules), version));
      forall saved | file == Some(SavedDocument(hashing, saved)) ensures r == Ok(saved) {
        LoadAfterSave(hashing, saved);
      }
    }

    /** What was saved is in force again; without an intact document the defaults are, whatever is wrong with it. */
    method LoadOrDefaults() returns (policy: LocalPolicy)
      ensures if file.Some? && Intact(hashing, file.value) then Holds(file.value, policy) else policy == DEFAULTS
      ensures forall saved :: file == Some(SavedDocument(hashing, saved)) ==> policy == saved
    {
      var r := Load();
      policy := if r.Ok? then r.value else DEFAULTS;
    }
  }

  /** What was saved is loaded, rules in their order. */
  lemma LoadAfterSave(h: Hashing, policy: LocalPolicy)
    ensures LoadDocument(h, SavedDocument(h, policy)) == Ok(policy)
  {
    hide SortRules;
    assert FromRawAll(ToRawAll(policy.rules)) == policy.rules;
  }

  /** Plain rule lists have equal checksums exactly when one is a reordering of the other. */
  lemma ChecksumIsMultiset(h: Hashing, a: seq<RawRule>, b: seq<RawRule>)
    requires Injective(h) && AllKeyed(a) && AllKeyed(b)
    ensures Checksum(h, a) == Checksum(h, b) ==> multiset(a) == multiset(b)
    ensures Plain(a) && multiset(a) == multiset(b) ==> Checksum(h, a) == Checksum(h, b)
  {
    hide SortRules, AllKeyed;
    var sa, sb := SortRules(a), SortRules(b);
    if h.sha(h.dumps(sa)) == h.sha(h.dumps(sb)) {
      assert h.dumps(sa) == h.dumps(sb);
      assert sa == sb;
    }
    if Plain(a) && multiset(a) == multiset(b) {
      PlainMembers(a, sa);
      PlainMembers(a, sb);
      SortSorts(a);
      SortSorts(b);
      SortedUnique(sa, sb);
    }
  }

  /** On plain rules reading is one to one, so it keeps every multiplicity. */
  lemma {:induction false} FromRawCount(raw: seq<RawRule>, r: Rule)
    requires AllKeyed(raw) && Plain(raw)
    ensures Count(FromRawAll(raw), r) == Count(raw, ToRaw(r))
  {
    if raw != [] {
      var n := |raw| - 1;
      FromRawCount(raw[..n], r);
      assert FromRawAll(raw)[..n] == FromRawAll(raw[..n]);
      PlainInverse(raw[n], r);
    }
  }

  lemma PlainInverse(raw: RawRule, r: Rule)
    requires Keyed(raw) && raw.Keys == {"pattern", "classification", "action"}
    ensures FromRaw(raw) == r <==> raw == ToRaw(r)
  {
    if FromRaw(raw) == r { PlainSameKey(raw, ToRaw(r)); }
  }

  lemma FromRawMultiset(a: seq<RawRule>, b: seq<RawRule>)
    requires multiset(a) == multiset(b) && AllKeyed(a) && AllKeyed(b) && Plain(b)
    ensures multiset(FromRawAll(a)) == multiset(FromRawAll(b))
  {
    hide AllKeyed, Plain, FromRawAll;
    PlainMembers(b, a);
    forall r: Rule ensures multiset(FromRawAll(a))[r] == multiset(FromRawAll(b))[r] {
      FromRawCount(a, r);
      FromRawCount(b, r);
      MultisetCount(a, ToRaw(r));
      MultisetCount(b, ToRaw(r));
      MultisetCount(FromRawAll(a), r);
      MultisetCount(FromRawAll(b), r);
    }
  }

  /**
    A document carrying the checksum of a saved policy is accepted exactly when its
    rules are those of the policy in some order; nothing else gets past the check.
  */
  lemma SnapshotSound(h: Hashing, policy: LocalPolicy, document: Document)
    requires Injective(h) && document.checksum == Checksum(h, ToRawAll(policy.rules))
    ensures LoadDocument(h, document).Ok? <==> multiset(document.rules) == multiset(ToRawAll(policy.rules))
    ensures LoadDocument(h, document).Ok? ==>
              multiset(LoadDocument(h, document).value.rules) == multiset(policy.rules)
  {
    hide SortRules;
    var raw := ToRawAll(policy.rules);
    if multiset(document.rules) == multiset(raw) {
      forall i | 0 <= i < |document.rules| ensures Keyed(document.rules[i]) {
        assert document.rules[i] in multiset(raw);
      }
    }
    if AllKeyed(document.rules) {
      ChecksumIsMultiset(h, raw, document.rules);
      if multiset(document.rules) == multiset(raw) {
        FromRawMultiset(document.rules, raw);
        assert FromRawAll(raw) == policy.rules;
      }
    }
  }

  /** An accepted snapshot of a policy with known actions decides every case as the policy does. */
  lemma SnapshotDecides(
      h: Hashing, policy: LocalPolicy, document: Document, shell: Shell, resource: string, labels: seq<string>)
    requires Injective(h) && document.checksum == Checksum(h, ToRawAll(policy.rules))
    requires LoadDocument(h, document).Ok?
    requires Unambiguous(shell, multiset(policy.rules), resource, labels)
             || forall i :: 0 <= i < |policy.rules| ==> policy.rules[i].action in KNOWN_ACTIONS
    ensures Resolution(shell, LoadDocument(h, document).value.rules, resource, labels) ==
              Resolution(shell, policy.rules, resource, labels)
  {
    hide LoadDocument, Resolution, Unambiguous, Checksum;
    SnapshotSound(h, policy, document);
    if !Unambiguous(shell, multiset(policy.rules), resource, labels) {
      KnownActionsUnambiguous(shell, multiset(policy.rules), resource, labels);
    }
    OrderIrrelevant(shell, policy.rules, LoadDocument(h, document).value.rules, resource, labels);
  }
}
