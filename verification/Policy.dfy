/** Rule evaluation of the endpoint agent: the strictest matching rule decides. */
module Policy {
  import opened PathMatching

  datatype Rule = Rule(pattern: string, classification: string, action: string)

  datatype LocalPolicy = LocalPolicy(rules: seq<Rule>, version: string)

  const KNOWN_ACTIONS: set<string> := {"allow", "log", "redact", "approval", "block"}

  /** Unknown actions rank like "allow". */
  function Rank(action: string): nat {
    if action == "log" then 2
    else if action == "redact" then 3
    else if action == "approval" then 4
    else if action == "block" then 5
    else 1
  }

  const BLOCKED_LABELS: set<string> := {"SECRET", "PRIVATE_KEY", "AWS_ACCESS_KEY", "GENERIC_SECRET"}
  const PERSONAL_LABELS: set<string> := {"SSN", "EMAIL", "US_PHONE", "EU_PERSONAL_ID", "PCI_CARD"}

  function DefaultAction(labels: seq<string>): string {
    if exists l :: l in labels && l in BLOCKED_LABELS then "block"
    else if exists l :: l in labels && l in PERSONAL_LABELS then "redact"
    else "allow"
  }

  predicate Applies(shell: Shell, rule: Rule, resource: string, labels: seq<string>) {
    (rule.classification == "*" || rule.classification in labels) && PathMatches(shell, rule.pattern, resource)
  }

  /** The rules that apply, in order. */
  function Applicable(shell: Shell, rules: seq<Rule>, resource: string, labels: seq<string>): seq<Rule> {
    if rules == [] then []
    else
      var init := Applicable(shell, rules[..|rules| - 1], resource, labels);
      var last := rules[|rules| - 1];
      if Applies(shell, last, resource, labels) then init + [last] else init
  }

  /** `i` is the first of the top-ranked rules. */
  predicate IsFirstTop(rules: seq<Rule>, i: nat) {
    && i < |rules|
    && (forall j :: 0 <= j < |rules| ==> Rank(rules[j].action) <= Rank(rules[i].action))
    && (forall j :: 0 <= j < i ==> Rank(rules[j].action) < Rank(rules[i].action))
  }

  function TopIndex(rules: seq<Rule>): (i: nat)
    requires rules != []
    ensures IsFirstTop(rules, i)
  {
    var n := |rules| - 1;
    if n == 0 then 0
    else
      var i := TopIndex(rules[..n]);
      assert forall j :: 0 <= j < n ==> rules[..n][j] == rules[j];
      if Rank(rules[n].action) > Rank(rules[i].action) then n else i
  }

  /** What the rules resolve to: the default when none applies, else the first of the strictest. */
  function Resolution(shell: Shell, rules: seq<Rule>, resource: string, labels: seq<string>): string {
    var matching := Applicable(shell, rules, resource, labels);
    if matching == [] then DefaultAction(labels) else matching[TopIndex(matching)].action
  }

  lemma FirstTopUnique(rules: seq<Rule>, i: nat, j: nat)
    requires IsFirstTop(rules, i) && IsFirstTop(rules, j)
    ensures i == j
  {
    assert Rank(rules[i].action) <= Rank(rules[j].action) <= Rank(rules[i].action);
  }

  /** The source's loop: keep the action of the first rule that beats every earlier one. */
  method Evaluate(shell: Shell, policy: LocalPolicy, resource: string, labels: seq<string>) returns (action: string)
    ensures action == Resolution(shell, policy.rules, resource, labels)
  {
    hide Applies, DefaultAction;
    var bestRank := 0;
    action := "allow";
    ghost var best: nat := 0;
    for n := 0 to |policy.rules|
      invariant
        var matching := Applicable(shell, policy.rules[..n], resource, labels);
        if matching == [] then bestRank == 0
        else IsFirstTop(matching, best) && action == matching[best].action && bestRank == Rank(action)
    {
      var rule := policy.rules[n];
      ghost var before := Applicable(shell, policy.rules[..n], resource, labels);
      assert policy.rules[..n + 1][..n] == policy.rules[..n];
      if Applies(shell, rule, resource, labels) {
        var rank := Rank(rule.action);
        if rank > bestRank {
          bestRank := rank;
          action := rule.action;
          best := |before|;
        }
      }
    }
    assert policy.rules[..|policy.rules|] == policy.rules;
    ghost var matching := Applicable(shell, policy.rules, resource, labels);
    if bestRank == 0 {
      action := DefaultAction(labels);
    } else {
      FirstTopUnique(matching, best, TopIndex(matching));
    }
  }

  // ----- labels

  /** Only which labels there are matters, neither their order nor how often each occurs. */
  lemma {:induction false} LabelsAsSet(shell: Shell, rules: seq<Rule>, resource: string, a: seq<string>, b: seq<string>)
    requires forall l :: l in a <==> l in b
    ensures Applicable(shell, rules, resource, a) == Applicable(shell, rules, resource, b)
    ensures Resolution(shell, rules, resource, a) == Resolution(shell, rules, resource, b)
  {
    hide PathMatches;
    if rules != [] { LabelsAsSet(shell, rules[..|rules| - 1], resource, a, b); }
  }

  // ----- which action it is

  /** A rule with this action is for all labels or one of those given, and its pattern matches. */
  predicate Says(shell: Shell, rules: seq<Rule>, resource: string, labels: seq<string>, action: string) {
    exists k :: && 0 <= k < |rules| && rules[k].action == action
                && (rules[k].classification == "*" || rules[k].classification in labels)
                && PathMatches(shell, rules[k].pattern, resource)
  }

  /** The k-th rule is the first that applies. */
  ghost predicate FirstApplies(shell: Shell, rules: seq<Rule>, resource: string, labels: seq<string>, k: nat) {
    && k < |rules| && Applies(shell, rules[k], resource, labels)
    && forall j :: 0 <= j < k ==> !Applies(shell, rules[j], resource, labels)
  }

  lemma {:induction false} FirstApplicable(shell: Shell, rules: seq<Rule>, resource: string, labels: seq<string>)
    returns (k: nat)
    requires Applicable(shell, rules, resource, labels) != []
    ensures FirstApplies(shell, rules, resource, labels, k)
    ensures rules[k] == Applicable(shell, rules, resource, labels)[0]
  {
    hide Applies;
    var n := |rules| - 1;
    if Applicable(shell, rules[..n], resource, labels) != [] {
      k := FirstApplicable(shell, rules[..n], resource, labels);
      assert forall j :: 0 <= j <= k ==> rules[..n][j] == rules[j];
    } else {
      k := n;
      forall j | 0 <= j < n ensures !Applies(shell, rules[j], resource, labels) {
        ApplicableMembers(shell, rules[..n], resource, labels, rules[j]);
        assert rules[..n][j] == rules[j];
      }
    }
  }

  lemma SaysIff(shell: Shell, rules: seq<Rule>, resource: string, labels: seq<string>, action: string)
    ensures Says(shell, rules, resource, labels, action) <==>
              exists r :: r in Applicable(shell, rules, resource, labels) && r.action == action
  {
    hide PathMatches;
    if k :| && 0 <= k < |rules| && rules[k].action == action
            && (rules[k].classification == "*" || rules[k].classification in labels)
            && PathMatches(shell, rules[k].pattern, resource)
    {
      ApplicableMembers(shell, rules, resource, labels, rules[k]);
    }
    if r :| r in Applicable(shell, rules, resource, labels) && r.action == action {
      ApplicableMembers(shell, rules, resource, labels, r);
      var k :| 0 <= k < |rules| && rules[k] == r;
    }
  }

  /** The default: secrets are blocked, personal data is redacted, anything else is allowed. */
  lemma DefaultIs(labels: seq<string>)
    ensures
      DefaultAction(labels) ==
        if "SECRET" in labels || "PRIVATE_KEY" in labels || "AWS_ACCESS_KEY" in labels || "GENERIC_SECRET" in labels
        then "block"
        else if "SSN" in labels || "EMAIL" in labels || "US_PHONE" in labels
                || "EU_PERSONAL_ID" in labels || "PCI_CARD" in labels
        then "redact"
        else "allow"
  {
  }

  /**
    Of the actions that applicable rules say, "block" goes before "approval", that
    before "redact" and that before "log"; with none of them the first applicable rule
    decides, and without an applicable rule the default.
  */
  lemma StrictestWins(shell: Shell, rules: seq<Rule>, resource: string, labels: seq<string>)
    ensures
      var action := Resolution(shell, rules, resource, labels);
      if Says(shell, rules, resource, labels, "block") then action == "block"
      else if Says(shell, rules, resource, labels, "approval") then action == "approval"
      else if Says(shell, rules, resource, labels, "redact") then action == "redact"
      else if Says(shell, rules, resource, labels, "log") then action == "log"
      else
        || (exists k: nat :: FirstApplies(shell, rules, resource, labels, k) && action == rules[k].action)
        || (action == DefaultAction(labels)
            && forall k :: 0 <= k < |rules| ==> !Applies(shell, rules[k], resource, labels))
  {
    var matching := Applicable(shell, rules, resource, labels);
    SaysIff(shell, rules, resource, labels, "block");
    SaysIff(shell, rules, resource, labels, "approval");
    SaysIff(shell, rules, resource, labels, "redact");
    SaysIff(shell, rules, resource, labels, "log");
    hide Says, Applies, DefaultAction, Applicable;
    if matching == [] {
      forall k | 0 <= k < |rules| ensures !Applies(shell, rules[k], resource, labels) {
        ApplicableMembers(shell, rules, resource, labels, rules[k]);
      }
    } else {
      var i := TopIndex(matching);
      var k := FirstApplicable(shell, rules, resource, labels);
      assert matching[i] in matching && matching[0] in matching;
      TopRank(matching, i);
      assert Rank(matching[i].action) == 1 ==> i == 0;
    }
  }

  /** The top rule's action is one that some rule says, and none that any says is stricter. */
  lemma TopRank(rules: seq<Rule>, i: nat)
    requires IsFirstTop(rules, i)
    ensures forall r :: r in rules ==> Rank(r.action) <= Rank(rules[i].action)
    ensures rules[i] in rules && Rank(rules[i].action) >= 1
  {
    forall r | r in rules ensures Rank(r.action) <= Rank(rules[i].action) {
      var j :| 0 <= j < |rules| && rules[j] == r;
    }
  }

  // ----- order of rules

  /** A rule that applies and is as strict as any that does. */
  ghost predicate Top(shell: Shell, rules: multiset<Rule>, resource: string, labels: seq<string>, rule: Rule) {
    && rule in rules && Applies(shell, rule, resource, labels)
    && forall r :: r in rules && Applies(shell, r, resource, labels) ==> Rank(r.action) <= Rank(rule.action)
  }

  /** The strictest applicable rules agree on the action. */
  ghost predicate Unambiguous(shell: Shell, rules: multiset<Rule>, resource: string, labels: seq<string>) {
    forall p, q :: Top(shell, rules, resource, labels, p) && Top(shell, rules, resource, labels, q) ==>
      p.action == q.action
  }

  lemma {:induction false} ApplicableMembers(
      shell: Shell, rules: seq<Rule>, resource: string, labels: seq<string>, r: Rule)
    ensures r in Applicable(shell, rules, resource, labels) <==>
              r in multiset(rules) && Applies(shell, r, resource, labels)
  {
    hide Applies;
    if rules != [] {
      var init, last := rules[..|rules| - 1], rules[|rules| - 1];
      ApplicableMembers(shell, init, resource, labels, r);
      assert rules == init + [last];
    }
  }

  /** Whatever the order, the resolution is the action of a top rule, or the default when no rule applies. */
  lemma ResolvesToTop(shell: Shell, rules: seq<Rule>, resource: string, labels: seq<string>)
    ensures
      var action := Resolution(shell, rules, resource, labels);
      || (exists p :: Top(shell, multiset(rules), resource, labels, p) && action == p.action)
      || (action == DefaultAction(labels) && forall p :: !Top(shell, multiset(rules), resource, labels, p))
  {
    hide Applies, DefaultAction;
    var matching := Applicable(shell, rules, resource, labels);
    forall r ensures r in matching <==> r in multiset(rules) && Applies(shell, r, resource, labels) {
      ApplicableMembers(shell, rules, resource, labels, r);
    }
    if matching != [] {
      assert matching[TopIndex(matching)] in matching;
      assert Top(shell, multiset(rules), resource, labels, matching[TopIndex(matching)]);
    }
  }

  /** With known actions the ranks tell the actions apart, so the strictest rules always agree. */
  lemma KnownActionsUnambiguous(shell: Shell, rules: multiset<Rule>, resource: string, labels: seq<string>)
    requires forall r :: r in rules ==> r.action in KNOWN_ACTIONS
    ensures Unambiguous(shell, rules, resource, labels)
  {
    hide Applies;
  }

  /** If the strictest rules agree, any reordering resolves to the same action. */
  lemma OrderIrrelevant(shell: Shell, rules: seq<Rule>, permuted: seq<Rule>, resource: string, labels: seq<string>)
    requires multiset(rules) == multiset(permuted) && Unambiguous(shell, multiset(rules), resource, labels)
    ensures Resolution(shell, rules, resource, labels) == Resolution(shell, permuted, resource, labels)
  {
    hide Resolution, Top, DefaultAction;
    ResolvesToTop(shell, rules, resource, labels);
    ResolvesToTop(shell, permuted, resource, labels);
  }

  /** Moving a rule to the front. */
  function Promote(rules: seq<Rule>, i: nat): seq<Rule>
    requires i < |rules|
  {
    [rules[i]] + rules[..i] + rules[i + 1..]
  }

  lemma PromotePermutes(rules: seq<Rule>, i: nat)
    requires i < |rules|
    ensures multiset(Promote(rules, i)) == multiset(rules)
  {
    assert rules == rules[..i] + [rules[i]] + rules[i + 1..];
  }

  lemma {:induction false} ApplicableFront(
      shell: Shell, first: Rule, rest: seq<Rule>, resource: string, labels: seq<string>)
    requires Applies(shell, first, resource, labels)
    ensures Applicable(shell, [first] + rest, resource, labels) == [first] + Applicable(shell, rest, resource, labels)
  {
    hide Applies;
    if rest == [] {
      assert [first] + rest == [first];
      assert [first][..0] == [];
      assert Applicable(shell, [first][..0], resource, labels) == [];
    } else {
      var n := |rest| - 1;
      ApplicableFront(shell, first, rest[..n], resource, labels);
      assert ([first] + rest)[..n + 1] == [first] + rest[..n];
    }
  }

  /** A top rule that comes first is what the rules resolve to. */
  lemma TopFirstWins(shell: Shell, first: Rule, rest: seq<Rule>, resource: string, labels: seq<string>)
    requires Top(shell, multiset([first] + rest), resource, labels, first)
    ensures Resolution(shell, [first] + rest, resource, labels) == first.action
  {
    hide Applies;
    ApplicableFront(shell, first, rest, resource, labels);
    var matching := Applicable(shell, [first] + rest, resource, labels);
    forall j | 0 <= j < |matching| ensures Rank(matching[j].action) <= Rank(first.action) {
      ApplicableMembers(shell, [first] + rest, resource, labels, matching[j]);
    }
    assert IsFirstTop(matching, 0);
    FirstTopUnique(matching, TopIndex(matching), 0);
  }

  ghost predicate OrderInvariant(shell: Shell, rules: seq<Rule>, resource: string, labels: seq<string>) {
    forall permuted :: multiset(rules) == multiset(permuted) ==>
      Resolution(shell, permuted, resource, labels) == Resolution(shell, rules, resource, labels)
  }

  /** One of two strictest rules that disagree is not what the rules resolve to. */
  lemma DisagreeingTop(shell: Shell, rules: seq<Rule>, resource: string, labels: seq<string>) returns (i: nat)
    requires !Unambiguous(shell, multiset(rules), resource, labels)
    ensures i < |rules| && Top(shell, multiset(rules), resource, labels, rules[i])
    ensures rules[i].action != Resolution(shell, rules, resource, labels)
  {
    hide Applies, Resolution;
    var p, q :| Top(shell, multiset(rules), resource, labels, p) && Top(shell, multiset(rules), resource, labels, q)
                && p.action != q.action;
    var other := if p.action == Resolution(shell, rules, resource, labels) then q else p;
    assert other in multiset(rules);
    i :| 0 <= i < |rules| && rules[i] == other;
  }

  /** An ambiguous policy has a reordering that resolves differently. */
  lemma AmbiguityShows(shell: Shell, rules: seq<Rule>, resource: string, labels: seq<string>)
    returns (permuted: seq<Rule>)
    requires !Unambiguous(shell, multiset(rules), resource, labels)
    ensures multiset(rules) == multiset(permuted)
    ensures Resolution(shell, permuted, resource, labels) != Resolution(shell, rules, resource, labels)
  {
    hide Applies, Resolution, Unambiguous, Top;
    var i := DisagreeingTop(shell, rules, resource, labels);
    permuted := Promote(rules, i);
    PromotePermutes(rules, i);
    assert permuted == [rules[i]] + (rules[..i] + rules[i + 1..]);
    TopFirstWins(shell, rules[i], rules[..i] + rules[i + 1..], resource, labels);
  }

  /** The order of the rules is irrelevant exactly when the strictest applicable ones agree. */
  lemma OrderInvariantIff(shell: Shell, rules: seq<Rule>, resource: string, labels: seq<string>)
    ensures OrderInvariant(shell, rules, resource, labels) <==>
              Unambiguous(shell, multiset(rules), resource, labels)
  {
    hide Resolution, Unambiguous;
    if Unambiguous(shell, multiset(rules), resource, labels) {
      forall permuted | multiset(rules) == multiset(permuted)
        ensures Resolution(shell, permuted, resource, labels) == Resolution(shell, rules, resource, labels)
      {
        OrderIrrelevant(shell, rules, permuted, resource, labels);
      }
    } else {
      var permuted := AmbiguityShows(shell, rules, resource, labels);
    }
  }
}
