/** How far the scores can go: what no tenant reaches, and what every tenant has. */
module ComplianceRange {
  import opened Rounding
  import opened ComplianceControls
  import opened ComplianceScores

  const ALL_POLICIES: set<string> := {PII_EU, PII_US, DLP, JAILBREAK, INJECTION, TOOL_ALLOWLIST, EXFILTRATION}
  const ALL_PACKS: set<string> := {"gdpr", "hipaa", "soc2", "owasp-llm-top10"}

  /** A tenant that does all that can be done. */
  const FULL := Signals(ALL_POLICIES, 0, 10, 1, 1, 1, 1, 0, 2, 1, 1, ALL_PACKS)

  /** A tenant that does nothing at all. */
  const EMPTY := Signals({}, 0, 0, 0, 0, 0, 0, 0, 0, 0, 0, {})

  lemma FourPolicies()
    ensures |ALL_POLICIES| >= 4
  {
    assert PII_EU[0] == 'P' && DLP[0] == 'D' && JAILBREAK[0] == 'J' && TOOL_ALLOWLIST[0] == 'T';
    var four := {PII_EU, DLP, JAILBREAK, TOOL_ALLOWLIST};
    assert |four| == 4;
    SubsetSize(four, ALL_POLICIES);
  }

  // ----- counting nine controls

  function One(status: Status, x: Status): nat {
    if status == x then 1 else 0
  }

  lemma CountPrefix(c: seq<Status>, n: nat, x: Status)
    requires n < |c|
    ensures CountOf(c[..n + 1], x) == CountOf(c[..n], x) + One(c[n], x)
  {
    assert c[..n + 1][..n] == c[..n];
  }

  lemma CountThree(c: seq<Status>, n: nat, x: Status)
    requires n + 3 <= |c|
    ensures CountOf(c[..n + 3], x) == CountOf(c[..n], x) + One(c[n], x) + One(c[n + 1], x) + One(c[n + 2], x)
  {
    hide CountOf, One;
    CountPrefix(c, n, x);
    CountPrefix(c, n + 1, x);
    CountPrefix(c, n + 2, x);
  }

  lemma CountWhole(c: seq<Status>, x: Status)
    ensures CountOf(c[..|c|], x) == CountOf(c, x) && CountOf(c[..0], x) == 0
  {
    assert c[..|c|] == c && c[..0] == [];
  }

  lemma CountNine(c: seq<Status>, x: Status)
    requires |c| == 9
    ensures CountOf(c, x) == One(c[0], x) + One(c[1], x) + One(c[2], x) + One(c[3], x) + One(c[4], x)
                             + One(c[5], x) + One(c[6], x) + One(c[7], x) + One(c[8], x)
  {
    CountWhole(c, x);
    hide *;
    CountThree(c, 0, x);
    CountThree(c, 3, x);
    CountThree(c, 6, x);
  }

  /** Nothing is above the full tenant, nor below the empty one, whatever their drafts and high-risk servers. */
  lemma Between(s: Signals)
    ensures ControlsNotLower(EMPTY, s) && ControlsNotLower(s, FULL)
  {
    FourPolicies();
    hide PII_EU, PII_US, DLP, JAILBREAK, INJECTION, TOOL_ALLOWLIST, EXFILTRATION, NoneLower;
    NineNoneLower(Gdpr(EMPTY), Gdpr(s));
    NineNoneLower(Hipaa(EMPTY), Hipaa(s));
    NineNoneLower(Soc2(EMPTY), Soc2(s));
    NineNoneLower(Iso(EMPTY), Iso(s));
    NineNoneLower(Nist(EMPTY), Nist(s));
    NineNoneLower(Gdpr(s), Gdpr(FULL));
    NineNoneLower(Hipaa(s), Hipaa(FULL));
    NineNoneLower(Soc2(s), Soc2(FULL));
    NineNoneLower(Iso(s), Iso(FULL));
    NineNoneLower(Nist(s), Nist(FULL));
  }

  lemma Scores()
    ensures Score(6, 3, 9) == 83.3 && Score(7, 2, 9) == 88.9 && Score(8, 1, 9) == 94.4
    ensures Score(0, 0, 9) == 0.0 && Score(1, 1, 9) == 16.7 && Score(1, 0, 9) == 11.1 && Score(0, 1, 9) == 5.6
    ensures forall n: nat :: n > 0 ==> Score(n, 0, n) == 100.0
  {
    Rounds(750.0 / 9.0, 833);
    Rounds(800.0 / 9.0, 889);
    Rounds(850.0 / 9.0, 944);
    Rounds(150.0 / 9.0, 167);
    Rounds(100.0 / 9.0, 111);
    Rounds(50.0 / 9.0, 56);
    forall n: nat | n > 0 ensures Score(n, 0, n) == 100.0 {
      assert n as real / n as real == 1.0;
    }
  }

  lemma Rounds(x: real, tenths: int)
    requires tenths as real - 0.5 < x * 10.0 < tenths as real + 0.5
    ensures Round1(x) == tenths as real / 10.0
  {
    var y := x * 10.0;
    assert y.Floor == tenths || y.Floor == tenths - 1;
  }

  lemma EmptyCounts()
    ensures CountOf(Gdpr(EMPTY), Met) == 0 && CountOf(Gdpr(EMPTY), InProgress) == 0
    ensures CountOf(Hipaa(EMPTY), Met) == 1 && CountOf(Hipaa(EMPTY), InProgress) == 1
    ensures CountOf(Soc2(EMPTY), Met) == 1 && CountOf(Soc2(EMPTY), InProgress) == 1
    ensures CountOf(Iso(EMPTY), Met) == 1 && CountOf(Iso(EMPTY), InProgress) == 0
    ensures CountOf(Nist(EMPTY), Met) == 0 && CountOf(Nist(EMPTY), InProgress) == 1
  {
    hide CountOf, PII_EU, PII_US, DLP, JAILBREAK, INJECTION, TOOL_ALLOWLIST, EXFILTRATION;
    CountNine(Gdpr(EMPTY), Met);
    CountNine(Gdpr(EMPTY), InProgress);
    CountNine(Hipaa(EMPTY), Met);
    CountNine(Hipaa(EMPTY), InProgress);
    CountNine(Soc2(EMPTY), Met);
    CountNine(Soc2(EMPTY), InProgress);
    CountNine(Iso(EMPTY), Met);
    CountNine(Iso(EMPTY), InProgress);
    CountNine(Nist(EMPTY), Met);
    CountNine(Nist(EMPTY), InProgress);
  }

  lemma {:induction false} AllMetCounts(controls: seq<Status>)
    requires forall i :: 0 <= i < |controls| ==> controls[i] == Met
    ensures CountOf(controls, Met) == |controls| && CountOf(controls, InProgress) == 0
  {
    AllMet(controls);
    CountsDisjoint(controls);
  }

  lemma SumPrefix(f: seq<Framework>, n: nat)
    requires n < |f|
    ensures SumOfScores(f[..n + 1]) == SumOfScores(f[..n]) + f[n].score
  {
    assert f[..n + 1][..n] == f[..n];
  }

  lemma SumOfSeven(f: seq<Framework>)
    requires |f| == 7
    ensures SumOfScores(f) == f[0].score + f[1].score + f[2].score + f[3].score + f[4].score + f[5].score + f[6].score
  {
    assert f[..7] == f && f[..0] == [];
    assert SumOfScores([]) == 0.0;
    hide SumOfScores;
    SumPrefix(f, 0);
    SumPrefix(f, 1);
    SumPrefix(f, 2);
    SumPrefix(f, 3);
    SumPrefix(f, 4);
    SumPrefix(f, 5);
    SumPrefix(f, 6);
  }

  lemma FixedScores(s: Signals)
    ensures Frameworks(s)[0].score == 100.0 && Frameworks(s)[1].score == 100.0
  {
    hide Gdpr, Hipaa, Soc2, Iso, Nist, Score, CountOf, FrameworkStatus;
    AllMetCounts(MitreAtlas(s));
    AllMetCounts(OwaspGenAi(s));
    Scores();
  }

  lemma NineControls(s: Signals)
    ensures |Gdpr(s)| == |Hipaa(s)| == |Soc2(s)| == |Iso(s)| == |Nist(s)| == 9
  {
  }

  lemma ScoreOf(name: string, controls: seq<Status>, passed: nat, inProgress: nat)
    requires CountOf(controls, Met) == passed && CountOf(controls, InProgress) == inProgress
    ensures Finalize(name, controls).score == Score(passed, inProgress, |controls|)
  {
  }

  lemma OverallOfSeven(f: seq<Framework>, sum: real)
    requires |f| == 7 && f[0].score == f[1].score == 100.0
    requires f[2].score + f[3].score + f[4].score + f[5].score + f[6].score == sum
    ensures OverallScore(f) == Round1((200.0 + sum) / 7.0)
  {
    SumOfSeven(f);
    assert |f| as real == 7.0;
  }

  lemma EmptyOverall()
    ensures OverallScore(Frameworks(EMPTY)) == 35.7
  {
    hide Gdpr, Hipaa, Soc2, Iso, Nist, MitreAtlas, OwaspGenAi, CountOf, Score, Finalize, SumOfScores, OverallScore,
         Round1, EMPTY;
    EmptyCounts();
    NineControls(EMPTY);
    Scores();
    ScoreOf("GDPR", Gdpr(EMPTY), 0, 0);
    ScoreOf("HIPAA", Hipaa(EMPTY), 1, 1);
    ScoreOf("SOC 2 Type II", Soc2(EMPTY), 1, 1);
    ScoreOf("ISO 27001", Iso(EMPTY), 1, 0);
    ScoreOf("NIST AI RMF", Nist(EMPTY), 0, 1);
    FixedScores(EMPTY);
    OverallOfSeven(Frameworks(EMPTY), 50.1);
    Rounds(250.1 / 7.0, 357);
  }

  /** The headline score stays between 35.7, which an empty tenant has, and 96.0, which no effort exceeds. */
  lemma OverallRange(s: Signals)
    ensures 35.7 <= OverallScore(Frameworks(s)) <= 96.0
    ensures OverallScore(Frameworks(EMPTY)) == 35.7 && OverallScore(Frameworks(FULL)) == 96.0
  {
    hide *;
    Between(s);
    FrameworksMonotone(EMPTY, s);
    FrameworksMonotone(s, FULL);
    OverallMonotone(Frameworks(EMPTY), Frameworks(s));
    OverallMonotone(Frameworks(s), Frameworks(FULL));
    EmptyOverall();
    FullAtBest();
    OverallBest(FULL);
  }

  /**
    Whatever a tenant does, GDPR, HIPAA, ISO 27001 and NIST AI RMF are never
    compliant, each having a control that no signal meets; the two threat
    catalogues always are.
  */
  lemma NeverCompliant(s: Signals)
    ensures Finalize("GDPR", Gdpr(s)).status != Compliant && Finalize("HIPAA", Hipaa(s)).status != Compliant
    ensures Finalize("ISO 27001", Iso(s)).status != Compliant && Finalize("NIST AI RMF", Nist(s)).status != Compliant
    ensures Frameworks(s)[0].status == Compliant && Frameworks(s)[1].status == Compliant
  {
    hide Finalize, PII_EU, PII_US, DLP, JAILBREAK, INJECTION, TOOL_ALLOWLIST, EXFILTRATION;
    SomeUnmet("GDPR", Gdpr(s), 3);
    SomeUnmet("HIPAA", Hipaa(s), 2);
    SomeUnmet("ISO 27001", Iso(s), 7);
    SomeUnmet("NIST AI RMF", Nist(s), 3);
    hide Gdpr, Hipaa, Soc2, Iso, Nist;
    CompliantMeansAllMet("MITRE ATLAS", MitreAtlas(s));
    CompliantMeansAllMet("OWASP GenAI Top 10", OwaspGenAi(s));
  }

  lemma SomeUnmet(name: string, controls: seq<Status>, k: nat)
    requires k < |controls| < 20 && controls[k] != Met
    ensures Finalize(name, controls).status != Compliant
  {
    hide Finalize;
    CompliantMeansAllMet(name, controls);
  }

  /** SOC 2 can be: exactly with these signals, and so never while a draft waits. */
  lemma Soc2Compliant(s: Signals)
    ensures
      Finalize("SOC 2 Type II", Soc2(s)).status == Compliant <==>
        && s.auditLogs >= 5 && s.draftPolicies == 0
        && EXFILTRATION in s.policies && (PII_EU in s.policies || PII_US in s.policies)
        && s.llmProviders >= 2 && s.mcpServers > 0 && s.highRiskMcp == 0 && s.blockedRequests > 0
        && "soc2" in s.rulePacks
  {
    hide Finalize, PII_EU, PII_US, DLP, JAILBREAK, INJECTION, TOOL_ALLOWLIST, EXFILTRATION;
    CompliantMeansAllMet("SOC 2 Type II", Soc2(s));
    AllOfNine(Soc2(s));
  }

  lemma AllOfNine(c: seq<Status>)
    requires |c| == 9
    ensures
      (forall i :: 0 <= i < 9 ==> c[i] == Met) <==>
        && c[0] == c[1] == c[2] == Met && c[3] == c[4] == c[5] == Met && c[6] == c[7] == c[8] == Met
  {
  }

  // ----- the most that can be met, and exactly with which signals

  predicate GdprBest(s: Signals) {
    && PII_EU in s.policies && PII_US in s.policies && JAILBREAK in s.policies && DLP in s.policies
    && s.auditLogs >= 10 && "gdpr" in s.rulePacks
  }

  lemma GdprAtBest(s: Signals)
    ensures CountOf(Gdpr(s), Met) <= 7 && (CountOf(Gdpr(s), Met) == 7 <==> GdprBest(s))
  {
    hide CountOf, PII_EU, PII_US, DLP, JAILBREAK, INJECTION, TOOL_ALLOWLIST, EXFILTRATION;
    CountNine(Gdpr(s), Met);
  }

  predicate HipaaBest(s: Signals) {
    && TOOL_ALLOWLIST in s.policies && (PII_EU in s.policies || PII_US in s.policies)
    && s.auditLogs >= 10 && s.llmProviders > 0 && s.piiEvents > 0 && s.retentionDays > 0 && "hipaa" in s.rulePacks
  }

  lemma HipaaAtBest(s: Signals)
    ensures CountOf(Hipaa(s), Met) <= 8 && (CountOf(Hipaa(s), Met) == 8 <==> HipaaBest(s))
  {
    hide CountOf, PII_EU, PII_US, DLP, JAILBREAK, INJECTION, TOOL_ALLOWLIST, EXFILTRATION;
    CountNine(Hipaa(s), Met);
  }

  predicate IsoBest(s: Signals) {
    && INJECTION in s.policies && JAILBREAK in s.policies && TOOL_ALLOWLIST in s.policies && |s.policies| >= 4
    && s.auditLogs >= 10 && s.llmProviders > 0 && s.promptTemplates > 0 && "owasp-llm-top10" in s.rulePacks
  }

  lemma IsoAtBest(s: Signals)
    ensures CountOf(Iso(s), Met) <= 8 && (CountOf(Iso(s), Met) == 8 <==> IsoBest(s))
  {
    hide CountOf, PII_EU, PII_US, DLP, JAILBREAK, INJECTION, TOOL_ALLOWLIST, EXFILTRATION;
    CountNine(Iso(s), Met);
  }

  predicate NistBest(s: Signals) {
    && |s.policies| >= 4 && s.mcpServers > 0 && s.highRiskMcp == 0 && s.llmProviders > 0
    && s.totalRequests > 0 && s.blockedRequests > 0 && "owasp-llm-top10" in s.rulePacks
  }

  lemma NistAtBest(s: Signals)
    ensures CountOf(Nist(s), Met) <= 8 && (CountOf(Nist(s), Met) == 8 <==> NistBest(s))
  {
    hide CountOf, PII_EU, PII_US, DLP, JAILBREAK, INJECTION, TOOL_ALLOWLIST, EXFILTRATION;
    CountNine(Nist(s), Met);
  }

  /** The score that a framework with a control out of reach can get at best, and exactly with which signals it does. */
  lemma BestPossible(s: Signals)
    ensures Finalize("GDPR", Gdpr(s)).passed <= 7 && Finalize("HIPAA", Hipaa(s)).passed <= 8
    ensures Finalize("ISO 27001", Iso(s)).passed <= 8 && Finalize("NIST AI RMF", Nist(s)).passed <= 8
    ensures Finalize("GDPR", Gdpr(s)).passed == 7 <==> GdprBest(s)
    ensures Finalize("HIPAA", Hipaa(s)).passed == 8 <==> HipaaBest(s)
    ensures Finalize("ISO 27001", Iso(s)).passed == 8 <==> IsoBest(s)
    ensures Finalize("NIST AI RMF", Nist(s)).passed == 8 <==> NistBest(s)
  {
    hide Gdpr, Hipaa, Iso, Nist, CountOf, GdprBest, HipaaBest, IsoBest, NistBest;
    GdprAtBest(s);
    HipaaAtBest(s);
    IsoAtBest(s);
    NistAtBest(s);
  }

  // ----- the best headline score

  /** Every control that can be met is. */
  predicate AtBest(s: Signals) {
    GdprBest(s) && HipaaBest(s) && IsoBest(s) && NistBest(s) && Finalize("SOC 2 Type II", Soc2(s)).status == Compliant
  }

  lemma FullAtBest()
    ensures AtBest(FULL)
  {
    FourPolicies();
    hide PII_EU, PII_US, DLP, JAILBREAK, INJECTION, TOOL_ALLOWLIST, EXFILTRATION;
    Soc2Compliant(FULL);
  }

  /** At best the controls that cannot be met are in progress. */
  lemma RestInProgress(s: Signals)
    requires AtBest(s)
    ensures CountOf(Gdpr(s), InProgress) == 2 && CountOf(Hipaa(s), InProgress) == 1
    ensures CountOf(Iso(s), InProgress) == 1 && CountOf(Nist(s), InProgress) == 1
  {
    hide CountOf, Finalize, PII_EU, PII_US, DLP, JAILBREAK, INJECTION, TOOL_ALLOWLIST, EXFILTRATION;
    CountNine(Gdpr(s), InProgress);
    CountNine(Hipaa(s), InProgress);
    CountNine(Iso(s), InProgress);
    CountNine(Nist(s), InProgress);
  }

  /** With at most `n` of nine controls met the score is at most that of `n` met and the others in progress. */
  lemma ScoreAtMost(name: string, controls: seq<Status>, n: nat)
    requires |controls| == 9 && CountOf(controls, Met) <= n <= 9
    ensures Finalize(name, controls).score <= Score(n, 9 - n, 9)
  {
    hide Score;
    CountsDisjoint(controls);
    ScoreMonotone(CountOf(controls, Met), CountOf(controls, InProgress), n, 9 - n, 9);
  }

  /** The most a framework with at most `n` of nine controls met scores, and the most when one more is missing. */
  lemma ScoreSteps(name: string, controls: seq<Status>, n: nat)
    requires |controls| == 9 && CountOf(controls, Met) <= n && 7 <= n <= 9
    ensures
      var score := Finalize(name, controls).score;
      && score <= (if n == 7 then 88.9 else if n == 8 then 94.4 else 100.0)
      && (CountOf(controls, Met) < n ==> score <= (if n == 7 then 83.3 else if n == 8 then 88.9 else 94.4))
  {
    hide Finalize, Score, CountOf;
    Scores();
    ScoreAtMost(name, controls, n);
    if CountOf(controls, Met) < n { ScoreAtMost(name, controls, n - 1); }
  }

  lemma Soc2Count(s: Signals)
    ensures CountOf(Soc2(s), Met) <= 9
    ensures CountOf(Soc2(s), Met) == 9 <==> Finalize("SOC 2 Type II", Soc2(s)).status == Compliant
  {
    hide Finalize;
    NineControls(s);
    hide Soc2, CountOf;
    AllMet(Soc2(s));
    CompliantMeansAllMet("SOC 2 Type II", Soc2(s));
  }

  /** The headline score is at its most, 96.0, exactly when every control that can be met is. */
  lemma OverallBest(s: Signals)
    ensures OverallScore(Frameworks(s)) == 96.0 <==> AtBest(s)
  {
    BestPossible(s);
    Soc2Count(s);
    NineControls(s);
    hide Gdpr, Hipaa, Soc2, Iso, Nist, MitreAtlas, OwaspGenAi, CountOf, Score, SumOfScores, OverallScore, Round1;
    hide GdprBest, HipaaBest, IsoBest, NistBest, FrameworkStatus;
    ScoreSteps("GDPR", Gdpr(s), 7);
    ScoreSteps("HIPAA", Hipaa(s), 8);
    ScoreSteps("SOC 2 Type II", Soc2(s), 9);
    ScoreSteps("ISO 27001", Iso(s), 8);
    ScoreSteps("NIST AI RMF", Nist(s), 8);
    FixedScores(s);
    var f := Frameworks(s);
    var sum := f[2].score + f[3].score + f[4].score + f[5].score + f[6].score;
    OverallOfSeven(f, sum);
    if AtBest(s) {
      RestInProgress(s);
      CountsDisjoint(Soc2(s));
      Scores();
      assert sum == 472.1;
      Rounds(672.1 / 7.0, 960);
    } else {
      assert sum <= 466.6;
      Round1Monotone((200.0 + sum) / 7.0, 666.6 / 7.0);
      Rounds(666.6 / 7.0, 952);
    }
  }
}
