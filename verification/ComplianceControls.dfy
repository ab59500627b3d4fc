/** The controls of the seven compliance frameworks, as functions of what is known about a tenant. */
module ComplianceControls {

  datatype Signals = Signals(
    policies: set<string>,
    draftPolicies: nat,
    auditLogs: nat,
    piiEvents: nat,
    blockedRequests: nat,
    totalRequests: nat,
    mcpServers: nat,
    highRiskMcp: nat,
    llmProviders: nat,
    retentionDays: int,
    promptTemplates: nat,
    rulePacks: set<string>)

  datatype Status = NotMet | InProgress | Met

  const PII_EU := "PII Redaction — EU"
  const PII_US := "PII Redaction — US"
  const DLP := "DLP Classification"
  const JAILBREAK := "Jailbreak Prevention"
  const INJECTION := "Prompt Injection Guard"
  const TOOL_ALLOWLIST := "Tool Allowlist"
  const EXFILTRATION := "Data Exfiltration Block"

  function Eval(met: bool, progressing: bool): Status {
    if met then Met else if progressing then InProgress else NotMet
  }

  function Pack(s: Signals, pack: string): Status {
    Eval(pack in s.rulePacks, false)
  }

  predicate AnyPolicy(s: Signals) {
    s.policies != {}
  }

  predicate AnyPii(s: Signals) {
    PII_EU in s.policies || PII_US in s.policies
  }

  function Gdpr(s: Signals): seq<Status> {
    [ Eval(PII_EU in s.policies && PII_US in s.policies, AnyPii(s)),  // Art. 25
      Eval(s.auditLogs >= 10, s.auditLogs > 0),                       // Art. 30
      Eval(JAILBREAK in s.policies, AnyPolicy(s)),                    // Art. 32
      Eval(false, s.retentionDays > 0),                               // Art. 17
      Eval(false, s.blockedRequests > 0),                             // Art. 33
      Eval(DLP in s.policies, s.draftPolicies > 0),                   // Art. 35
      Eval(PII_EU in s.policies, false),                              // cross-border transfer
      Eval(s.auditLogs >= 10, s.auditLogs >= 5),                      // transparency
      Pack(s, "gdpr") ]
  }

  function Hipaa(s: Signals): seq<Status> {
    [ Met,                                                            // 164.308
      Eval(AnyPii(s), false),                                         // 164.312
      Eval(false, s.llmProviders > 0 || s.mcpServers > 0),            // 164.314
      Eval(s.auditLogs >= 10, s.auditLogs > 0),                       // audit controls
      Eval(AnyPii(s) && TOOL_ALLOWLIST in s.policies, AnyPii(s)),     // minimum necessary
      Eval(s.llmProviders > 0, true),                                 // transmission security
      Eval(s.piiEvents > 0, AnyPii(s)),                               // incident response
      Eval(s.retentionDays > 0, false),                               // retention
      Pack(s, "hipaa") ]
  }

  function Soc2(s: Signals): seq<Status> {
    [ Met,                                                            // CC6.1
      Eval(s.auditLogs >= 5, s.totalRequests > 0),                    // CC7.2
      Eval(AnyPolicy(s) && s.draftPolicies == 0, s.draftPolicies > 0),  // CC8.1
      Eval(EXFILTRATION in s.policies, AnyPolicy(s)),                 // C1.1
      Eval(AnyPii(s), AnyPolicy(s)),                                  // P1.1
      Eval(s.llmProviders >= 2, s.llmProviders > 0),                  // A1.2
      Eval(s.mcpServers > 0 && s.highRiskMcp == 0, s.mcpServers > 0), // CC9.2
      Eval(s.blockedRequests > 0, true),                              // CC7.3
      Pack(s, "soc2") ]
  }

  function Iso(s: Signals): seq<Status> {
    [ Met,                                                            // A.9.1
      Eval(s.auditLogs >= 10, s.auditLogs > 0),                       // A.12.4
      Eval(s.llmProviders > 0, false),                                // A.13.1
      Eval(s.promptTemplates > 0, AnyPolicy(s)),                      // A.14.1
      Eval(|s.policies| >= 4, AnyPolicy(s)),                          // A.18.1
      Eval(INJECTION in s.policies && JAILBREAK in s.policies,
           INJECTION in s.policies || JAILBREAK in s.policies),       // A.12.2
      Eval(TOOL_ALLOWLIST in s.policies, false),                      // A.13.2
      Eval(false, s.blockedRequests > 0),                             // A.16.1
      Pack(s, "owasp-llm-top10") ]
  }

  function Nist(s: Signals): seq<Status> {
    [ Eval(|s.policies| >= 4, AnyPolicy(s)),                          // GOVERN 1
      Eval(s.mcpServers > 0 && s.highRiskMcp == 0, s.mcpServers > 0), // GOVERN 2
      Eval(s.mcpServers > 0 || s.llmProviders > 0, false),            // MAP 1
      Eval(false, s.mcpServers > 0 || s.llmProviders > 0),            // MAP 2
      Eval(s.totalRequests > 0, false),                               // MEASURE 1
      Eval(s.blockedRequests > 0 || s.piiEvents > 0, s.totalRequests > 0),  // MEASURE 2
      Eval(s.blockedRequests > 0, AnyPolicy(s)),                      // MANAGE 1
      Eval(s.llmProviders > 0, true),                                 // MANAGE 2
      Pack(s, "owasp-llm-top10") ]
  }

  function MitreAtlas(s: Signals): seq<Status> {
    [Met, Met, Met, Met, Met, Met]
  }

  function OwaspGenAi(s: Signals): seq<Status> {
    [Met, Met, Met, Met, Met]
  }

  // ----- monotonicity

  predicate AtLeast(a: Status, b: Status) {
    a == Met || b == NotMet || a == b
  }

  predicate NoneLower(before: seq<Status>, after: seq<Status>) {
    |before| == |after| && forall i :: 0 <= i < |before| ==> AtLeast(after[i], before[i])
  }

  /** More of everything that helps, with the drafts and the high-risk servers as they are. */
  predicate Grows(a: Signals, b: Signals) {
    && a.policies <= b.policies && a.rulePacks <= b.rulePacks
    && a.draftPolicies == b.draftPolicies && a.highRiskMcp == b.highRiskMcp
    && a.auditLogs <= b.auditLogs && a.piiEvents <= b.piiEvents && a.blockedRequests <= b.blockedRequests
    && a.totalRequests <= b.totalRequests && a.mcpServers <= b.mcpServers && a.llmProviders <= b.llmProviders
    && a.retentionDays <= b.retentionDays && a.promptTemplates <= b.promptTemplates
  }

  lemma SubsetSize(a: set<string>, b: set<string>)
    requires a <= b
    ensures |a| <= |b|
  {
    assert b == a + (b - a);
  }

  lemma NineNoneLower(before: seq<Status>, after: seq<Status>)
    requires |before| == |after| == 9
    requires AtLeast(after[0], before[0]) && AtLeast(after[1], before[1]) && AtLeast(after[2], before[2])
    requires AtLeast(after[3], before[3]) && AtLeast(after[4], before[4]) && AtLeast(after[5], before[5])
    requires AtLeast(after[6], before[6]) && AtLeast(after[7], before[7]) && AtLeast(after[8], before[8])
    ensures NoneLower(before, after)
  {
  }

  lemma GdprMonotone(a: Signals, b: Signals)
    requires Grows(a, b)
    ensures NoneLower(Gdpr(a), Gdpr(b))
  {
    hide PII_EU, PII_US, DLP, JAILBREAK, INJECTION, TOOL_ALLOWLIST, EXFILTRATION;
    hide NoneLower;
    NineNoneLower(Gdpr(a), Gdpr(b));
  }

  lemma HipaaMonotone(a: Signals, b: Signals)
    requires Grows(a, b)
    ensures NoneLower(Hipaa(a), Hipaa(b))
  {
    hide PII_EU, PII_US, DLP, JAILBREAK, INJECTION, TOOL_ALLOWLIST, EXFILTRATION;
    hide NoneLower;
    NineNoneLower(Hipaa(a), Hipaa(b));
  }

  lemma Soc2Monotone(a: Signals, b: Signals)
    requires Grows(a, b)
    ensures NoneLower(Soc2(a), Soc2(b))
  {
    hide PII_EU, PII_US, DLP, JAILBREAK, INJECTION, TOOL_ALLOWLIST, EXFILTRATION;
    hide NoneLower;
    NineNoneLower(Soc2(a), Soc2(b));
  }

  lemma IsoMonotone(a: Signals, b: Signals)
    requires Grows(a, b)
    ensures NoneLower(Iso(a), Iso(b))
  {
    hide PII_EU, PII_US, DLP, JAILBREAK, INJECTION, TOOL_ALLOWLIST, EXFILTRATION;
    SubsetSize(a.policies, b.policies);
    hide NoneLower;
    NineNoneLower(Iso(a), Iso(b));
  }

  lemma NistMonotone(a: Signals, b: Signals)
    requires Grows(a, b)
    ensures NoneLower(Nist(a), Nist(b))
  {
    hide PII_EU, PII_US, DLP, JAILBREAK, INJECTION, TOOL_ALLOWLIST, EXFILTRATION;
    SubsetSize(a.policies, b.policies);
    hide NoneLower;
    NineNoneLower(Nist(a), Nist(b));
  }

  /** No control falls when signals grow. */
  lemma ControlsMonotone(a: Signals, b: Signals)
    requires Grows(a, b)
    ensures NoneLower(Gdpr(a), Gdpr(b)) && NoneLower(Hipaa(a), Hipaa(b)) && NoneLower(Soc2(a), Soc2(b))
    ensures NoneLower(Iso(a), Iso(b)) && NoneLower(Nist(a), Nist(b))
    ensures NoneLower(MitreAtlas(a), MitreAtlas(b)) && NoneLower(OwaspGenAi(a), OwaspGenAi(b))
  {
    GdprMonotone(a, b);
    HipaaMonotone(a, b);
    Soc2Monotone(a, b);
    IsoMonotone(a, b);
    NistMonotone(a, b);
    hide Gdpr, Hipaa, Soc2, Iso, Nist;
  }

  /** One control becomes `status`, the others stay. */
  predicate Becomes(before: seq<Status>, after: seq<Status>, k: nat, status: Status) {
    && |before| == |after| && k < |before| && after[k] == status
    && forall i :: 0 <= i < |before| && i != k ==> after[i] == before[i]
  }

  lemma NineBecome(before: seq<Status>, after: seq<Status>, k: nat)
    requires |before| == |after| == 9 && k < 9
    requires k == 0 || after[0] == before[0]
    requires k == 1 || after[1] == before[1]
    requires k == 2 || after[2] == before[2]
    requires k == 3 || after[3] == before[3]
    requires k == 4 || after[4] == before[4]
    requires k == 5 || after[5] == before[5]
    requires k == 6 || after[6] == before[6]
    requires k == 7 || after[7] == before[7]
    requires k == 8 || after[8] == before[8]
    ensures Becomes(before, after, k, after[k])
  {
  }

  lemma DraftsElsewhere(s: Signals, drafts: nat)
    ensures
      var after := s.(draftPolicies := drafts);
      Hipaa(after) == Hipaa(s) && Iso(after) == Iso(s) && Nist(after) == Nist(s)
  {
    hide PII_EU, PII_US, DLP, JAILBREAK, INJECTION, TOOL_ALLOWLIST, EXFILTRATION;
  }

  /**
    A first draft, other things being equal, changes two controls at most: SOC 2
    CC8.1 falls exactly when some policy is active and otherwise rises; GDPR Art. 35
    rises exactly when DLP Classification is not active.
  */
  lemma FirstDraft(s: Signals, drafts: nat)
    requires s.draftPolicies == 0 && drafts > 0
    ensures
      var after := s.(draftPolicies := drafts);
      && Soc2(s)[2] == (if AnyPolicy(s) then Met else NotMet)
      && Becomes(Soc2(s), Soc2(after), 2, InProgress)
      && Gdpr(s)[5] == (if DLP in s.policies then Met else NotMet)
      && Becomes(Gdpr(s), Gdpr(after), 5, if DLP in s.policies then Met else InProgress)
      && Hipaa(after) == Hipaa(s) && Iso(after) == Iso(s) && Nist(after) == Nist(s)
  {
    hide PII_EU, PII_US, DLP, JAILBREAK, INJECTION, TOOL_ALLOWLIST, EXFILTRATION;
    hide Becomes;
    DraftsElsewhere(s, drafts);
    hide Hipaa, Iso, Nist;
    var after := s.(draftPolicies := drafts);
    NineBecome(Soc2(s), Soc2(after), 2);
    NineBecome(Gdpr(s), Gdpr(after), 5);
  }

  lemma HighRiskElsewhere(s: Signals, highRisk: nat)
    ensures
      var after := s.(highRiskMcp := highRisk);
      Gdpr(after) == Gdpr(s) && Hipaa(after) == Hipaa(s) && Iso(after) == Iso(s)
  {
    hide PII_EU, PII_US, DLP, JAILBREAK, INJECTION, TOOL_ALLOWLIST, EXFILTRATION;
  }

  /**
    A first high-risk server lowers two controls, SOC 2 CC9.2 and NIST GOVERN 2,
    exactly when some server is registered.
  */
  lemma FirstHighRiskServer(s: Signals, highRisk: nat)
    requires s.highRiskMcp == 0 && highRisk > 0
    ensures
      var after := s.(highRiskMcp := highRisk);
      var lowered := if s.mcpServers > 0 then InProgress else NotMet;
      && Soc2(s)[6] == Nist(s)[1] == (if s.mcpServers > 0 then Met else NotMet)
      && Becomes(Soc2(s), Soc2(after), 6, lowered) && Becomes(Nist(s), Nist(after), 1, lowered)
      && Gdpr(after) == Gdpr(s) && Hipaa(after) == Hipaa(s) && Iso(after) == Iso(s)
  {
    hide PII_EU, PII_US, DLP, JAILBREAK, INJECTION, TOOL_ALLOWLIST, EXFILTRATION;
    hide Becomes;
    HighRiskElsewhere(s, highRisk);
    hide Gdpr, Hipaa, Iso;
    var after := s.(highRiskMcp := highRisk);
    NineBecome(Soc2(s), Soc2(after), 6);
    NineBecome(Nist(s), Nist(after), 1);
  }
}
