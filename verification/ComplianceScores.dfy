/** Scores and statuses of frameworks, and the headline score. */
module ComplianceScores {
  import opened Rounding
  import opened ComplianceControls

  datatype Standing = AtRisk | Partial | Compliant

  datatype Framework = Framework(
    name: string,
    score: real,
    status: Standing,
    passed: nat,
    inProgress: nat,
    controls: seq<Status>)

  function CountOf(controls: seq<Status>, status: Status): (n: nat)
    ensures n <= |controls|
  {
    if controls == [] then 0
    else CountOf(controls[..|controls| - 1], status) + if controls[|controls| - 1] == status then 1 else 0
  }

  function Score(passed: nat, inProgress: nat, total: nat): real {
    if total == 0 then 0.0 else Round1((passed as real + inProgress as real * 0.5) / total as real * 100.0)
  }

  function FrameworkStatus(score: real, passed: nat, total: nat): Standing {
    var ratio := if total == 0 then 0.0 else passed as real / total as real;
    if score >= 90.0 && ratio >= 0.95 then Compliant
    else if score >= 70.0 && ratio >= 0.6 then Partial
    else AtRisk
  }

  function Finalize(name: string, controls: seq<Status>): Framework {
    var passed, inProgress := CountOf(controls, Met), CountOf(controls, InProgress);
    var score := Score(passed, inProgress, |controls|);
    Framework(name, score, FrameworkStatus(score, passed, |controls|), passed, inProgress, controls)
  }

  function Frameworks(s: Signals): seq<Framework> {
    [ Finalize("MITRE ATLAS", MitreAtlas(s)),
      Finalize("OWASP GenAI Top 10", OwaspGenAi(s)),
      Finalize("GDPR", Gdpr(s)),
      Finalize("HIPAA", Hipaa(s)),
      Finalize("SOC 2 Type II", Soc2(s)),
      Finalize("ISO 27001", Iso(s)),
      Finalize("NIST AI RMF", Nist(s)) ]
  }

  function SumOfScores(frameworks: seq<Framework>): real {
    if frameworks == [] then 0.0
    else SumOfScores(frameworks[..|frameworks| - 1]) + frameworks[|frameworks| - 1].score
  }

  function OverallScore(frameworks: seq<Framework>): real {
    if frameworks == [] then 0.0 else Round1(SumOfScores(frameworks) / |frameworks| as real)
  }

  // ----- arithmetic

  lemma Quotient(a: real, b: real, c: real)
    requires b > 0.0
    ensures a / b >= c <==> a >= c * b
    ensures a / b > c <==> a > c * b
  {
    assert a == a / b * b;
    if a / b >= c { Product(a / b, c, b); } else { Product(c, a / b, b); }
  }

  lemma Product(x: real, y: real, b: real)
    requires b > 0.0 && x >= y
    ensures x * b >= y * b && (x > y ==> x * b > y * b)
  {
    assert (x - y) * b >= 0.0;
    if x > y { assert (x - y) * b > 0.0; }
  }

  /** Rounding reaches seventy exactly from 69.95 on: that tie goes to the even neighbour. */
  lemma Round1Reaches70(x: real)
    ensures Round1(x) >= 70.0 <==> x >= 69.95
  {
    var y := x * 10.0;
    assert Nearest(y) >= 700 <==> y >= 699.5 by {
      if y >= 699.5 {
        NearestMonotone(699.5, y);
        assert (699.5).Floor == 699;
      } else {
        assert y.Floor <= 699;
      }
    }
  }

  lemma Round1Monotone(a: real, b: real)
    requires a <= b
    ensures Round1(a) <= Round1(b)
  {
    NearestMonotone(a * 10.0, b * 10.0);
  }

  // ----- what a status means

  /**
    The status in whole numbers: compliant exactly when at least 19 in 20 controls
    are met, partial exactly when it is not that, three in five are met and the
    score before rounding reaches 69.95.
  */
  lemma StatusExactly(passed: nat, inProgress: nat, total: nat)
    requires total > 0 && passed + inProgress <= total
    ensures
      var status := FrameworkStatus(Score(passed, inProgress, total), passed, total);
      && (status == Compliant <==> 20 * passed >= 19 * total)
      && (status == Partial <==>
            20 * passed < 19 * total && 5 * passed >= 3 * total && 1000 * (2 * passed + inProgress) >= 1399 * total)
  {
    var n := total as real;
    var points := passed as real + inProgress as real * 0.5;
    hide Round1;
    Quotient(passed as real, n, 0.95);
    Quotient(passed as real, n, 0.6);
    Quotient(points, n, 0.6995);
    Quotient(points, n, 0.95);
    Round1Reaches70(points / n * 100.0);
  }

  /** Frameworks of up to nineteen controls are compliant exactly when every control is met. */
  lemma CompliantMeansAllMet(name: string, controls: seq<Status>)
    requires 0 < |controls| < 20
    ensures Finalize(name, controls).status == Compliant <==> forall i :: 0 <= i < |controls| ==> controls[i] == Met
  {
    CountsDisjoint(controls);
    AllMet(controls);
    StatusExactly(CountOf(controls, Met), CountOf(controls, InProgress), |controls|);
  }

  /** One control may be missing exactly from twenty controls on. */
  lemma OneMissing(name: string, controls: seq<Status>)
    requires CountOf(controls, Met) == |controls| - 1
    ensures Finalize(name, controls).status == Compliant <==> |controls| >= 20
  {
    CountsDisjoint(controls);
    StatusExactly(CountOf(controls, Met), CountOf(controls, InProgress), |controls|);
  }

  lemma {:induction false} CountsDisjoint(controls: seq<Status>)
    ensures CountOf(controls, Met) + CountOf(controls, InProgress) <= |controls|
  {
    if controls != [] {
      CountsDisjoint(controls[..|controls| - 1]);
    }
  }

  lemma {:induction false} AllMet(controls: seq<Status>)
    ensures CountOf(controls, Met) == |controls| <==> forall i :: 0 <= i < |controls| ==> controls[i] == Met
  {
    if controls != [] {
      var n := |controls| - 1;
      AllMet(controls[..n]);
      assert forall i :: 0 <= i < n ==> controls[..n][i] == controls[i];
    }
  }

  // ----- monotonicity

  lemma {:induction false} CountsMonotone(before: seq<Status>, after: seq<Status>)
    requires NoneLower(before, after)
    ensures CountOf(before, Met) <= CountOf(after, Met)
    ensures 2 * CountOf(before, Met) + CountOf(before, InProgress) <=
              2 * CountOf(after, Met) + CountOf(after, InProgress)
  {
    if before != [] {
      var n := |before| - 1;
      assert NoneLower(before[..n], after[..n]);
      CountsMonotone(before[..n], after[..n]);
    }
  }

  predicate Rank(a: Standing, b: Standing) {
    a == AtRisk || b == Compliant || a == b
  }

  predicate NotWorse(before: Framework, after: Framework) {
    before.score <= after.score && Rank(before.status, after.status)
  }

  lemma ScoreMonotone(passed: nat, inProgress: nat, passedThen: nat, inProgressThen: nat, total: nat)
    requires 2 * passed + inProgress <= 2 * passedThen + inProgressThen
    ensures Score(passed, inProgress, total) <= Score(passedThen, inProgressThen, total)
  {
    hide Round1;
    if total > 0 {
      var n := total as real;
      var a, b := passed as real + inProgress as real * 0.5, passedThen as real + inProgressThen as real * 0.5;
      QuotientMonotone(a, b, n);
      Round1Monotone(a / n * 100.0, b / n * 100.0);
    }
  }

  lemma StandingMonotone(score: real, passed: nat, scoreThen: real, passedThen: nat, total: nat)
    requires score <= scoreThen && passed <= passedThen
    ensures Rank(FrameworkStatus(score, passed, total), FrameworkStatus(scoreThen, passedThen, total))
  {
    if total > 0 {
      QuotientMonotone(passed as real, passedThen as real, total as real);
    }
  }

  lemma FrameworkMonotone(name: string, before: seq<Status>, after: seq<Status>)
    requires NoneLower(before, after)
    ensures NotWorse(Finalize(name, before), Finalize(name, after))
  {
    CountsMonotone(before, after);
    hide CountOf, Score, FrameworkStatus, Rank;
    var p, q := CountOf(before, Met), CountOf(after, Met);
    var i, j := CountOf(before, InProgress), CountOf(after, InProgress);
    ScoreMonotone(p, i, q, j, |before|);
    StandingMonotone(Score(p, i, |before|), p, Score(q, j, |after|), q, |before|);
  }

  lemma QuotientMonotone(a: real, b: real, n: real)
    requires a <= b && n > 0.0
    ensures a / n <= b / n
  {
    Quotient(b, n, a / n);
  }

  lemma {:induction false} SumsMonotone(before: seq<Framework>, after: seq<Framework>)
    requires |before| == |after| && forall i :: 0 <= i < |before| ==> NotWorse(before[i], after[i])
    ensures SumOfScores(before) <= SumOfScores(after)
  {
    if before != [] {
      var n := |before| - 1;
      SumsMonotone(before[..n], after[..n]);
      assert NotWorse(before[n], after[n]);
    }
  }

  ghost predicate NoneWorse(before: seq<Framework>, after: seq<Framework>) {
    |before| == |after| && forall i :: 0 <= i < |before| ==> NotWorse(before[i], after[i])
  }

  lemma OverallMonotone(before: seq<Framework>, after: seq<Framework>)
    requires NoneWorse(before, after)
    ensures OverallScore(before) <= OverallScore(after)
  {
    if before != [] {
      SumsMonotone(before, after);
      var n := |before| as real;
      QuotientMonotone(SumOfScores(before), SumOfScores(after), n);
      Round1Monotone(SumOfScores(before) / n, SumOfScores(after) / n);
    }
  }

  /** The frameworks of one tenant against those of another, control by control. */
  ghost predicate ControlsNotLower(a: Signals, b: Signals) {
    && NoneLower(Gdpr(a), Gdpr(b)) && NoneLower(Hipaa(a), Hipaa(b)) && NoneLower(Soc2(a), Soc2(b))
    && NoneLower(Iso(a), Iso(b)) && NoneLower(Nist(a), Nist(b))
  }

  lemma FrameworksMonotone(a: Signals, b: Signals)
    requires ControlsNotLower(a, b)
    ensures NoneWorse(Frameworks(a), Frameworks(b))
  {
    hide Gdpr, Hipaa, Soc2, Iso, Nist, NoneLower, Finalize, NotWorse;
    FrameworkMonotone("GDPR", Gdpr(a), Gdpr(b));
    FrameworkMonotone("HIPAA", Hipaa(a), Hipaa(b));
    FrameworkMonotone("SOC 2 Type II", Soc2(a), Soc2(b));
    FrameworkMonotone("ISO 27001", Iso(a), Iso(b));
    FrameworkMonotone("NIST AI RMF", Nist(a), Nist(b));
    SameNotWorse(Frameworks(a)[0]);
    SameNotWorse(Frameworks(a)[1]);
  }

  lemma SameNotWorse(f: Framework)
    ensures NotWorse(f, f)
  {
  }

  /** Growing signals never lower a framework's score or status, nor the headline score. */
  lemma ComplianceMonotone(a: Signals, b: Signals)
    requires Grows(a, b)
    ensures NoneWorse(Frameworks(a), Frameworks(b))
    ensures OverallScore(Frameworks(a)) <= OverallScore(Frameworks(b))
  {
    ControlsMonotone(a, b);
    assert ControlsNotLower(a, b);
    hide *;
    FrameworksMonotone(a, b);
    OverallMonotone(Frameworks(a), Frameworks(b));
  }
}
