/** What the default policy decides of a path, told by the path's components. */
module DefaultPolicy {
  import opened Text
  import opened Paths
  import opened PathMatching
  import opened Policy
  import opened PolicyCache

  predicate EndsWith(s: string, lit: string) {
    |lit| <= |s| && s[|s| - |lit|..] == lit
  }

  /** A pattern that normalising leaves alone and that names no directory. */
  predicate PlainPattern(pat: string) {
    && pat != [] && pat[0] != '~' && !SlashEnds(pat) && '\\' !in pat
    && (|pat| < 3 || pat[|pat| - 3..] != "/**")
  }

  lemma PlainNormal(shell: Shell, pat: string)
    requires pat != [] && pat[0] != '~' && !SlashEnds(pat) && '\\' !in pat
    ensures Normal(shell, pat) == pat
  {
    assert ForwardSlashes(pat) == pat;
  }

  /** The components of the resource, its last one last. */
  function Parts(shell: Shell, resource: string): (parts: seq<string>)
    ensures parts != []
  {
    Split(Normal(shell, resource))
  }

  function Last(parts: seq<string>): string
    requires parts != []
  {
    parts[|parts| - 1]
  }

  predicate SomeSuffix(shell: Shell, parts: seq<string>, pat: string) {
    exists i :: 0 <= i < |parts| && Glob(shell, Join(parts[i..]), pat)
  }

  /** A plain pattern matches a path exactly when it matches one of its component suffixes. */
  lemma MatchesSuffix(shell: Shell, pat: string, resource: string)
    requires PlainPattern(pat)
    ensures PathMatches(shell, pat, resource) <==> SomeSuffix(shell, Parts(shell, resource), pat)
  {
    hide Glob, Split, Join, Candidates, Normal;
    var res := Normal(shell, resource);
    PlainNormal(shell, pat);
    if c :| c in Candidates(res) && Glob(shell, c, pat) {
      CandidatesAreSuffixes(res, c);
    }
    if i :| 0 <= i < |Split(res)| && Glob(shell, Join(Split(res)[i..]), pat) {
      CandidatesAreSuffixes(res, Join(Split(res)[i..]));
    }
  }

  // ----- three kinds of patterns

  lemma {:induction false} GlobEnding(shell: Shell, s: string, lit: string)
    requires Literal(lit)
    ensures Glob(shell, s, "*" + lit) <==> EndsWith(s, lit)
  {
    assert ("*" + lit)[1..] == lit;
    GlobLiteral(shell, s, lit, "");
    assert lit + "" == lit;
    if s != [] {
      GlobEnding(shell, s[1..], lit);
      assert |lit| < |s| ==> s[1..][|s| - 1 - |lit|..] == s[|s| - |lit|..];
    }
  }

  lemma GlobBeginning(shell: Shell, s: string, lit: string)
    requires Literal(lit)
    ensures Glob(shell, s, lit + "*") <==> StartsWith(s, lit)
  {
    GlobLiteral(shell, s, lit, "*");
    if StartsWith(s, lit) { StarsMatchAll(shell, s[|lit|..]); }
  }

  lemma GlobWhole(shell: Shell, s: string, lit: string)
    requires Literal(lit)
    ensures Glob(shell, s, lit) <==> s == lit
  {
    GlobLiteral(shell, s, lit, "");
    assert lit + "" == lit;
  }

  /** The components of a path from the i-th on: joined, they begin with the i-th and end with the last. */
  lemma JoinedEnds(parts: seq<string>, i: nat, lit: string)
    requires i < |parts| && SlashFree(lit) && forall k :: 0 <= k < |parts| ==> SlashFree(parts[k])
    ensures StartsWith(Join(parts[i..]), lit) <==> StartsWith(parts[i], lit)
    ensures EndsWith(Join(parts[i..]), lit) <==> EndsWith(parts[|parts| - 1], lit)
    ensures Join(parts[i..]) == lit <==> i == |parts| - 1 && parts[i] == lit
  {
    var own := parts[i..];
    var n := |own| - 1;
    if n == 0 {
      assert own == [parts[i]];
      JoinOne(parts[i]);
    } else {
      assert own == [own[0]] + own[1..] && own == own[..n] + [own[n]];
      JoinOne(own[0]);
      JoinOne(own[n]);
      JoinConcat([own[0]], own[1..]);
      JoinConcat(own[..n], [own[n]]);
      hide Join;
      SlashAfter(own[0], Join(own[1..]), lit);
      SlashBefore(Join(own[..n]), own[n], lit);
    }
  }

  lemma SlashAfter(a: string, b: string, lit: string)
    requires SlashFree(lit)
    ensures StartsWith(a + "/" + b, lit) <==> StartsWith(a, lit)
    ensures a + "/" + b != lit
  {
    var s := a + "/" + b;
    assert s[|a|] == '/';
    if |lit| <= |a| {
      assert s[..|lit|] == a[..|lit|];
    } else {
      if |lit| <= |s| { assert s[..|lit|][|a|] == '/'; }
    }
  }

  lemma SlashBefore(a: string, b: string, lit: string)
    requires SlashFree(lit)
    ensures EndsWith(a + "/" + b, lit) <==> EndsWith(b, lit)
  {
    var s := a + "/" + b;
    assert s[|a|] == '/';
    if |lit| <= |b| {
      assert s[|s| - |lit|..] == b[|b| - |lit|..];
    } else if |lit| <= |s| {
      assert s[|s| - |lit|..][|lit| - |b| - 1] == '/';
    }
  }

  lemma PartsSlashFree(shell: Shell, resource: string)
    ensures forall k :: 0 <= k < |Parts(shell, resource)| ==> SlashFree(Parts(shell, resource)[k])
  {
    SplitSlashFree(Normal(shell, resource));
  }

  lemma MatchesWhole(shell: Shell, lit: string, resource: string)
    requires PlainPattern(lit) && Literal(lit) && SlashFree(lit)
    ensures PathMatches(shell, lit, resource) <==> Last(Parts(shell, resource)) == lit
  {
    hide Glob, Join, Parts, PathMatches;
    var parts := Parts(shell, resource);
    MatchesSuffix(shell, lit, resource);
    PartsSlashFree(shell, resource);
    forall i | 0 <= i < |parts|
      ensures Glob(shell, Join(parts[i..]), lit) <==> i == |parts| - 1 && parts[i] == lit
    {
      GlobWhole(shell, Join(parts[i..]), lit);
      JoinedEnds(parts, i, lit);
    }
  }

  lemma MatchesEnding(shell: Shell, pat: string, lit: string, resource: string)
    requires PlainPattern(pat) && pat == "*" + lit && Literal(lit) && SlashFree(lit)
    ensures PathMatches(shell, pat, resource) <==> EndsWith(Last(Parts(shell, resource)), lit)
  {
    hide Glob, Join, Parts, PathMatches, EndsWith;
    var parts := Parts(shell, resource);
    MatchesSuffix(shell, pat, resource);
    PartsSlashFree(shell, resource);
    forall i | 0 <= i < |parts| ensures Glob(shell, Join(parts[i..]), pat) <==> EndsWith(Last(parts), lit) {
      GlobEnding(shell, Join(parts[i..]), lit);
      JoinedEnds(parts, i, lit);
    }
    assert Glob(shell, Join(parts[0..]), pat) <==> EndsWith(Last(parts), lit);
  }

  /** One of the components begins so. */
  predicate SomeBegins(parts: seq<string>, lit: string) {
    exists i :: 0 <= i < |parts| && StartsWith(parts[i], lit)
  }

  lemma MatchesBeginning(shell: Shell, pat: string, lit: string, resource: string)
    requires PlainPattern(pat) && pat == lit + "*" && Literal(lit) && SlashFree(lit)
    ensures PathMatches(shell, pat, resource) <==> SomeBegins(Parts(shell, resource), lit)
  {
    hide Glob, Join, Parts, PathMatches, StartsWith;
    var parts := Parts(shell, resource);
    MatchesSuffix(shell, pat, resource);
    PartsSlashFree(shell, resource);
    forall i | 0 <= i < |parts| ensures Glob(shell, Join(parts[i..]), pat) <==> StartsWith(parts[i], lit) {
      GlobBeginning(shell, Join(parts[i..]), lit);
      JoinedEnds(parts, i, lit);
    }
    if i :| 0 <= i < |parts| && StartsWith(parts[i], lit) {
      assert Glob(shell, Join(parts[i..]), pat);
    }
  }

  lemma MatchesFolder(shell: Shell, name: string, resource: string)
    requires PlainPattern(name) && Literal(name) && SlashFree(name)
    ensures PathMatches(shell, name + "/**", resource) <==> name in Parts(shell, resource)
  {
    hide Join, Normal, PathMatches, Glob, Split;
    assert Directory(shell, name) == name by { PlainDirectory(shell, name); }
    DirectoryPattern(shell, name, resource);
    SplitOne(name);
    var parts := Parts(shell, resource);
    if name in parts {
      var i :| 0 <= i < |parts| && parts[i] == name;
      assert [name] <= parts[i..];
    }
    if OccursIn([name], parts) {
      var i :| 0 <= i < |parts| && [name] <= parts[i..];
      assert parts[i] == name;
    }
  }

  lemma PlainDirectory(shell: Shell, name: string)
    requires PlainPattern(name)
    ensures Directory(shell, name) == name
  {
    assert ForwardSlashes(name) == name;
  }

  // ----- the default rules

  /** A file of keys or settings: it is blocked wherever it lies. */
  predicate SecretFile(parts: seq<string>)
    requires parts != []
  {
    || Last(parts) == ".env" || EndsWith(Last(parts), ".pem") || EndsWith(Last(parts), ".key")
    || SomeBegins(parts, ".env.") || SomeBegins(parts, "credentials.")
  }

  /** Below a directory of the user's home, wherever that is. */
  ghost predicate BelowHome(shell: Shell, dir: string, parts: seq<string>) {
    OccursIn(Split(Directory(shell, dir)), parts)
  }

  /** The home directory is such that its key directories have names without wildcards. */
  predicate PlainHome(shell: Shell) {
    && Directory(shell, "~/.ssh") != [] && Literal(Directory(shell, "~/.ssh"))
    && Directory(shell, "~/.aws") != [] && Literal(Directory(shell, "~/.aws"))
  }

  lemma NameRules(shell: Shell, resource: string)
    ensures
      var parts := Parts(shell, resource);
      && (PathMatches(shell, ".env", resource) <==> Last(parts) == ".env")
      && (PathMatches(shell, ".env.*", resource) <==> SomeBegins(parts, ".env."))
      && (PathMatches(shell, "credentials.*", resource) <==> SomeBegins(parts, "credentials."))
  {
    hide PathMatches, SomeBegins, Parts;
    MatchesWhole(shell, ".env", resource);
    MatchesBeginning(shell, ".env.*", ".env.", resource);
    MatchesBeginning(shell, "credentials.*", "credentials.", resource);
  }

  lemma EndingRules(shell: Shell, resource: string)
    ensures
      var last := Last(Parts(shell, resource));
      && (PathMatches(shell, "*.pem", resource) <==> EndsWith(last, ".pem"))
      && (PathMatches(shell, "*.key", resource) <==> EndsWith(last, ".key"))
      && (PathMatches(shell, "*.sql", resource) <==> EndsWith(last, ".sql"))
  {
    hide PathMatches, EndsWith, Parts;
    MatchesEnding(shell, "*.pem", ".pem", resource);
    MatchesEnding(shell, "*.key", ".key", resource);
    MatchesEnding(shell, "*.sql", ".sql", resource);
  }

  lemma FolderRules(shell: Shell, resource: string)
    requires PlainHome(shell)
    ensures
      var parts := Parts(shell, resource);
      && (PathMatches(shell, "~/.ssh/**", resource) <==> BelowHome(shell, "~/.ssh", parts))
      && (PathMatches(shell, "~/.aws/**", resource) <==> BelowHome(shell, "~/.aws", parts))
      && (PathMatches(shell, "src/**", resource) <==> "src" in parts)
      && (PathMatches(shell, "tests/**", resource) <==> "tests" in parts)
  {
    hide PathMatches, Split, Directory, Normal, OccursIn;
    DirectoryPattern(shell, "~/.ssh", resource);
    DirectoryPattern(shell, "~/.aws", resource);
    MatchesFolder(shell, "src", resource);
    MatchesFolder(shell, "tests", resource);
    assert "~/.ssh" + "/**" == "~/.ssh/**" && "~/.aws" + "/**" == "~/.aws/**";
    assert "src" + "/**" == "src/**" && "tests" + "/**" == "tests/**";
  }

  /** The k-th of the default rules applies. */
  predicate Hit(shell: Shell, resource: string, labels: seq<string>, k: nat)
    requires k < 10
  {
    Applies(shell, DEFAULTS.rules[k], resource, labels)
  }

  predicate Blocked(shell: Shell, resource: string, labels: seq<string>) {
    exists k: nat :: k < 7 && Hit(shell, resource, labels, k)
  }

  lemma DefaultActions()
    ensures |DEFAULTS.rules| == 10
    ensures forall k :: 0 <= k < 7 ==> DEFAULTS.rules[k].action == "block" && DEFAULTS.rules[k].classification == "*"
    ensures DEFAULTS.rules[7].action == "redact"
    ensures DEFAULTS.rules[8].action == DEFAULTS.rules[9].action == "allow"
  {
  }

  /** The rules say "block" by their first seven, "redact" by the next, and "allow" by the others. */
  lemma DefaultSays(shell: Shell, resource: string, labels: seq<string>)
    ensures Says(shell, DEFAULTS.rules, resource, labels, "block") <==> Blocked(shell, resource, labels)
    ensures Says(shell, DEFAULTS.rules, resource, labels, "redact") <==> Hit(shell, resource, labels, 7)
    ensures !Says(shell, DEFAULTS.rules, resource, labels, "approval")
    ensures !Says(shell, DEFAULTS.rules, resource, labels, "log")
  {
    DefaultActions();
    hide DEFAULTS, PathMatches;
    if k: nat :| k < 7 && Hit(shell, resource, labels, k) {
      assert DEFAULTS.rules[k].action == "block";
    }
    assert Hit(shell, resource, labels, 7) ==> DEFAULTS.rules[7].action == "redact";
    var rules := DEFAULTS.rules;
    if k :| && 0 <= k < |rules| && rules[k].action == "block"
            && (rules[k].classification == "*" || rules[k].classification in labels)
            && PathMatches(shell, rules[k].pattern, resource)
    {
      assert Hit(shell, resource, labels, k);
    }
  }

  lemma BlockingRules(shell: Shell, resource: string, labels: seq<string>)
    ensures Hit(shell, resource, labels, 0) <==> PathMatches(shell, ".env", resource)
    ensures Hit(shell, resource, labels, 1) <==> PathMatches(shell, ".env.*", resource)
    ensures Hit(shell, resource, labels, 2) <==> PathMatches(shell, "*.pem", resource)
    ensures Hit(shell, resource, labels, 3) <==> PathMatches(shell, "*.key", resource)
    ensures Hit(shell, resource, labels, 4) <==> PathMatches(shell, "credentials.*", resource)
    ensures Hit(shell, resource, labels, 5) <==> PathMatches(shell, "~/.ssh/**", resource)
    ensures Hit(shell, resource, labels, 6) <==> PathMatches(shell, "~/.aws/**", resource)
  {
    hide PathMatches;
  }

  lemma BlockedIs(shell: Shell, resource: string, labels: seq<string>)
    requires PlainHome(shell)
    ensures
      var parts := Parts(shell, resource);
      Blocked(shell, resource, labels) <==>
        SecretFile(parts) || BelowHome(shell, "~/.ssh", parts) || BelowHome(shell, "~/.aws", parts)
  {
    NameRules(shell, resource);
    EndingRules(shell, resource);
    FolderRules(shell, resource);
    BlockingRules(shell, resource, labels);
    hide PathMatches, EndsWith, SomeBegins, Parts, BelowHome, PlainHome, Hit, DEFAULTS;
    if k: nat :| k < 7 && Hit(shell, resource, labels, k) {
      assert k == 0 || k == 1 || k == 2 || k == 3 || k == 4 || k == 5 || k == 6;
    }
  }

  lemma OtherRules(shell: Shell, resource: string, labels: seq<string>)
    requires PlainHome(shell)
    ensures
      var parts := Parts(shell, resource);
      && (Hit(shell, resource, labels, 7) <==> "PII" in labels && EndsWith(Last(parts), ".sql"))
      && (Hit(shell, resource, labels, 8) <==> "src" in parts)
      && (Hit(shell, resource, labels, 9) <==> "tests" in parts)
  {
    EndingRules(shell, resource);
    FolderRules(shell, resource);
    hide PathMatches, EndsWith, Parts, BelowHome;
  }

  /** The verdict of the default rules, from which of them apply. */
  lemma HitsDecide(shell: Shell, resource: string, labels: seq<string>)
    ensures
      Resolution(shell, DEFAULTS.rules, resource, labels) ==
        if Blocked(shell, resource, labels) then "block"
        else if Hit(shell, resource, labels, 7) then "redact"
        else if Hit(shell, resource, labels, 8) || Hit(shell, resource, labels, 9) then "allow"
        else DefaultAction(labels)
  {
    var rules := DEFAULTS.rules;
    StrictestWins(shell, rules, resource, labels);
    DefaultSays(shell, resource, labels);
    DefaultActions();
    hide PathMatches, DEFAULTS, Says, DefaultAction, Applies, Resolution;
    if k: nat :| FirstApplies(shell, rules, resource, labels, k)
                 && Resolution(shell, rules, resource, labels) == rules[k].action
    {
      assert Hit(shell, resource, labels, k);
    } else {
      assert forall k: nat :: k < 10 ==>
        (Hit(shell, resource, labels, k) <==> Applies(shell, rules[k], resource, labels));
    }
  }

  /**
    The default policy blocks files of keys and settings, whatever is found in them and
    wherever they lie, and everything in the key directories of the home; it redacts
    personal data in SQL files, allows what else lies in a directory of sources or
    tests, and leaves any other file to the defaults for what is found in it.
  */
  lemma DefaultsDecide(shell: Shell, resource: string, labels: seq<string>)
    requires PlainHome(shell)
    ensures
      var parts := Parts(shell, resource);
      Resolution(shell, DEFAULTS.rules, resource, labels) ==
        if SecretFile(parts) || BelowHome(shell, "~/.ssh", parts) || BelowHome(shell, "~/.aws", parts) then "block"
        else if "PII" in labels && EndsWith(Last(parts), ".sql") then "redact"
        else if "src" in parts || "tests" in parts then "allow"
        else DefaultAction(labels)
  {
    HitsDecide(shell, resource, labels);
    BlockedIs(shell, resource, labels);
    OtherRules(shell, resource, labels);
    hide *;
  }
}
