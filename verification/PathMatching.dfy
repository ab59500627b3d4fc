/** Matching of resource paths against policy patterns. */
module PathMatching {
  import opened Wrappers
  import opened Text
  import opened Paths

  /** What matching needs of its surroundings: home directories, and the meaning of a bracket expression. */
  datatype Shell = Shell(homes: string -> Option<string>, inClass: (string, char) -> bool)

  function StripRightSlashes(s: string): string {
    if s != [] && s[|s| - 1] == '/' then StripRightSlashes(s[..|s| - 1]) else s
  }

  function StripLeftSlashes(s: string): string {
    if s != [] && s[0] == '/' then StripLeftSlashes(s[1..]) else s
  }

  function StripSlashes(s: string): string {
    StripRightSlashes(StripLeftSlashes(s))
  }

  function ForwardSlashes(s: string): string {
    seq(|s|, i requires 0 <= i < |s| => if s[i] == '\\' then '/' else s[i])
  }

  /** `os.path.expanduser` up to its last step. */
  function Expanded(shell: Shell, path: string): string {
    if path == [] || path[0] != '~' then path
    else
      var i := IndexFrom(path, '/', 1);
      match shell.homes(path[1..i])
      case None => path
      case Some(home) => StripRightSlashes(home) + path[i..]
  }

  /** An expansion that comes out empty stands for the root. */
  function ExpandHome(shell: Shell, path: string): string {
    var e := Expanded(shell, path);
    if e == [] && path != [] then "/" else e
  }

  function Normal(shell: Shell, path: string): string {
    StripSlashes(ForwardSlashes(ExpandHome(shell, path)))
  }

  // ----- what a path is normalised to

  predicate Slashes(s: string) {
    forall i :: 0 <= i < |s| ==> s[i] == '/'
  }

  /** The text with every backslash turned. */
  predicate Turned(s: string, t: string) {
    |t| == |s| && forall i :: 0 <= i < |s| ==> t[i] == if s[i] == '\\' then '/' else s[i]
  }

  /** Neither end is a slash. */
  predicate SlashEnds(s: string) {
    s != [] && (s[0] == '/' || s[|s| - 1] == '/')
  }

  lemma {:induction false} StripLeftIs(s: string) returns (a: string)
    ensures Slashes(a) && s == a + StripLeftSlashes(s)
    ensures StripLeftSlashes(s) == [] || StripLeftSlashes(s)[0] != '/'
  {
    a := "";
    if s != [] && s[0] == '/' {
      var rest := StripLeftIs(s[1..]);
      a := "/" + rest;
      assert s == "/" + s[1..];
    }
  }

  lemma {:induction false} StripRightIs(s: string) returns (b: string)
    ensures Slashes(b) && s == StripRightSlashes(s) + b
    ensures StripRightSlashes(s) == [] || StripRightSlashes(s)[|StripRightSlashes(s)| - 1] != '/'
  {
    b := "";
    if s != [] && s[|s| - 1] == '/' {
      var rest := StripRightIs(s[..|s| - 1]);
      b := rest + "/";
      assert s == s[..|s| - 1] + "/";
    }
  }

  /** The path once a leading tilde and user name have been replaced by that user's home. */
  predicate Expands(shell: Shell, path: string, user: string, rest: string, home: string, x: string) {
    if path == [] || path[0] != '~' then x == path
    else
      && path == "~" + user + rest && '/' !in user && (rest == "" || rest[0] == '/')
      && match shell.homes(user)
         case None => x == path
         case Some(full) =>
           && home <= full && Slashes(full[|home|..]) && (home == "" || home[|home| - 1] != '/')
           && x == if home + rest == "" then "/" else home + rest
  }

  lemma ExpandsTo(shell: Shell, path: string) returns (user: string, rest: string, home: string)
    ensures Expands(shell, path, user, rest, home, ExpandHome(shell, path))
  {
    user, rest, home := "", "", "";
    if path != [] && path[0] == '~' {
      var i := IndexFrom(path, '/', 1);
      user, rest := path[1..i], path[i..];
      assert path == "~" + user + rest;
      match shell.homes(user)
      case None =>
      case Some(full) =>
        home := StripRightSlashes(full);
        var b := StripRightIs(full);
        assert full[|home|..] == b;
    }
  }

  /**
    A normalised path is the path with its home spelled out and its backslashes turned,
    without the slashes at both ends.
  */
  lemma NormalIs(shell: Shell, path: string)
    returns (user: string, rest: string, home: string, x: string, a: string, b: string)
    ensures Expands(shell, path, user, rest, home, x)
    ensures Slashes(a) && Slashes(b) && Turned(x, a + Normal(shell, path) + b) && !SlashEnds(Normal(shell, path))
  {
    hide Expands, ExpandHome, StripLeftSlashes, StripRightSlashes;
    user, rest, home := ExpandsTo(shell, path);
    x := ExpandHome(shell, path);
    var turned := ForwardSlashes(x);
    a := StripLeftIs(turned);
    b := StripRightIs(StripLeftSlashes(turned));
    assert turned == a + Normal(shell, path) + b;
  }

  // ----- fnmatch

  /** The position of the bracket that closes the class opened at 0, or the length. */
  function ClassEnd(pat: string): (j: nat)
    requires pat != []
    ensures 1 <= j <= |pat|
  {
    var j := if 1 < |pat| && pat[1] == '!' then 2 else 1;
    var j' := if j < |pat| && pat[j] == ']' then j + 1 else j;
    IndexFrom(pat, ']', j')
  }

  /** Whether all of `s` matches the pattern; `*` matches any characters, slashes included. */
  predicate Glob(shell: Shell, s: string, pat: string)
    decreases |pat| + |s|
  {
    if pat == [] then s == []
    else if pat[0] == '*' then Glob(shell, s, pat[1..]) || (s != [] && Glob(shell, s[1..], pat))
    else if s == [] then false
    else if pat[0] == '?' then Glob(shell, s[1..], pat[1..])
    else if pat[0] == '[' && ClassEnd(pat) < |pat| then
      shell.inClass(pat[1..ClassEnd(pat)], s[0]) && Glob(shell, s[1..], pat[ClassEnd(pat) + 1..])
    else s[0] == pat[0] && Glob(shell, s[1..], pat[1..])
  }

  predicate Literal(s: string) {
    forall i :: 0 <= i < |s| ==> s[i] != '*' && s[i] != '?' && s[i] != '['
  }

  lemma {:induction false} GlobLiteral(shell: Shell, s: string, lit: string, rest: string)
    requires Literal(lit)
    ensures Glob(shell, s, lit + rest) <==> StartsWith(s, lit) && Glob(shell, s[|lit|..], rest)
  {
    if lit == [] {
      assert lit + rest == rest && s[0..] == s && s[..0] == [];
    } else {
      assert (lit + rest)[1..] == lit[1..] + rest;
      if s != [] {
        GlobLiteral(shell, s[1..], lit[1..], rest);
        if StartsWith(s, lit) {
          assert s[1..][..|lit| - 1] == lit[1..];
        }
        if StartsWith(s[1..], lit[1..]) && s[0] == lit[0] {
          assert s[..|lit|] == [s[0]] + s[1..][..|lit| - 1];
        }
        assert |lit| <= |s| ==> s[|lit|..] == s[1..][|lit| - 1..];
      }
    }
  }

  lemma {:induction false} StarsMatchAll(shell: Shell, s: string)
    ensures Glob(shell, s, "*") && Glob(shell, s, "**")
  {
    assert "*"[1..] == "" && "**"[1..] == "*";
    if s != [] { StarsMatchAll(shell, s[1..]); }
  }

  // ----- path_matches

  function Basename(s: string): string
    decreases |s|
  {
    var i := IndexOf(s, '/');
    if i == |s| then s else Basename(s[i + 1..])
  }

  /** The path itself, its last component, and every way to drop leading components. */
  function Candidates(res: string): seq<string> {
    var parts := Split(res);
    [res, Basename(res)] + seq(|parts| - 1, i requires 0 <= i < |parts| - 1 => Join(parts[i + 1..]))
  }

  predicate BelowDirectory(pat: string, candidate: string) {
    && |pat| >= 3 && pat[|pat| - 3..] == "/**"
    && var prefix := pat[..|pat| - 3];
       candidate == prefix || StartsWith(candidate, prefix + "/")
  }

  predicate PathMatches(shell: Shell, pattern: string, resource: string) {
    var pat := Normal(shell, pattern);
    exists c :: c in Candidates(Normal(shell, resource)) && (Glob(shell, c, pat) || BelowDirectory(pat, c))
  }

  method PathMatchesLoop(shell: Shell, pattern: string, resource: string) returns (b: bool)
    ensures b == PathMatches(shell, pattern, resource)
  {
    hide Glob, Split, Basename, Join, Normal;
    var pat := Normal(shell, pattern);
    var res := Normal(shell, resource);
    var candidates := [res, Basename(res)];
    var parts := Split(res);
    for index := 1 to |parts|
      invariant candidates ==
                [res, Basename(res)] + seq(index - 1, i requires 0 <= i < index - 1 => Join(parts[i + 1..]))
    {
      candidates := candidates + [Join(parts[index..])];
    }
    assert candidates == Candidates(res);
    for n := 0 to |candidates|
      invariant forall m :: 0 <= m < n ==> !Glob(shell, candidates[m], pat)
    {
      if Glob(shell, candidates[n], pat) {
        assert candidates[n] in Candidates(res);
        return true;
      }
    }
    for n := 0 to |candidates|
      invariant forall m :: 0 <= m < n ==> !BelowDirectory(pat, candidates[m])
    {
      if BelowDirectory(pat, candidates[n]) {
        assert candidates[n] in Candidates(res);
        return true;
      }
    }
    return false;
  }

  // ----- directory patterns

  lemma {:induction false} BasenameIsLast(s: string)
    ensures Basename(s) == Split(s)[|Split(s)| - 1]
    decreases |s|
  {
    var i := IndexOf(s, '/');
    if i < |s| { BasenameIsLast(s[i + 1..]); }
  }

  /** The candidates are exactly the non-empty component suffixes. */
  lemma CandidatesAreSuffixes(res: string, c: string)
    ensures c in Candidates(res) <==> exists i :: 0 <= i < |Split(res)| && c == Join(Split(res)[i..])
  {
    hide Split, Basename, Join;
    var parts := Split(res);
    var n := |parts|;
    JoinSplit(res);
    BasenameIsLast(res);
    assert parts[0..] == parts && parts[n - 1..] == [parts[n - 1]];
    JoinOne(parts[n - 1]);
    var cs := Candidates(res);
    assert cs[0] == Join(parts[0..]) && cs[1] == Join(parts[n - 1..]);
    assert |cs| == n + 1 && forall i :: 1 <= i < n ==> cs[i + 1] == Join(parts[i..]);
    if c in cs {
      var k :| 0 <= k < |cs| && cs[k] == c;
      var i := if k == 0 then 0 else if k == 1 then n - 1 else k - 1;
      assert c == Join(parts[i..]);
    }
    if i :| 0 <= i < n && c == Join(parts[i..]) {
      if i > 0 { assert cs[i + 1] == c; }
    }
  }

  lemma JoinOne(s: string)
    ensures Join([s]) == s
  {
  }

  /** `run` occurs as a contiguous run of `parts`. */
  ghost predicate OccursIn(run: seq<string>, parts: seq<string>) {
    exists i :: 0 <= i < |parts| && run <= parts[i..]
  }

  // On a normalised directory pattern the glob and the directory test come to the same.
  lemma DirectoryCandidate(shell: Shell, prefix: string, c: string)
    requires Literal(prefix)
    ensures Glob(shell, c, prefix + "/**") || BelowDirectory(prefix + "/**", c) <==>
              c == prefix || StartsWith(c, prefix + "/")
  {
    hide Glob;
    var pat := prefix + "/**";
    assert pat == (prefix + "/") + "**";
    GlobLiteral(shell, c, prefix + "/", "**");
    if StartsWith(c, prefix + "/") { StarsMatchAll(shell, c[|prefix| + 1..]); }
    assert pat[|pat| - 3..] == "/**" && pat[..|pat| - 3] == prefix;
  }

  lemma SuffixBelow(res: string, prefix: string, i: nat)
    requires i < |Split(res)|
    ensures
      var c := Join(Split(res)[i..]);
      c == prefix || StartsWith(c, prefix + "/") <==> Split(prefix) <= Split(res)[i..]
  {
    hide Split, Join;
    SplitSlashFree(res);
    BelowIffPrefix(Split(res)[i..], prefix);
  }

  lemma NormalisedDirectory(shell: Shell, prefix: string, res: string)
    requires Literal(prefix)
    ensures (exists c :: c in Candidates(res) && (Glob(shell, c, prefix + "/**") || BelowDirectory(prefix + "/**", c)))
              <==> OccursIn(Split(prefix), Split(res))
  {
    hide Glob, BelowDirectory, Candidates, Split, Join;
    var pat := prefix + "/**";
    if c :| c in Candidates(res) && (Glob(shell, c, pat) || BelowDirectory(pat, c)) {
      CandidatesAreSuffixes(res, c);
      var i :| 0 <= i < |Split(res)| && c == Join(Split(res)[i..]);
      DirectoryCandidate(shell, prefix, c);
      SuffixBelow(res, prefix, i);
    }
    if i :| 0 <= i < |Split(res)| && Split(prefix) <= Split(res)[i..] {
      var c := Join(Split(res)[i..]);
      SuffixBelow(res, prefix, i);
      DirectoryCandidate(shell, prefix, c);
      CandidatesAreSuffixes(res, c);
    }
  }

  // The directory that the pattern p + "/**" names: p expanded, its leading slashes dropped.
  function Directory(shell: Shell, p: string): string {
    StripLeftSlashes(ForwardSlashes(Expanded(shell, p)))
  }

  // The first component after a tilde ends at the same place.
  lemma HomeEnds(p: string)
    requires p != []
    ensures
      var i, q := IndexFrom(p, '/', 1), p + "/**";
      IndexFrom(q, '/', 1) == i && q[1..i] == p[1..i] && q[i..] == p[i..] + "/**"
  {
    hide IndexFrom;
    var i, q := IndexFrom(p, '/', 1), p + "/**";
    var k := IndexFrom(q, '/', 1);
    assert q[i] == '/' && (k < |p| ==> q[k] == p[k]);
  }

  lemma ExpandedDirectory(shell: Shell, p: string)
    ensures ExpandHome(shell, p + "/**") == Expanded(shell, p) + "/**"
  {
    hide IndexFrom, StripRightSlashes;
    if p != [] && p[0] == '~' {
      HomeEnds(p);
    } else {
      assert (p + "/**")[0] != '~';
    }
  }

  lemma {:induction false} StripLeftDirectory(x: string)
    ensures StripLeftSlashes(x + "/**") == if StripLeftSlashes(x) == [] then "**" else StripLeftSlashes(x) + "/**"
  {
    if x == [] {
      assert x + "/**" == "/**" && "/**"[1..] == "**";
      assert StripLeftSlashes("**") == "**";
    } else if x[0] == '/' {
      assert (x + "/**")[1..] == x[1..] + "/**";
      StripLeftDirectory(x[1..]);
    }
  }

  lemma NormalDirectory(shell: Shell, p: string)
    ensures Normal(shell, p + "/**") == if Directory(shell, p) == [] then "**" else Directory(shell, p) + "/**"
  {
    hide StripLeftSlashes, Expanded, ExpandHome;
    ExpandedDirectory(shell, p);
    var x := ForwardSlashes(Expanded(shell, p));
    assert ForwardSlashes(Expanded(shell, p) + "/**") == x + "/**";
    StripLeftDirectory(x);
  }

  // A directory pattern free of wildcards matches a resource exactly when the
  // directory's components occur as a contiguous run in the resource's.
  lemma DirectoryPattern(shell: Shell, p: string, resource: string)
    requires Directory(shell, p) != [] && Literal(Directory(shell, p))
    ensures PathMatches(shell, p + "/**", resource) <==>
              OccursIn(Split(Directory(shell, p)), Split(Normal(shell, resource)))
  {
    hide Directory, Normal, Glob, BelowDirectory, Candidates, Split;
    NormalDirectory(shell, p);
    NormalisedDirectory(shell, Directory(shell, p), Normal(shell, resource));
  }

  /** With nothing left of the directory the pattern matches everything. */
  lemma RootDirectoryPattern(shell: Shell, p: string, resource: string)
    requires Directory(shell, p) == []
    ensures PathMatches(shell, p + "/**", resource)
  {
    hide Directory, Normal, Glob, BelowDirectory, Split;
    NormalDirectory(shell, p);
    var res := Normal(shell, resource);
    StarsMatchAll(shell, res);
    assert Candidates(res)[0] == res;
  }
}
