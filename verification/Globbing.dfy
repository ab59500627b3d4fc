/** What a glob pattern means: the text can be cut into one piece for each of its elements. */
module Globbing {
  import opened Text
  import opened PathMatching

  datatype Element = Star | One | Class(body: string) | Plain(c: char)

  /** The elements of a pattern: a bracket that nothing closes stands for itself. */
  function Elements(pat: string): seq<Element>
    decreases |pat|
  {
    if pat == [] then []
    else if pat[0] == '*' then [Star] + Elements(pat[1..])
    else if pat[0] == '?' then [One] + Elements(pat[1..])
    else if pat[0] == '[' && ClassEnd(pat) < |pat| then
      [Class(pat[1..ClassEnd(pat)])] + Elements(pat[ClassEnd(pat) + 1..])
    else [Plain(pat[0])] + Elements(pat[1..])
  }

  predicate Fits(shell: Shell, e: Element, piece: string) {
    match e
    case Star => true
    case One => |piece| == 1
    case Class(body) => |piece| == 1 && shell.inClass(body, piece[0])
    case Plain(c) => piece == [c]
  }

  function Joined(pieces: seq<string>): string {
    if pieces == [] then [] else pieces[0] + Joined(pieces[1..])
  }

  /** The pieces make up the text, and each fits its element. */
  ghost predicate Cut(shell: Shell, elements: seq<Element>, pieces: seq<string>, s: string) {
    && |pieces| == |elements| && Joined(pieces) == s
    && forall i :: 0 <= i < |elements| ==> Fits(shell, elements[i], pieces[i])
  }

  lemma CutFirst(shell: Shell, e: Element, rest: seq<Element>, piece: string, pieces: seq<string>, s: string)
    requires Fits(shell, e, piece) && Cut(shell, rest, pieces, s)
    ensures Cut(shell, [e] + rest, [piece] + pieces, piece + s)
  {
    assert ([piece] + pieces)[1..] == pieces;
  }

  lemma CutRest(shell: Shell, e: Element, rest: seq<Element>, pieces: seq<string>, s: string)
    requires Cut(shell, [e] + rest, pieces, s)
    ensures pieces != [] && Fits(shell, e, pieces[0]) && |pieces[0]| <= |s| && s[..|pieces[0]|] == pieces[0]
    ensures Cut(shell, rest, pieces[1..], s[|pieces[0]|..])
  {
    assert Fits(shell, ([e] + rest)[0], pieces[0]);
    forall i | 0 <= i < |rest| ensures Fits(shell, rest[i], pieces[1..][i]) {
      assert Fits(shell, ([e] + rest)[i + 1], pieces[i + 1]);
    }
  }

  /** At a pattern that does not begin with a star the first character has to fit the first element. */
  lemma GlobStep(shell: Shell, s: string, pat: string)
    requires pat != [] && pat[0] != '*'
    ensures
      var k := if pat[0] == '[' && ClassEnd(pat) < |pat| then ClassEnd(pat) + 1 else 1;
      && k <= |pat| && Elements(pat) == [Elements(pat)[0]] + Elements(pat[k..]) && !Elements(pat)[0].Star?
      && (Glob(shell, s, pat) <==>
            s != [] && Fits(shell, Elements(pat)[0], s[..1]) && Glob(shell, s[1..], pat[k..]))
  {
  }

  lemma {:induction false} GlobCuts(shell: Shell, s: string, pat: string) returns (pieces: seq<string>)
    requires Glob(shell, s, pat)
    ensures Cut(shell, Elements(pat), pieces, s)
    decreases |pat| + |s|
  {
    if pat == [] {
      pieces := [];
    } else if pat[0] == '*' {
      if Glob(shell, s, pat[1..]) {
        var rest := GlobCuts(shell, s, pat[1..]);
        pieces := [""] + rest;
        CutFirst(shell, Star, Elements(pat[1..]), "", rest, s);
        assert "" + s == s;
      } else {
        var longer := GlobCuts(shell, s[1..], pat);
        CutRest(shell, Star, Elements(pat[1..]), longer, s[1..]);
        pieces := [[s[0]] + longer[0]] + longer[1..];
        CutFirst(shell, Star, Elements(pat[1..]), [s[0]] + longer[0], longer[1..], s[1..][|longer[0]|..]);
        assert s == [s[0]] + longer[0] + s[1..][|longer[0]|..];
      }
    } else {
      hide Elements, Glob, Fits, Cut;
      GlobStep(shell, s, pat);
      var k := if pat[0] == '[' && ClassEnd(pat) < |pat| then ClassEnd(pat) + 1 else 1;
      var rest := GlobCuts(shell, s[1..], pat[k..]);
      pieces := [s[..1]] + rest;
      CutFirst(shell, Elements(pat)[0], Elements(pat[k..]), s[..1], rest, s[1..]);
      assert s == s[..1] + s[1..];
    }
  }

  lemma {:induction false} CutGlobs(shell: Shell, s: string, pat: string, pieces: seq<string>)
    requires Cut(shell, Elements(pat), pieces, s)
    ensures Glob(shell, s, pat)
    decreases |pat| + |s|
  {
    if pat == [] {
    } else if pat[0] == '*' {
      CutRest(shell, Star, Elements(pat[1..]), pieces, s);
      if pieces[0] == [] {
        CutGlobs(shell, s, pat[1..], pieces[1..]);
      } else {
        var shorter := pieces[0][1..];
        CutFirst(shell, Star, Elements(pat[1..]), shorter, pieces[1..], s[|pieces[0]|..]);
        assert s[1..] == shorter + s[|pieces[0]|..];
        CutGlobs(shell, s[1..], pat, [shorter] + pieces[1..]);
      }
    } else {
      GlobStep(shell, s, pat);
      var k := if pat[0] == '[' && ClassEnd(pat) < |pat| then ClassEnd(pat) + 1 else 1;
      CutRest(shell, Elements(pat)[0], Elements(pat[k..]), pieces, s);
      assert |pieces[0]| == 1;
      CutGlobs(shell, s[1..], pat[k..], pieces[1..]);
    }
  }

  /**
    A text matches a pattern exactly when it can be cut into one piece for each
    element: any piece at all for a star, slashes included, one character for a question
    mark or a class, and the character itself for any other.
  */
  lemma GlobIff(shell: Shell, s: string, pat: string)
    ensures Glob(shell, s, pat) <==> exists pieces :: Cut(shell, Elements(pat), pieces, s)
  {
    hide Cut, Glob, Elements;
    if Glob(shell, s, pat) { var pieces := GlobCuts(shell, s, pat); }
    if pieces :| Cut(shell, Elements(pat), pieces, s) { CutGlobs(shell, s, pat, pieces); }
  }

  /** A bracket is closed by the next one, not counting one that comes first, possibly behind an exclamation mark. */
  lemma ClassElement(lead: string, body: string, rest: string)
    requires lead == "" || lead == "!" || lead == "]" || lead == "!]"
    requires ']' !in body && (lead == "" || lead == "!" ==> body != "")
    requires lead == "" ==> body[0] != '!'
    ensures Elements("[" + lead + body + "]" + rest) == [Class(lead + body)] + Elements(rest)
  {
    var pat := "[" + lead + body + "]" + rest;
    var j := 1 + |lead|;
    ClassClosed(lead, body, rest);
    assert pat[1..j + |body|] == lead + body && pat[j + |body| + 1..] == rest;
    hide ClassEnd;
  }

  lemma ClassClosed(lead: string, body: string, rest: string)
    requires lead == "" || lead == "!" || lead == "]" || lead == "!]"
    requires ']' !in body && (lead == "" || lead == "!" ==> body != "")
    requires lead == "" ==> body[0] != '!'
    ensures ClassEnd("[" + lead + body + "]" + rest) == 1 + |lead| + |body|
  {
    var pat := "[" + lead + body + "]" + rest;
    var j := 1 + |lead|;
    assert pat[j + |body|] == ']';
    assert forall k :: 0 <= k < |body| ==> pat[j + k] == body[k];
    assert forall k :: 0 <= k < |lead| ==> pat[1 + k] == lead[k];
    IndexFromIs(pat, ']', j, j + |body|);
    hide IndexFrom;
  }

  lemma {:induction false} IndexFromIs(s: string, c: char, i: nat, r: nat)
    requires i <= r < |s| && s[r] == c && forall k :: i <= k < r ==> s[k] != c
    ensures IndexFrom(s, c, i) == r
  {
  }
}
