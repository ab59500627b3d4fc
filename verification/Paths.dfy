/** Slash-separated paths: splitting, joining, and the facts that tie the two together. */
module Paths {
  import opened Text

  predicate SlashFree(s: string) {
    '/' !in s
  }

  /** `s.split("/")`: never empty. */
  function Split(s: string): (parts: seq<string>)
    ensures |parts| > 0
    decreases |s|
  {
    var i := IndexOf(s, '/');
    if i == |s| then [s] else [s[..i]] + Split(s[i + 1..])
  }

  /** `"/".join(parts)`. */
  function Join(parts: seq<string>): string {
    if parts == [] then ""
    else if |parts| == 1 then parts[0]
    else parts[0] + "/" + Join(parts[1..])
  }

  lemma SplitOne(s: string)
    requires SlashFree(s)
    ensures Split(s) == [s]
  {
  }

  lemma SplitFirst(a: string, b: string)
    requires SlashFree(a)
    ensures Split(a + "/" + b) == [a] + Split(b)
  {
    var s := a + "/" + b;
    assert s == a + ['/'] + b;
    IndexOfPrefix(a, '/', b);
    assert s[..|a|] == a && s[|a| + 1..] == b;
  }

  lemma {:induction false} JoinSplit(s: string)
    ensures Join(Split(s)) == s
    decreases |s|
  {
    hide Split;
    var i := IndexOf(s, '/');
    if i == |s| {
      SplitOne(s);
    } else {
      var head, tail := s[..i], s[i + 1..];
      JoinSplit(tail);
      assert s == head + "/" + tail;
      SplitFirst(head, tail);
      assert ([head] + Split(tail))[1..] == Split(tail);
    }
  }

  lemma {:induction false} SplitSlashFree(s: string)
    ensures forall k :: 0 <= k < |Split(s)| ==> SlashFree(Split(s)[k])
    decreases |s|
  {
    var i := IndexOf(s, '/');
    if i < |s| { SplitSlashFree(s[i + 1..]); }
  }

  lemma {:induction false} SplitJoin(parts: seq<string>)
    requires parts != [] && forall k :: 0 <= k < |parts| ==> SlashFree(parts[k])
    ensures Split(Join(parts)) == parts
  {
    if |parts| == 1 {
      SplitOne(parts[0]);
      assert parts == [parts[0]];
    } else {
      SplitJoin(parts[1..]);
      SplitFirst(parts[0], Join(parts[1..]));
      assert parts == [parts[0]] + parts[1..];
    }
  }

  lemma {:induction false} SplitConcat(a: string, b: string)
    ensures Split(a + "/" + b) == Split(a) + Split(b)
    decreases |a|
  {
    hide Split;
    var i := IndexOf(a, '/');
    if i == |a| {
      SplitOne(a);
      SplitFirst(a, b);
    } else {
      hide IndexOf, IndexFrom;
      var head, tail := a[..i], a[i + 1..];
      SplitConcat(tail, b);
      SplitFirst(head, tail + "/" + b);
      SplitFirst(head, tail);
      assert a == head + "/" + tail;
      assert a + "/" + b == head + "/" + (tail + "/" + b);
    }
  }

  lemma {:induction false} JoinConcat(a: seq<string>, b: seq<string>)
    requires a != [] && b != []
    ensures Join(a + b) == Join(a) + "/" + Join(b)
  {
    if |a| == 1 {
      assert (a + b)[1..] == b;
    } else {
      JoinConcat(a[1..], b);
      assert (a + b)[1..] == a[1..] + b;
    }
  }

  /** A joined path is `prefix` or lies below it exactly when the components of `prefix` come first. */
  lemma BelowIffPrefix(parts: seq<string>, prefix: string)
    requires parts != [] && forall k :: 0 <= k < |parts| ==> SlashFree(parts[k])
    ensures Join(parts) == prefix || StartsWith(Join(parts), prefix + "/") <==> Split(prefix) <= parts
  {
    hide Split, Join;
    var s := Join(parts);
    SplitJoin(parts);
    JoinSplit(prefix);
    if StartsWith(s, prefix + "/") {
      var rest := s[|prefix| + 1..];
      assert s == prefix + "/" + rest;
      SplitConcat(prefix, rest);
    }
    if Split(prefix) <= parts {
      var rest := parts[|Split(prefix)|..];
      assert parts == Split(prefix) + rest;
      if rest == [] {
        assert parts == Split(prefix);
      } else {
        JoinConcat(Split(prefix), rest);
        assert s[..|prefix| + 1] == prefix + "/";
      }
    }
  }
}
