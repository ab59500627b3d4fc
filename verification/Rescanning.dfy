/** What is left to be found in a text that has been redacted. */
module Rescanning {
  import opened Wrappers
  import opened Detection

  // ----- one pattern, match by match

  /** Where the i-th stretch between matches begins and ends. */
  function GapFrom(spans: seq<Span>, i: nat): nat
    requires i <= |spans|
  {
    if i == 0 then 0 else spans[i - 1].hi
  }

  function GapTo(text: string, spans: seq<Span>, i: nat): nat
    requires i <= |spans|
  {
    if i == |spans| then |text| else spans[i].lo
  }

  /** The i-th span is under a marker of its own. */
  predicate MarkedAt(pieces: seq<Piece>, text: string, spans: seq<Span>, i: nat)
    requires SpansOf(text, spans) && |pieces| == 2 * |spans| + 1
  {
    i < |spans| ==> pieces[2 * i + 1] == Mark(text[spans[i].lo..spans[i].hi])
  }

  /** The i-th stretch between spans is kept. */
  predicate KeptAt(pieces: seq<Piece>, text: string, spans: seq<Span>, i: nat)
    requires SpansOf(text, spans) && |pieces| == 2 * |spans| + 1 && i <= |spans|
  {
    && GapFrom(spans, i) <= GapTo(text, spans, i) <= |text|
    && pieces[2 * i] == Keep(text[GapFrom(spans, i)..GapTo(text, spans, i)])
  }

  /** The pieces are the stretches between the spans, kept, and the spans themselves, each under one marker. */
  ghost predicate MarksExactly(pieces: seq<Piece>, text: string, spans: seq<Span>)
    requires SpansOf(text, spans)
  {
    && |pieces| == 2 * |spans| + 1
    && forall i :: 0 <= i <= |spans| ==> KeptAt(pieces, text, spans, i) && MarkedAt(pieces, text, spans, i)
  }

  lemma GapsPrefix(text: string, spans: seq<Span>, i: nat)
    requires SpansOf(text, spans) && i < |spans|
    ensures
      var n := |spans| - 1;
      var head := text[..spans[n].lo];
      && GapFrom(spans[..n], i) == GapFrom(spans, i) <= GapTo(text, spans, i) == GapTo(head, spans[..n], i) <= |head|
      && head[GapFrom(spans, i)..GapTo(text, spans, i)] == text[GapFrom(spans, i)..GapTo(text, spans, i)]
      && (i < n ==> spans[i].hi <= |head| && head[spans[i].lo..spans[i].hi] == text[spans[i].lo..spans[i].hi])
  {
    var n := |spans| - 1;
    SliceOfSlice(text, 0, spans[n].lo, GapFrom(spans, i), GapTo(text, spans, i));
    if i < n { SliceOfSlice(text, 0, spans[n].lo, spans[i].lo, spans[i].hi); }
  }

  lemma OneMoreAt(pieces: seq<Piece>, all: seq<Piece>, text: string, spans: seq<Span>, i: nat)
    requires SpansOf(text, spans) && i < |spans|
    requires
      var n := |spans| - 1;
      var head := text[..spans[n].lo];
      && SpansOf(head, spans[..n]) && |pieces| == 2 * n + 1
      && KeptAt(pieces, head, spans[..n], i) && MarkedAt(pieces, head, spans[..n], i)
      && all == pieces + [Mark(text[spans[n].lo..spans[n].hi]), Keep(text[spans[n].hi..])]
    ensures KeptAt(all, text, spans, i) && MarkedAt(all, text, spans, i)
  {
    GapsPrefix(text, spans, i);
    hide GapFrom, GapTo, SpansOf;
  }

  lemma OneMoreMark(pieces: seq<Piece>, text: string, spans: seq<Span>) returns (all: seq<Piece>)
    requires SpansOf(text, spans) && spans != []
    requires
      var last := spans[|spans| - 1];
      SpansOf(text[..last.lo], spans[..|spans| - 1]) && MarksExactly(pieces, text[..last.lo], spans[..|spans| - 1])
    ensures
      var last := spans[|spans| - 1];
      && all == pieces + [Mark(text[last.lo..last.hi]), Keep(text[last.hi..])]
      && MarksExactly(all, text, spans)
  {
    var n := |spans| - 1;
    var last := spans[n];
    all := pieces + [Mark(text[last.lo..last.hi]), Keep(text[last.hi..])];
    assert KeptAt(all, text, spans, n + 1);
    hide KeptAt, MarkedAt, SpansOf;
    forall i | 0 <= i <= n ensures KeptAt(all, text, spans, i) && MarkedAt(all, text, spans, i) {
      OneMoreAt(pieces, all, text, spans, i);
    }
    assert MarkedAt(all, text, spans, n + 1) by { NoMarkAt(all, text, spans); }
  }

  lemma NoMarkAt(pieces: seq<Piece>, text: string, spans: seq<Span>)
    requires SpansOf(text, spans) && |pieces| == 2 * |spans| + 1
    ensures MarkedAt(pieces, text, spans, |spans|)
  {
  }

  lemma NoMarks(text: string)
    ensures
      var pieces := [Keep(text)];
      MarksExactly(pieces, text, []) && Shown(pieces) == Substitute(text, []) && Original(pieces) == text
  {
    OnePiece(Keep(text));
    SubstituteNone(text);
    assert text[0..|text|] == text;
  }

  lemma {:induction false} SubstitutedPieces(text: string, spans: seq<Span>) returns (pieces: seq<Piece>)
    requires SpansOf(text, spans)
    ensures MarksExactly(pieces, text, spans)
    ensures Shown(pieces) == Substitute(text, spans) && Original(pieces) == text
    decreases |spans|
  {
    hide Shown, Original, Substitute, MarksExactly;
    if spans == [] {
      pieces := [Keep(text)];
      NoMarks(text);
    } else {
      var n := |spans| - 1;
      var last := spans[n];
      SubstituteLast(text, spans);
      var front := SubstitutedPieces(text[..last.lo], spans[..n]);
      pieces := OneMoreMark(front, text, spans);
      JoinPieces(front, text[last.lo..last.hi], text[last.hi..]);
      CutInThree(text, last.lo, last.hi);
    }
  }

  lemma CutInThree(text: string, lo: nat, hi: nat)
    requires lo <= hi <= |text|
    ensures text[..lo] + text[lo..hi] + text[hi..] == text
  {
  }

  lemma JoinPieces(front: seq<Piece>, covered: string, tail: string)
    ensures
      var all := front + [Mark(covered), Keep(tail)];
      && Shown(all) == Shown(front) + REDACTION + tail
      && Original(all) == Original(front) + covered + tail
  {
    hide Shown, Original;
    assert front + [Mark(covered), Keep(tail)] == front + [Mark(covered)] + [Keep(tail)];
    ShownConcat(front, [Mark(covered)]);
    ShownConcat(front + [Mark(covered)], [Keep(tail)]);
    OnePiece(Mark(covered));
    OnePiece(Keep(tail));
  }

  /**
    For one pattern the redacted text is the original with every match replaced by
    one marker: the markers stand for exactly the matches, one by one, in order.
  */
  lemma EveryMatchReplaced(pattern: Pattern, content: string) returns (pieces: seq<Piece>)
    requires WellBehaved(pattern)
    ensures SpansOf(content, pattern.find(content)) && MarksExactly(pieces, content, pattern.find(content))
    ensures Original(pieces) == content && Shown(pieces) == Redact([pattern], content)
    ensures Matches([pattern], content) == |pattern.find(content)|
    ensures Found([pattern], content) == if pattern.find(content) == [] then [] else [pattern.name]
  {
    hide Shown, Original, Substitute;
    assert SpansOf(content, pattern.find(content));
    pieces := SubstitutedPieces(content, pattern.find(content));
    assert [pattern][..0] == [];
    assert Redact([], content) == content && Matches([], content) == 0 && Found([], content) == [];
    if pattern.find(content) == [] { SubstituteNone(content); }
  }

  lemma LastPattern(patterns: seq<Pattern>, content: string)
    requires patterns != []
    ensures
      var n := |patterns| - 1;
      var spans := patterns[n].find(content);
      && Found(patterns, content) ==
           Found(patterns[..n], content) + (if spans == [] then [] else [patterns[n].name])
      && Matches(patterns, content) == Matches(patterns[..n], content) + |spans|
  {
  }

  /** Labels and counts of several patterns are those of each, one after the other: all look at the original. */
  lemma {:induction false} PatternsAddUp(a: seq<Pattern>, b: seq<Pattern>, content: string)
    ensures Found(a + b, content) == Found(a, content) + Found(b, content)
    ensures Matches(a + b, content) == Matches(a, content) + Matches(b, content)
    decreases |b|
  {
    if b == [] {
      assert a + b == a;
    } else {
      var n := |b| - 1;
      assert (a + b)[..|a| + n] == a + b[..n];
      PatternsAddUp(a, b[..n], content);
      LastPattern(a + b, content);
      LastPattern(b, content);
      hide Found, Matches;
      var more := if b[n].find(content) == [] then [] else [b[n].name];
      assert Found(a, content) + Found(b[..n], content) + more == Found(a, content) + (Found(b[..n], content) + more);
    }
  }

  // ----- any number of patterns: what is left

  /** A regular expression as far as it can be told by the characters it covers and by word boundaries around them. */
  datatype Shape = Shape(words: string -> bool, fenceLeft: bool, fenceRight: bool)

  predicate IsWord(c: char) {
    'a' <= c <= 'z' || 'A' <= c <= 'Z' || '0' <= c <= '9' || c == '_'
  }

  predicate WordBefore(text: string, p: nat) {
    0 < p <= |text| && IsWord(text[p - 1])
  }

  predicate WordAfter(text: string, p: nat) {
    p < |text| && IsWord(text[p])
  }

  /** What `\b` stands for. */
  predicate Boundary(text: string, p: nat) {
    WordBefore(text, p) != WordAfter(text, p)
  }

  predicate Occurs(shape: Shape, text: string, lo: nat, hi: nat) {
    && lo < hi <= |text| && shape.words(text[lo..hi])
    && (shape.fenceLeft ==> Boundary(text, lo)) && (shape.fenceRight ==> Boundary(text, hi))
  }

  predicate Apart(span: Span, lo: nat, hi: nat) {
    hi <= span.lo || span.hi <= lo
  }

  /** The pattern searches for the shape: what it finds is of the shape, and it misses nothing it does not overlap. */
  ghost predicate Searches(pattern: Pattern, shape: Shape) {
    && (forall text, i :: 0 <= i < |pattern.find(text)| ==>
          Occurs(shape, text, pattern.find(text)[i].lo, pattern.find(text)[i].hi))
    && (forall text, lo: nat, hi: nat :: Occurs(shape, text, lo, hi) ==>
          exists i :: 0 <= i < |pattern.find(text)| && !Apart(pattern.find(text)[i], lo, hi))
  }

  /** No match begins or ends between two word characters. */
  ghost predicate Fenced(pattern: Pattern) {
    forall text :: FencedSpans(text, pattern.find(text))
  }

  predicate FencedAt(text: string, p: nat) {
    !(WordBefore(text, p) && WordAfter(text, p))
  }

  ghost predicate FencedSpans(text: string, spans: seq<Span>) {
    forall i :: 0 <= i < |spans| ==> FencedAt(text, spans[i].lo) && FencedAt(text, spans[i].hi)
  }

  /** Nothing of the shape reaches into a marker. */
  ghost predicate KeepsOff(shape: Shape) {
    forall text, lo: nat, hi: nat, m: nat :: Occurs(shape, text, lo, hi) && MarkerAt(text, m) ==>
      hi <= m || m + |REDACTION| <= lo
  }

  ghost predicate Absent(shape: Shape, text: string) {
    forall lo: nat, hi: nat :: !Occurs(shape, text, lo, hi)
  }

  /** What occurs behind a marker occurs in the tail of the text before. */
  lemma OccursInTail(shape: Shape, front: string, text: string, cut: nat, lo: nat, hi: nat)
    requires cut <= |text| && FencedAt(text, cut) && |front| + |REDACTION| <= lo
    requires Occurs(shape, front + REDACTION + text[cut..], lo, hi)
    ensures
      var k := |front| + |REDACTION|;
      Occurs(shape, text, lo - k + cut, hi - k + cut)
  {
    var after, k := front + REDACTION + text[cut..], |front| + |REDACTION|;
    assert forall p :: k <= p < |after| ==> after[p] == text[p - k + cut];
    assert after[k - 1] == REDACTION[|REDACTION| - 1];
    assert after[lo..hi] == text[lo - k + cut..hi - k + cut];
  }

  /** What occurs before a marker occurs in the front on its own. */
  lemma OccursInFront(shape: Shape, front: string, tail: string, lo: nat, hi: nat)
    requires hi <= |front| && Occurs(shape, front + REDACTION + tail, lo, hi)
    ensures Occurs(shape, front, lo, hi)
  {
    var after := front + REDACTION + tail;
    assert forall p :: 0 <= p < |front| ==> after[p] == front[p];
    assert after[|front|] == REDACTION[0];
    assert after[lo..hi] == front[lo..hi];
  }

  /** What occurs in a part that ends at a fence occurs in the whole. */
  lemma OccursInWhole(shape: Shape, text: string, cut: nat, lo: nat, hi: nat)
    requires cut <= |text| && FencedAt(text, cut) && Occurs(shape, text[..cut], lo, hi)
    ensures Occurs(shape, text, lo, hi)
  {
    assert forall p :: 0 <= p < cut ==> text[..cut][p] == text[p];
    assert text[..cut][lo..hi] == text[lo..hi];
  }

  lemma FencedPrefix(text: string, spans: seq<Span>)
    requires SpansOf(text, spans) && FencedSpans(text, spans) && spans != []
    ensures
      var n := |spans| - 1;
      FencedSpans(text[..spans[n].lo], spans[..n])
  {
    var n := |spans| - 1;
    var head := text[..spans[n].lo];
    assert forall p :: 0 <= p < |head| ==> head[p] == text[p];
    forall i | 0 <= i < n ensures FencedAt(head, spans[i].lo) && FencedAt(head, spans[i].hi) {
      assert FencedAt(text, spans[i].lo) && FencedAt(text, spans[i].hi);
    }
  }

  /** Substituting fenced matches brings forth nothing new: what occurs then occurred before, clear of the matches. */
  lemma {:induction false} NothingNew(shape: Shape, text: string, spans: seq<Span>, lo: nat, hi: nat)
    returns (from: nat, to: nat)
    requires KeepsOff(shape) && SpansOf(text, spans) && FencedSpans(text, spans)
    requires Occurs(shape, Substitute(text, spans), lo, hi)
    ensures Occurs(shape, text, from, to) && forall i :: 0 <= i < |spans| ==> Apart(spans[i], from, to)
    decreases |spans|
  {
    hide Substitute;
    if spans == [] {
      SubstituteNone(text);
      from, to := lo, hi;
    } else {
      var n := |spans| - 1;
      var last := spans[n];
      var front, tail := Substitute(text[..last.lo], spans[..n]), text[last.hi..];
      SubstituteLast(text, spans);
      assert (front + REDACTION + tail)[|front|..|front| + |REDACTION|] == REDACTION;
      assert MarkerAt(front + REDACTION + tail, |front|);
      hide Occurs;
      if hi <= |front| {
        OccursInFront(shape, front, tail, lo, hi);
        FencedPrefix(text, spans);
        from, to := NothingNew(shape, text[..last.lo], spans[..n], lo, hi);
        assert to <= last.lo by { OccursWithin(shape, text[..last.lo], from, to); }
        OccursInWhole(shape, text, last.lo, from, to);
      } else {
        OccursInTail(shape, front, text, last.hi, lo, hi);
        from, to := lo - |front| - |REDACTION| + last.hi, hi - |front| - |REDACTION| + last.hi;
      }
    }
  }

  lemma OccursWithin(shape: Shape, text: string, lo: nat, hi: nat)
    requires Occurs(shape, text, lo, hi)
    ensures lo < hi <= |text|
  {
  }

  /** What is absent stays absent. */
  lemma StaysAbsent(shape: Shape, text: string, spans: seq<Span>)
    requires KeepsOff(shape) && SpansOf(text, spans) && FencedSpans(text, spans) && Absent(shape, text)
    ensures Absent(shape, Substitute(text, spans))
  {
    hide Substitute, Occurs, KeepsOff;
    if lo: nat, hi: nat :| Occurs(shape, Substitute(text, spans), lo, hi) {
      var from, to := NothingNew(shape, text, spans, lo, hi);
    }
  }

  /** Once its matches are replaced a pattern finds nothing any more. */
  lemma BecomesAbsent(pattern: Pattern, shape: Shape, text: string)
    requires WellBehaved(pattern) && Fenced(pattern) && Searches(pattern, shape) && KeepsOff(shape)
    ensures SpansOf(text, pattern.find(text)) && Absent(shape, Substitute(text, pattern.find(text)))
  {
    hide Substitute, Occurs, KeepsOff;
    var spans := pattern.find(text);
    assert SpansOf(text, spans) && FencedSpans(text, spans);
    if lo: nat, hi: nat :| Occurs(shape, Substitute(text, spans), lo, hi) {
      var from, to := NothingNew(shape, text, spans, lo, hi);
    }
  }

  ghost predicate AllFenced(patterns: seq<Pattern>) {
    forall i :: 0 <= i < |patterns| ==> Fenced(patterns[i])
  }

  lemma {:induction false} AbsentThroughout(patterns: seq<Pattern>, shape: Shape, content: string)
    requires AllWellBehaved(patterns) && AllFenced(patterns) && KeepsOff(shape) && Absent(shape, content)
    ensures Absent(shape, Redact(patterns, content))
  {
    hide Absent, Fenced, KeepsOff, Substitute;
    if patterns != [] {
      var n := |patterns| - 1;
      AbsentThroughout(patterns[..n], shape, content);
      var sofar := Redact(patterns[..n], content);
      assert WellBehaved(patterns[n]) && SpansOf(sofar, patterns[n].find(sofar));
      assert FencedSpans(sofar, patterns[n].find(sofar)) by { FencedOn(patterns[n], sofar); }
      StaysAbsent(shape, sofar, patterns[n].find(sofar));
    }
  }

  lemma FencedOn(pattern: Pattern, text: string)
    requires Fenced(pattern)
    ensures FencedSpans(text, pattern.find(text))
  {
  }

  lemma FindsIff(pattern: Pattern, shape: Shape, text: string)
    requires Searches(pattern, shape)
    ensures pattern.find(text) == [] <==> Absent(shape, text)
  {
    hide Occurs, Apart;
    if pattern.find(text) != [] {
      assert Occurs(shape, text, pattern.find(text)[0].lo, pattern.find(text)[0].hi);
    }
  }

  /**
    A pattern whose matches are told by the characters they cover and by word
    boundaries, and do not reach into markers, finds nothing in the redacted text,
    whatever the other patterns are: none of its matches is left, and none is made.
  */
  lemma {:induction false} NothingLeft(patterns: seq<Pattern>, content: string, k: nat, shape: Shape)
    requires AllWellBehaved(patterns) && AllFenced(patterns)
    requires k < |patterns| && Searches(patterns[k], shape) && KeepsOff(shape)
    ensures patterns[k].find(Redact(patterns, content)) == []
    decreases |patterns|
  {
    hide Absent, Searches, KeepsOff, Substitute, FencedSpans;
    FindsIff(patterns[k], shape, Redact(patterns, content));
    if patterns[k].find(content) == [] {
      FindsIff(patterns[k], shape, content);
      AbsentThroughout(patterns, shape, content);
    } else {
      var n := |patterns| - 1;
      var sofar := Redact(patterns[..n], content);
      assert WellBehaved(patterns[n]) && Fenced(patterns[n]);
      if k == n {
        BecomesAbsent(patterns[n], shape, sofar);
      } else {
        NothingLeft(patterns[..n], content, k, shape);
        FindsIff(patterns[k], shape, sofar);
        FencedOn(patterns[n], sofar);
        StaysAbsent(shape, sofar, patterns[n].find(sofar));
      }
    }
  }

  /** Where this holds of every pattern, scanning a redacted text again finds nothing and changes nothing. */
  lemma {:induction false} RescanFindsNothing(patterns: seq<Pattern>, text: string)
    requires AllWellBehaved(patterns)
    requires forall k :: 0 <= k < |patterns| ==> patterns[k].find(text) == []
    ensures Found(patterns, text) == [] && Redact(patterns, text) == text
  {
    if patterns != [] { RescanFindsNothing(patterns[..|patterns| - 1], text); }
  }

  ghost predicate AllPlain(patterns: seq<Pattern>, shapes: seq<Shape>) {
    && |shapes| == |patterns|
    && forall k :: 0 <= k < |patterns| ==> Searches(patterns[k], shapes[k]) && KeepsOff(shapes[k])
  }

  lemma RedactedIsClean(patterns: seq<Pattern>, shapes: seq<Shape>, content: string)
    requires AllWellBehaved(patterns) && AllFenced(patterns) && AllPlain(patterns, shapes)
    ensures Found(patterns, Redact(patterns, content)) == []
    ensures Redact(patterns, Redact(patterns, content)) == Redact(patterns, content)
  {
    hide Redact, Found, Searches, KeepsOff, AllFenced;
    forall k | 0 <= k < |patterns| ensures patterns[k].find(Redact(patterns, content)) == [] {
      NothingLeft(patterns, content, k, shapes[k]);
    }
    RescanFindsNothing(patterns, Redact(patterns, content));
  }

  /** A redacted copy that is within the scan's limit is itself scanned without a finding. */
  lemma CopyScansClean(patterns: seq<Pattern>, shapes: seq<Shape>, text: string, limit: nat)
    requires AllWellBehaved(patterns) && AllFenced(patterns) && AllPlain(patterns, shapes)
    ensures
      var copy := Scanned(patterns, text, limit).redacted;
      copy.Some? && |copy.value| <= limit ==> Scanned(patterns, copy.value, limit) == ScanResult([], None, 0)
  {
    hide Redact, Found, Matches, AllFenced, AllPlain;
    var content := Truncate(text, limit);
    RedactedIsClean(patterns, shapes, content);
    NothingMatched(patterns, Redact(patterns, content));
  }

  lemma {:induction false} NothingMatched(patterns: seq<Pattern>, text: string)
    ensures Found(patterns, text) == [] <==> Matches(patterns, text) == 0
  {
    if patterns != [] { NothingMatched(patterns[..|patterns| - 1], text); }
  }
}
