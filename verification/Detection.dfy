/** Detection and redaction of sensitive text. */
module Detection {
  import opened Wrappers

  const REDACTION := "[REDACTED]"

  /** A match: the half-open interval of positions it covers. */
  datatype Span = Span(lo: nat, hi: nat)

  /** A labelled pattern; `find` stands for the regular expression. */
  datatype Pattern = Pattern(name: string, find: string -> seq<Span>)

  datatype ScanResult = ScanResult(classifications: seq<string>, redacted: Option<string>, matchCount: nat)

  /** What every regular expression search yields: non-empty matches, in order, within the text. */
  predicate SpansOf(text: string, spans: seq<Span>) {
    && (forall i :: 0 <= i < |spans| ==> spans[i].lo < spans[i].hi <= |text|)
    && (forall i, j :: 0 <= i < j < |spans| ==> spans[i].hi <= spans[j].lo)
  }

  ghost predicate WellBehaved(pattern: Pattern) {
    forall text :: SpansOf(text, pattern.find(text))
  }

  function End(spans: seq<Span>): nat {
    if spans == [] then 0 else spans[|spans| - 1].hi
  }

  /** The text up to the end of the last span, with every span replaced by the marker. */
  function Replaced(text: string, spans: seq<Span>): string
    requires SpansOf(text, spans)
  {
    if spans == [] then ""
    else
      var n := |spans| - 1;
      Replaced(text, spans[..n]) + text[End(spans[..n])..spans[n].lo] + REDACTION
  }

  /** The whole text, with every span replaced by the marker. */
  function Substitute(text: string, spans: seq<Span>): string
    requires SpansOf(text, spans)
  {
    Replaced(text, spans) + text[End(spans)..]
  }

  lemma SpansPrefix(text: string, spans: seq<Span>, n: nat)
    requires n < |spans| && SpansOf(text, spans)
    ensures SpansOf(text, spans[..n]) && SpansOf(text, spans[..n + 1])
    ensures End(spans[..n]) <= spans[n].lo <= spans[n].hi <= |text| && End(spans[..n + 1]) == spans[n].hi
  {
  }

  lemma ReplacedNext(text: string, spans: seq<Span>, n: nat)
    requires n < |spans| && SpansOf(text, spans[..n]) && SpansOf(text, spans[..n + 1])
    requires End(spans[..n]) <= spans[n].lo <= |text|
    ensures Replaced(text, spans[..n + 1]) ==
              Replaced(text, spans[..n]) + text[End(spans[..n])..spans[n].lo] + REDACTION
  {
    hide SpansOf, End;
    var upto := spans[..n + 1];
    assert upto[..|upto| - 1] == spans[..n] && upto[|upto| - 1] == spans[n];
  }

  /** `pattern.sub(REDACTION, text)`, from left to right. */
  method Sub(pattern: Pattern, text: string) returns (result: string)
    requires WellBehaved(pattern)
    ensures SpansOf(text, pattern.find(text)) && result == Substitute(text, pattern.find(text))
  {
    var spans := pattern.find(text);
    assert SpansOf(text, spans);
    hide SpansOf, Replaced, End;
    NothingReplaced(text);
    result := "";
    var from := 0;
    for n := 0 to |spans|
      invariant SpansOf(text, spans[..n])
      invariant from == End(spans[..n]) <= |text| && result == Replaced(text, spans[..n])
    {
      SpansPrefix(text, spans, n);
      ReplacedNext(text, spans, n);
      result := result + text[from..spans[n].lo] + REDACTION;
      from := spans[n].hi;
    }
    result := result + text[from..];
    assert spans[..|spans|] == spans;
  }

  lemma NothingReplaced(text: string)
    ensures SpansOf(text, []) && Replaced(text, []) == "" && End([]) == 0
  {
  }

  lemma {:induction false} ReplacedPrefix(text: string, cut: nat, spans: seq<Span>)
    requires cut <= |text| && SpansOf(text[..cut], spans)
    ensures SpansOf(text, spans) && Replaced(text, spans) == Replaced(text[..cut], spans)
  {
    if spans != [] {
      var n := |spans| - 1;
      ReplacedPrefix(text, cut, spans[..n]);
      assert text[..cut][End(spans[..n])..spans[n].lo] == text[End(spans[..n])..spans[n].lo];
    }
  }

  /** The last span can be replaced on its own. */
  lemma SubstituteLast(text: string, spans: seq<Span>)
    requires SpansOf(text, spans) && spans != []
    ensures
      var n := |spans| - 1;
      && SpansOf(text[..spans[n].lo], spans[..n])
      && Substitute(text, spans) == Substitute(text[..spans[n].lo], spans[..n]) + REDACTION + text[spans[n].hi..]
  {
    var n := |spans| - 1;
    var head := text[..spans[n].lo];
    assert SpansOf(head, spans[..n]);
    ReplacedPrefix(text, spans[n].lo, spans[..n]);
    assert head[End(spans[..n])..] == text[End(spans[..n])..spans[n].lo];
  }

  ghost predicate AllWellBehaved(patterns: seq<Pattern>) {
    forall i :: 0 <= i < |patterns| ==> WellBehaved(patterns[i])
  }

  /** The running text after the patterns: each is looked for in the original, but substituted in the running text. */
  ghost function Redact(patterns: seq<Pattern>, content: string): string
    requires AllWellBehaved(patterns)
  {
    if patterns == [] then content
    else
      var n := |patterns| - 1;
      var sofar := Redact(patterns[..n], content);
      assert WellBehaved(patterns[n]) && SpansOf(sofar, patterns[n].find(sofar));
      if patterns[n].find(content) == [] then sofar else Substitute(sofar, patterns[n].find(sofar))
  }

  /** The names of the patterns found in the original, in order. */
  function Found(patterns: seq<Pattern>, content: string): seq<string> {
    if patterns == [] then []
    else
      var n := |patterns| - 1;
      Found(patterns[..n], content) + if patterns[n].find(content) == [] then [] else [patterns[n].name]
  }

  function Matches(patterns: seq<Pattern>, content: string): nat {
    if patterns == [] then 0
    else Matches(patterns[..|patterns| - 1], content) + |patterns[|patterns| - 1].find(content)|
  }

  function Truncate(content: string, limit: nat): string {
    if |content| > limit then content[..limit] else content
  }

  /** The result of a scan, which looks at no more than the first `limit` characters. */
  ghost function Scanned(patterns: seq<Pattern>, text: string, limit: nat): ScanResult
    requires AllWellBehaved(patterns)
  {
    var content := Truncate(text, limit);
    var redacted := Redact(patterns, content);
    ScanResult(
      Found(patterns, content), if redacted == content then None else Some(redacted), Matches(patterns, content))
  }

  method Detect(patterns: seq<Pattern>, text: string, limit: nat) returns (r: ScanResult)
    requires AllWellBehaved(patterns)
    ensures r == Scanned(patterns, text, limit)
    ensures (forall i :: 0 <= i < |patterns| ==> NeverOpens(patterns[i])) ==>
              (r.classifications != [] <==> r.redacted.Some?)
  {
    hide Substitute, NeverOpens;
    var content := Truncate(text, limit);
    var classifications := [];
    var redacted := content;
    var matchCount := 0;
    for n := 0 to |patterns|
      invariant classifications == Found(patterns[..n], content)
      invariant redacted == Redact(patterns[..n], content)
      invariant matchCount == Matches(patterns[..n], content)
    {
      assert patterns[..n + 1][..n] == patterns[..n];
      assert WellBehaved(patterns[n]);
      var matches := patterns[n].find(content);
      if matches != [] {
        classifications := classifications + [patterns[n].name];
        matchCount := matchCount + |matches|;
        redacted := Sub(patterns[n], redacted);
      }
    }
    assert patterns[..|patterns|] == patterns;
    r := ScanResult(classifications, if redacted == content then None else Some(redacted), matchCount);
    if forall i :: 0 <= i < |patterns| ==> NeverOpens(patterns[i]) {
      FindingsRedact(patterns, content);
    }
  }

  // ----- redaction replaces spans of the original

  /** A redacted text, piece by piece: original characters kept, or one marker in place of some of them. */
  datatype Piece = Keep(text: string) | Mark(covered: string)

  function ShownPiece(piece: Piece): string {
    if piece.Keep? then piece.text else REDACTION
  }

  function OriginalPiece(piece: Piece): string {
    if piece.Keep? then piece.text else piece.covered
  }

  function Shown(pieces: seq<Piece>): string {
    if pieces == [] then "" else ShownPiece(pieces[0]) + Shown(pieces[1..])
  }

  function Original(pieces: seq<Piece>): string {
    if pieces == [] then "" else OriginalPiece(pieces[0]) + Original(pieces[1..])
  }

  /** No marker stands for nothing. */
  predicate Whole(pieces: seq<Piece>) {
    forall i :: 0 <= i < |pieces| && pieces[i].Mark? ==> pieces[i].covered != []
  }

  predicate MarkerAt(text: string, m: nat) {
    m + |REDACTION| <= |text| && text[m..m + |REDACTION|] == REDACTION
  }

  /** Position `p` is not strictly inside an occurrence of the marker. */
  ghost predicate CleanCut(text: string, p: nat) {
    forall m: nat :: MarkerAt(text, m) ==> p <= m || m + |REDACTION| <= p
  }

  /** No match of the pattern begins or ends strictly inside a marker. */
  ghost predicate Respects(pattern: Pattern) {
    forall text :: CleanSpans(text, pattern.find(text))
  }

  ghost predicate CleanSpans(text: string, spans: seq<Span>) {
    forall i :: 0 <= i < |spans| ==> CleanCut(text, spans[i].lo) && CleanCut(text, spans[i].hi)
  }

  lemma CleanCutPart(text: string, from: nat, to: nat, p: nat)
    requires from <= p <= to <= |text| && CleanCut(text, p)
    ensures CleanCut(text[from..to], p - from)
  {
    var part := text[from..to];
    forall m: nat | MarkerAt(part, m) ensures p - from <= m || m + |REDACTION| <= p - from {
      SliceOfSlice(text, from, to, m, m + |REDACTION|);
      assert MarkerAt(text, from + m);
    }
  }

  lemma {:induction false} ShownParts(a: seq<Piece>, b: seq<Piece>)
    ensures Shown(a + b) == Shown(a) + Shown(b)
  {
    hide ShownPiece;
    if a == [] {
      assert a + b == b;
    } else {
      ShownParts(a[1..], b);
      assert (a + b)[1..] == a[1..] + b && (a + b)[0] == a[0];
    }
  }

  lemma {:induction false} OriginalParts(a: seq<Piece>, b: seq<Piece>)
    ensures Original(a + b) == Original(a) + Original(b)
  {
    hide OriginalPiece;
    if a == [] {
      assert a + b == b;
    } else {
      OriginalParts(a[1..], b);
      assert (a + b)[1..] == a[1..] + b && (a + b)[0] == a[0];
    }
  }

  lemma ShownConcat(a: seq<Piece>, b: seq<Piece>)
    ensures Shown(a + b) == Shown(a) + Shown(b) && Original(a + b) == Original(a) + Original(b)
    ensures Whole(a) && Whole(b) ==> Whole(a + b)
  {
    hide Shown, Original;
    ShownParts(a, b);
    OriginalParts(a, b);
  }

  lemma OnePiece(piece: Piece)
    ensures Shown([piece]) == ShownPiece(piece) && Original([piece]) == OriginalPiece(piece)
  {
    assert [piece][1..] == [];
  }

  lemma MarkFirst(covered: string, rest: seq<Piece>, p: nat)
    requires 0 < p && CleanCut(Shown([Mark(covered)] + rest), p)
    ensures p >= |REDACTION|
  {
    hide Shown, Original;
    ShownConcat([Mark(covered)], rest);
    OnePiece(Mark(covered));
    assert MarkerAt(Shown([Mark(covered)] + rest), 0);
  }

  /** Cutting inside the first piece; markers cannot be cut. */
  lemma CutHead(head: Piece, rest: seq<Piece>, p: nat) returns (a: seq<Piece>, b: seq<Piece>)
    requires Whole([head] + rest) && 0 < p < |ShownPiece(head)| && CleanCut(Shown([head] + rest), p)
    ensures Whole(a) && Whole(b) && Original(a) + Original(b) == Original([head] + rest)
    ensures Shown(a) + Shown(b) == Shown([head] + rest) && |Shown(a)| == p
  {
    hide Shown, Original;
    ShownConcat([head], rest);
    OnePiece(head);
    if head.Mark? {
      MarkFirst(head.covered, rest, p);
      assert false;
    } else {
      var t, u := head.text[..p], head.text[p..];
      assert head.text == t + u;
      a, b := [Keep(t)], [Keep(u)] + rest;
      OnePiece(Keep(t));
      OnePiece(Keep(u));
      ShownConcat([Keep(u)], rest);
      assert Whole(rest) by { assert forall i :: 0 <= i < |rest| ==> ([head] + rest)[i + 1] == rest[i]; }
    }
  }

  lemma NoPieces()
    ensures Shown([]) == "" && Original([]) == "" && Whole([])
  {
  }

  lemma WholeParts(pieces: seq<Piece>)
    requires Whole(pieces) && pieces != []
    ensures Whole(pieces[..1]) && Whole(pieces[1..])
  {
  }

  lemma {:induction false} CutPieces(pieces: seq<Piece>, p: nat) returns (a: seq<Piece>, b: seq<Piece>)
    requires Whole(pieces) && p <= |Shown(pieces)| && CleanCut(Shown(pieces), p)
    ensures Whole(a) && Whole(b) && Original(a) + Original(b) == Original(pieces)
    ensures Shown(a) + Shown(b) == Shown(pieces) && |Shown(a)| == p
    decreases |pieces|
  {
    hide Original, Shown, Whole, CleanCut;
    NoPieces();
    if pieces == [] || p == 0 {
      a, b := [], pieces;
    } else if p < |ShownPiece(pieces[0])| {
      assert pieces == [pieces[0]] + pieces[1..];
      a, b := CutHead(pieces[0], pieces[1..], p);
    } else {
      var head, rest := [pieces[0]], pieces[1..];
      assert pieces == head + rest && pieces[..1] == head;
      WholeParts(pieces);
      OnePiece(pieces[0]);
      var k := |Shown(head)|;
      ShownConcat(head, rest);
      assert Shown(pieces)[k..|Shown(pieces)|] == Shown(rest);
      CleanCutPart(Shown(pieces), k, |Shown(pieces)|, p);
      a, b := CutPieces(rest, p - k);
      ShownConcat(head, a);
      a := head + a;
    }
  }

  lemma {:induction false} ShownSomething(pieces: seq<Piece>)
    requires Whole(pieces) && Shown(pieces) != []
    ensures Original(pieces) != []
  {
    if pieces[0] == Keep([]) { ShownSomething(pieces[1..]); }
  }

  /** The pieces before, inside and behind one match. */
  lemma CutAround(pieces: seq<Piece>, span: Span) returns (a: seq<Piece>, b: seq<Piece>, c: seq<Piece>)
    requires Whole(pieces) && span.lo < span.hi <= |Shown(pieces)|
    requires CleanCut(Shown(pieces), span.lo) && CleanCut(Shown(pieces), span.hi)
    ensures Whole(a) && Whole(b) && Whole(c) && Original(a) + Original(b) + Original(c) == Original(pieces)
    ensures Shown(a) == Shown(pieces)[..span.lo] && Shown(c) == Shown(pieces)[span.hi..] && Original(b) != []
  {
    hide Shown, Original, CleanCut;
    var ab;
    ab, c := CutPieces(pieces, span.hi);
    assert Shown(ab) == Shown(pieces)[0..span.hi];
    CleanCutPart(Shown(pieces), 0, span.hi, span.lo);
    a, b := CutPieces(ab, span.lo);
    ShownSomething(b) by {
      assert |Shown(b)| == span.hi - span.lo;
    }
  }

  lemma CleanSpansPrefix(text: string, spans: seq<Span>)
    requires SpansOf(text, spans) && CleanSpans(text, spans) && spans != []
    ensures
      var n := |spans| - 1;
      CleanSpans(text[..spans[n].lo], spans[..n])
  {
    hide CleanCut;
    var n := |spans| - 1;
    var cut := spans[n].lo;
    assert text[0..cut] == text[..cut];
    forall i | 0 <= i < n ensures CleanCut(text[..cut], spans[i].lo) && CleanCut(text[..cut], spans[i].hi) {
      CleanCutPart(text, 0, cut, spans[i].lo);
      CleanCutPart(text, 0, cut, spans[i].hi);
    }
  }

  /** Substituting matches that respect the markers covers more of the original, and keeps the rest. */
  lemma {:induction false} CoverSpans(pieces: seq<Piece>, spans: seq<Span>) returns (result: seq<Piece>)
    requires Whole(pieces) && SpansOf(Shown(pieces), spans) && CleanSpans(Shown(pieces), spans)
    ensures Whole(result) && Original(result) == Original(pieces)
    ensures Shown(result) == Substitute(Shown(pieces), spans)
    decreases |spans|
  {
    if spans == [] {
      result := pieces;
      assert Shown(pieces)[0..] == Shown(pieces);
    } else {
      hide Shown, Original, CleanCut, Substitute;
      var n := |spans| - 1;
      var a, b, c := CutAround(pieces, spans[n]);
      SubstituteLast(Shown(pieces), spans);
      CleanSpansPrefix(Shown(pieces), spans);
      var front := CoverSpans(a, spans[..n]);
      var mark := [Mark(Original(b))];
      OnePiece(Mark(Original(b)));
      ShownConcat(front, mark);
      ShownConcat(front + mark, c);
      result := front + mark + c;
    }
  }

  /**
    When no match cuts a marker in two, the redacted text is the original with
    disjoint non-empty stretches each replaced by one marker, everything else kept
    in order.
  */
  lemma {:induction false} RedactionReplacesSpans(patterns: seq<Pattern>, content: string) returns (pieces: seq<Piece>)
    requires AllWellBehaved(patterns)
    requires forall i :: 0 <= i < |patterns| ==> Respects(patterns[i])
    ensures Whole(pieces) && Original(pieces) == content && Shown(pieces) == Redact(patterns, content)
  {
    if patterns == [] {
      pieces := [Keep(content)];
      assert pieces[1..] == [];
    } else {
      var n := |patterns| - 1;
      var before := RedactionReplacesSpans(patterns[..n], content);
      pieces := before;
      if patterns[n].find(content) != [] {
        var spans := patterns[n].find(Shown(before));
        assert WellBehaved(patterns[n]) && Respects(patterns[n]);
        pieces := CoverSpans(before, spans);
      }
    }
  }

  // ----- findings come with a redacted copy

  /** No match begins with the character the marker begins with. */
  ghost predicate NeverOpens(pattern: Pattern) {
    forall text, i :: 0 <= i < |pattern.find(text)| && pattern.find(text)[i].lo < |text| ==>
      text[pattern.find(text)[i].lo] != REDACTION[0]
  }

  /** The running text has a marker's first character where the original, alike so far, has another. */
  predicate DepartsAt(running: string, content: string, p: nat) {
    && p < |running| && p < |content| && running[..p] == content[..p]
    && running[p] == REDACTION[0] && content[p] != REDACTION[0]
  }

  /** A substitution leaves the text before its first match alone and puts a marker there. */
  lemma {:induction false} SubstituteStarts(text: string, spans: seq<Span>)
    requires SpansOf(text, spans) && spans != []
    ensures
      var lo, result := spans[0].lo, Substitute(text, spans);
      lo + |REDACTION| <= |result| && result[..lo] == text[..lo] && result[lo] == REDACTION[0]
    decreases |spans|
  {
    hide Substitute;
    var n, lo := |spans| - 1, spans[0].lo;
    SubstituteLast(text, spans);
    var head := text[..spans[n].lo];
    var before := Substitute(head, spans[..n]);
    if n == 0 {
      assert spans[..0] == [];
      SubstituteNone(head);
    } else {
      SubstituteStarts(head, spans[..n]);
      assert before[..lo] == head[..lo] == text[..lo];
    }
    assert Substitute(text, spans) == before + (REDACTION + text[spans[n].hi..]);
  }

  /** Substituting keeps a departure, or brings it forward. */
  lemma DepartureKept(pattern: Pattern, running: string, content: string, p: nat) returns (q: nat)
    requires WellBehaved(pattern) && NeverOpens(pattern) && DepartsAt(running, content, p)
    ensures SpansOf(running, pattern.find(running))
    ensures DepartsAt(Substitute(running, pattern.find(running)), content, q)
  {
    hide Substitute;
    var spans := pattern.find(running);
    assert SpansOf(running, spans);
    q := p;
    if spans == [] {
      SubstituteNone(running);
    } else {
      var lo := spans[0].lo;
      SubstituteStarts(running, spans);
      assert running[lo] != REDACTION[0];
      var result := Substitute(running, spans);
      if lo < p {
        q := lo;
        assert running[..p][lo] == content[..p][lo];
        assert result[..lo] == running[..p][..lo] == content[..p][..lo];
      } else {
        assert result[..lo][p] == running[..lo][p] && result[..lo][..p] == running[..lo][..p];
      }
    }
  }

  /** The first match in the original is where the redacted text departs from it. */
  lemma DepartureMade(pattern: Pattern, content: string) returns (q: nat)
    requires WellBehaved(pattern) && NeverOpens(pattern) && pattern.find(content) != []
    ensures SpansOf(content, pattern.find(content))
    ensures DepartsAt(Substitute(content, pattern.find(content)), content, q)
  {
    hide Substitute;
    var spans := pattern.find(content);
    assert SpansOf(content, spans);
    SubstituteStarts(content, spans);
    q := spans[0].lo;
    assert content[q] != REDACTION[0];
  }

  /**
    Whatever the content, a marker in it included, a scan by patterns of which no
    match begins with the marker's first character changes the text exactly when it
    finds something, so findings always come with a redacted copy.
  */
  lemma {:induction false} FindingsRedact(patterns: seq<Pattern>, content: string)
    requires AllWellBehaved(patterns)
    requires forall i :: 0 <= i < |patterns| ==> NeverOpens(patterns[i])
    ensures if Found(patterns, content) == [] then Redact(patterns, content) == content
            else exists p: nat :: DepartsAt(Redact(patterns, content), content, p)
    ensures Found(patterns, content) == [] <==> Redact(patterns, content) == content
  {
    hide Substitute, NeverOpens, DepartsAt;
    if patterns != [] {
      var n := |patterns| - 1;
      FindingsRedact(patterns[..n], content);
      var sofar := Redact(patterns[..n], content);
      assert WellBehaved(patterns[n]);
      if patterns[n].find(content) != [] {
        if Found(patterns[..n], content) == [] {
          var q := DepartureMade(patterns[n], content);
        } else {
          var p: nat :| DepartsAt(sofar, content, p);
          var q := DepartureKept(patterns[n], sofar, content, p);
        }
      }
    }
    if Found(patterns, content) != [] {
      var p: nat :| DepartsAt(Redact(patterns, content), content, p);
      DepartureShows(Redact(patterns, content), content, p);
    }
  }

  lemma DepartureShows(running: string, content: string, p: nat)
    requires DepartsAt(running, content, p)
    ensures running != content
  {
  }

  // ----- and for arbitrary patterns

  predicate HasMarker(text: string) {
    exists m: nat :: m <= |text| && MarkerAt(text, m)
  }

  lemma MarkerBetween(a: string, b: string)
    ensures HasMarker(a + REDACTION + b)
  {
    var text := a + REDACTION + b;
    assert text[|a|..|a| + |REDACTION|] == REDACTION;
    assert MarkerAt(text, |a|);
  }

  /** Whatever is found leaves at least one marker in the redacted text. */
  lemma {:induction false} FindingsLeaveMarker(patterns: seq<Pattern>, content: string)
    requires AllWellBehaved(patterns)
    ensures if Found(patterns, content) == [] then Redact(patterns, content) == content
            else HasMarker(Redact(patterns, content))
  {
    hide Substitute, HasMarker;
    if patterns != [] {
      var n := |patterns| - 1;
      FindingsLeaveMarker(patterns[..n], content);
      var sofar := Redact(patterns[..n], content);
      assert WellBehaved(patterns[n]);
      var spans := patterns[n].find(sofar);
      if patterns[n].find(content) != [] && spans != [] {
        var last := spans[|spans| - 1];
        SubstituteLast(sofar, spans);
        MarkerBetween(Substitute(sofar[..last.lo], spans[..|spans| - 1]), sofar[last.hi..]);
      } else {
        SubstituteNone(sofar);
      }
    }
  }

  /** Findings come with a redacted copy, whatever the patterns. */
  ghost predicate AlwaysRedacts(content: string) {
    forall patterns :: AllWellBehaved(patterns) && Found(patterns, content) != [] ==>
      Redact(patterns, content) != content
  }

  /** A pattern that matches one marker of one text and nothing else. */
  function MarkerPattern(content: string, m: nat): Pattern {
    Pattern("MARKER", t => if t == content then [Span(m, m + |REDACTION|)] else [])
  }

  lemma SubstituteMarker(content: string, m: nat)
    requires MarkerAt(content, m)
    ensures SpansOf(content, [Span(m, m + |REDACTION|)])
    ensures Substitute(content, [Span(m, m + |REDACTION|)]) == content
  {
    hide Substitute;
    var span := Span(m, m + |REDACTION|);
    SubstituteLast(content, [span]);
    assert [span][..0] == [];
    SubstituteNone(content[..m]);
    assert content == content[..m] + REDACTION + content[m + |REDACTION|..];
  }

  lemma SubstituteNone(text: string)
    ensures Substitute(text, []) == text
  {
  }

  lemma MarkerUnnoticed(content: string, m: nat)
    requires MarkerAt(content, m)
    ensures
      var patterns := [MarkerPattern(content, m)];
      && AllWellBehaved(patterns) && Found(patterns, content) == ["MARKER"] && Redact(patterns, content) == content
  {
    hide Substitute;
    var pattern := MarkerPattern(content, m);
    SubstituteMarker(content, m);
    assert WellBehaved(pattern);
    assert [pattern][..0] == [];
    assert Found([], content) == [] && Redact([], content) == content;
  }

  /**
    Without any assumption on the patterns, a redacted copy is only certain for texts
    that do not contain the marker: a pattern that matches the marker goes unnoticed.
  */
  lemma FindingsRedactIff(content: string)
    ensures AlwaysRedacts(content) <==> !HasMarker(content)
  {
    if HasMarker(content) {
      var m: nat :| m <= |content| && MarkerAt(content, m);
      MarkerUnnoticed(content, m);
    } else {
      forall patterns | AllWellBehaved(patterns) && Found(patterns, content) != []
        ensures Redact(patterns, content) != content
      {
        FindingsLeaveMarker(patterns, content);
      }
    }
  }
}
