/** The reader of a Server-Sent Events stream, which is fed one byte at a time. */
module SseReader {
  import opened Wrappers
  import opened Text
  import opened Json

  newtype Byte = b: int | 0 <= b < 256

  /** One byte decoded on its own: anything outside ASCII becomes the replacement character. */
  function DecodeByte(b: Byte): (c: char)
    ensures c != '\U{85}' && c != '\U{2028}' && c != '\U{2029}'
  {
    if b < 128 then b as char else '\U{FFFD}'
  }

  function Decode(bytes: seq<Byte>): string {
    seq(|bytes|, i requires 0 <= i < |bytes| => DecodeByte(bytes[i]))
  }

  /** The characters at which `str.splitlines` breaks a decoded text. */
  predicate IsBreak(c: char) {
    '\n' <= c <= '\r' || '\U{1C}' <= c <= '\U{1E}'
  }

  function BreakFrom(s: string, i: nat): (r: nat)
    requires i <= |s|
    ensures i <= r <= |s|
    ensures r < |s| ==> IsBreak(s[r])
    ensures forall j :: i <= j < r ==> !IsBreak(s[j])
    decreases |s| - i
  {
    if i == |s| || IsBreak(s[i]) then i else BreakFrom(s, i + 1)
  }

  function BreakAt(s: string): (r: nat)
    ensures r <= |s| && (r < |s| ==> IsBreak(s[r]))
    ensures forall j :: 0 <= j < r ==> !IsBreak(s[j])
  {
    BreakFrom(s, 0)
  }

  /** The length of the first line and of the break that ends it; CR LF is one break. */
  function FirstBreak(s: string): (r: (nat, nat))
    requires s != []
    ensures 0 < r.1 <= |s| && r.0 <= r.1
  {
    var i := BreakAt(s);
    (i, if i == |s| then i
        else if s[i] == '\r' && i + 1 < |s| && s[i + 1] == '\n' then i + 2
        else i + 1)
  }

  function SplitLines(s: string): seq<string>
    decreases |s|
  {
    if s == [] then []
    else
      var r := FirstBreak(s);
      [s[..r.0]] + SplitLines(s[r.1..])
  }

  /** What one line puts on the queue. */
  function LinePayload(codec: Codec, line: string): seq<Json> {
    if !StartsWith(line, "data:") then []
    else
      var payload := Strip(line[5..]);
      if payload == [] then []
      else match codec.loads(payload)
        case None => []
        case Some(v) => [v]
  }

  function Payloads(codec: Codec, lines: seq<string>): seq<Json> {
    if lines == [] then [] else LinePayload(codec, lines[0]) + Payloads(codec, lines[1..])
  }

  lemma {:induction false} PayloadsConcat(codec: Codec, a: seq<string>, b: seq<string>)
    ensures Payloads(codec, a + b) == Payloads(codec, a) + Payloads(codec, b)
  {
    if a == [] {
      assert a + b == b;
    } else {
      assert (a + b)[1..] == a[1..] + b;
      PayloadsConcat(codec, a[1..], b);
    }
  }

  /** The part of a text up to and including its last newline. */
  function Complete(s: string): string {
    if s == [] then []
    else if s[|s| - 1] == '\n' then s
    else Complete(s[..|s| - 1])
  }

  class Reader {
    const codec: Codec
    var queue: seq<Json>

    constructor (codec: Codec)
      ensures this.codec == codec && queue == []
    {
      this.codec := codec;
      queue := [];
    }

    /** Queues the payloads of the lines of a flushed buffer. */
    method Flush(buffer: string)
      modifies this
      ensures queue == old(queue) + Payloads(codec, SplitLines(buffer))
    {
      hide SplitLines, Strip;
      var lines := SplitLines(buffer);
      for n := 0 to |lines|
        invariant queue == old(queue) + Payloads(codec, lines[..n])
      {
        PayloadsConcat(codec, lines[..n], [lines[n]]);
        assert lines[..n] + [lines[n]] == lines[..n + 1];
        assert Payloads(codec, [lines[n]]) == LinePayload(codec, lines[n]) + Payloads(codec, []);
        if StartsWith(lines[n], "data:") {
          var payload := Strip(lines[n][5..]);
          if payload != [] {
            var v := codec.loads(payload);
            if v.Some? {
              queue := queue + [v.value];
            }
          }
        }
      }
      assert lines[..|lines|] == lines;
    }

    /** One decoded character joins the buffer; a newline flushes it. */
    method Accept(buffer: string, c: char) returns (rest: string)
      modifies this
      ensures c == '\n' ==> rest == "" && queue == old(queue) + Payloads(codec, SplitLines(buffer + [c]))
      ensures c != '\n' ==> rest == buffer + [c] && queue == old(queue)
    {
      rest := buffer + [c];
      if rest[|rest| - 1] == '\n' {
        Flush(rest);
        rest := "";
      }
    }

    /**
      Reads the stream to its end.  However the lines fall, the queue receives what
      one pass over the complete part of the whole text would give.
    */
    method Run(stream: seq<Byte>)
      modifies this
      ensures queue == old(queue) + Batch(codec, Decode(stream))
    {
      hide Complete, SplitLines, Payloads;
      var buffer := "";
      ghost var seen, queued := "", [];
      NothingQueued(codec);
      for n := 0 to |stream|
        invariant seen == Decode(stream)[..n]
        invariant Fed(codec, seen, buffer, queued)
        invariant queue == old(queue) + queued
      {
        var c := DecodeByte(stream[n]);
        Feed(codec, seen, buffer, queued, c);
        queued := if c == '\n' then queued + Payloads(codec, SplitLines(buffer + [c])) else queued;
        seen := seen + [c];
        buffer := Accept(buffer, c);
      }
      assert seen == Decode(stream);
    }
  }

  /** One pass over the complete part of a text. */
  function Batch(codec: Codec, s: string): seq<Json> {
    Payloads(codec, SplitLines(Complete(s)))
  }

  /** The reader after `s`: the incomplete rest is in the buffer, everything else on the queue. */
  ghost predicate Fed(codec: Codec, s: string, buffer: string, queued: seq<Json>) {
    s == Complete(s) + buffer && queued == Batch(codec, s)
  }

  lemma NothingQueued(codec: Codec)
    ensures Complete("") == "" && Payloads(codec, SplitLines("")) == []
  {
  }

  lemma Feed(codec: Codec, s: string, buffer: string, queued: seq<Json>, c: char)
    requires Fed(codec, s, buffer, queued)
    ensures c == '\n' ==> Fed(codec, s + [c], "", queued + Payloads(codec, SplitLines(buffer + [c])))
    ensures c != '\n' ==> Fed(codec, s + [c], buffer + [c], queued)
  {
    hide Payloads, SplitLines;
    var t := s + [c];
    assert t[..|s|] == s && t[|t| - 1] == c;
    if c == '\n' {
      CompleteLines(s);
      assert t == Complete(s) + (buffer + [c]);
      SplitComplete(Complete(s), buffer + [c]);
      PayloadsConcat(codec, SplitLines(Complete(s)), SplitLines(buffer + [c]));
    }
  }

  lemma {:induction false} CompleteLines(s: string)
    ensures var c := Complete(s); c == [] || c[|c| - 1] == '\n'
  {
    if s != [] && s[|s| - 1] != '\n' { CompleteLines(s[..|s| - 1]); }
  }

  /** Lines never span a newline, so a text ending in one splits separately from what follows. */
  lemma {:induction false} SplitComplete(a: string, b: string)
    requires a == [] || a[|a| - 1] == '\n'
    ensures SplitLines(a + b) == SplitLines(a) + SplitLines(b)
    decreases |a|
  {
    hide FirstBreak, SplitLines;
    if a == [] {
      assert a + b == b;
      SplitNothing();
    } else {
      SameFirstBreak(a, b);
      SplitStep(a);
      SplitStep(a + b);
      var r := FirstBreak(a);
      var rest := a[r.1..];
      assert rest == [] || rest[|rest| - 1] == '\n';
      assert (a + b)[..r.0] == a[..r.0] && (a + b)[r.1..] == rest + b;
      SplitComplete(rest, b);
    }
  }

  lemma SplitNothing()
    ensures SplitLines("") == []
  {
  }

  lemma SplitStep(s: string)
    requires s != []
    ensures SplitLines(s) == [s[..FirstBreak(s).0]] + SplitLines(s[FirstBreak(s).1..])
  {
  }

  lemma SameFirstBreak(a: string, b: string)
    requires a != [] && a[|a| - 1] == '\n'
    ensures FirstBreak(a + b) == FirstBreak(a) && FirstBreak(a).0 < |a|
  {
    var i, j := BreakAt(a), BreakAt(a + b);
    assert IsBreak(a[|a| - 1]);
    assert forall k :: 0 <= k < |a| ==> (a + b)[k] == a[k];
  }

  // ----- the newline-terminated lines

  /** The payloads of the newline-terminated lines, splitting at newlines only. */
  function NewlinePayloads(codec: Codec, s: string): seq<Json>
    decreases |s|
  {
    var i := IndexOf(s, '\n');
    if i == |s| then []
    else LinePayload(codec, s[..i]) + NewlinePayloads(codec, s[i + 1..])
  }

  lemma {:induction false} CompleteNone(s: string)
    requires '\n' !in s
    ensures Complete(s) == []
  {
    if s != [] { CompleteNone(s[..|s| - 1]); }
  }

  lemma {:induction false} CompleteSplit(head: string, tail: string)
    requires head != [] && head[|head| - 1] == '\n'
    ensures Complete(head + tail) == head + Complete(tail)
  {
    if tail == [] {
      assert head + tail == head;
    } else {
      var n := |tail| - 1;
      assert (head + tail)[..|head| + n] == head + tail[..n];
      if tail[n] != '\n' { CompleteSplit(head, tail[..n]); }
    }
  }

  // ----- lines with other breaks in them

  /** The characters of a text that are no white space. */
  function Ink(s: string): nat {
    if s == [] then 0 else Ink(s[..|s| - 1]) + if IsSpace(s[|s| - 1]) then 0 else 1
  }

  lemma {:induction false} InkConcat(a: string, b: string)
    ensures Ink(a + b) == Ink(a) + Ink(b)
  {
    if b == [] {
      assert a + b == a;
    } else {
      var n := |b| - 1;
      assert (a + b)[..|a| + n] == a + b[..n];
      InkConcat(a, b[..n]);
    }
  }

  lemma {:induction false} InkBlank(s: string)
    ensures Ink(s) == 0 <==> Blank(s)
  {
    if s != [] {
      var n := |s| - 1;
      assert s == s[..n] + [s[n]];
      InkBlank(s[..n]);
    }
  }

  lemma {:induction false} InkStripLeft(s: string)
    ensures Ink(StripLeft(s)) == Ink(s)
  {
    if s != [] && IsSpace(s[0]) {
      assert s == s[..1] + s[1..];
      InkConcat(s[..1], s[1..]);
      InkBlank(s[..1]);
      InkStripLeft(s[1..]);
    }
  }

  lemma {:induction false} InkStripRight(s: string)
    ensures Ink(StripRight(s)) == Ink(s)
  {
    if s != [] && IsSpace(s[|s| - 1]) {
      InkStripRight(s[..|s| - 1]);
    }
  }

  /** Stripping loses no ink, so texts that strip to the same have the same amount. */
  lemma InkStrip(s: string)
    ensures Ink(Strip(s)) == Ink(s)
    ensures Strip(s) == [] <==> Blank(s)
  {
    InkStripLeft(s);
    InkStripRight(StripLeft(s));
    InkBlank(s);
    InkBlank(Strip(s));
    if Blank(s) { StripBlank(s); }
  }

  /** No piece of a text has more ink than the text. */
  lemma {:induction false} PiecesInk(s: string)
    ensures forall p :: p in SplitLines(s) ==> Ink(p) <= Ink(s)
    decreases |s|
  {
    if s != [] {
      hide FirstBreak, SplitLines, Ink;
      var r := FirstBreak(s);
      SplitStep(s);
      PiecesInk(s[r.1..]);
      assert s == s[..r.0] + s[r.0..] && s == s[..r.1] + s[r.1..];
      InkConcat(s[..r.0], s[r.0..]);
      InkConcat(s[..r.1], s[r.1..]);
    } else {
      SplitNothing();
    }
  }

  /** The line puts something on the queue, if its payload parses. */
  predicate Carries(line: string) {
    StartsWith(line, "data:") && Strip(line[5..]) != []
  }

  lemma DataInk(line: string)
    requires StartsWith(line, "data:")
    ensures Ink(line) == 5 + Ink(line[5..])
  {
    assert line == line[..5] + line[5..] && line[..5] == "data:";
    InkConcat(line[..5], line[5..]);
    assert "data:"[..4] == "data" && "data"[..3] == "dat" && "dat"[..2] == "da" && "da"[..1] == "d" && "d"[..0] == [];
    assert Ink("d") == 1 && Ink("da") == 2 && Ink("dat") == 3 && Ink("data") == 4 && Ink("data:") == 5;
  }

  /** A reader of payloads that accepts one text only, or every text. */
  function Only(text: string): Codec {
    Codec(_ => [], t => if t == text then Some(Null) else None)
  }

  function Any(): Codec {
    Codec(_ => [], _ => Some(Null))
  }

  lemma {:induction false} PayloadsNone(codec: Codec, lines: seq<string>)
    requires forall p :: p in lines ==> LinePayload(codec, p) == []
    ensures Payloads(codec, lines) == []
  {
    if lines != [] {
      hide LinePayload;
      PayloadsNone(codec, lines[1..]);
    }
  }

  lemma {:induction false} PayloadsSome(lines: seq<string>, p: string)
    requires p in lines && Carries(p)
    ensures Payloads(Any(), lines) != []
  {
    if lines[0] != p {
      assert p in lines[1..];
      PayloadsSome(lines[1..], p);
    }
  }

  /**
    The line reads the same at all breaks as at its newline alone: a data line when
    only white space follows its first break, any other when no piece carries data.
  */
  predicate OneReading(line: string) {
    if StartsWith(line, "data:") then Blank(line[BreakAt(line)..])
    else forall p :: p in SplitLines(line + "\n") ==> !Carries(p)
  }

  lemma FirstPiece(line: string)
    requires '\n' !in line
    ensures
      var s, i := line + "\n", BreakAt(line);
      && FirstBreak(s).0 == i && s[..i] == line[..i]
      && SplitLines(s) == [line[..i]] + SplitLines(s[FirstBreak(s).1..])
  {
    var s, i := line + "\n", BreakAt(line);
    assert forall j :: 0 <= j < |line| ==> s[j] == line[j];
    assert s[|line|] == '\n';
    assert BreakAt(s) == i;
    SplitStep(s);
  }

  /** A data line's field name lies before its first break. */
  lemma DataHead(line: string)
    requires StartsWith(line, "data:")
    ensures
      var i := BreakAt(line);
      && i >= 5 && StartsWith(line[..i], "data:")
      && line[..i][5..] == line[5..i] && line[5..] == line[5..i] + line[i..]
  {
    var i := BreakAt(line);
    assert forall j :: 0 <= j < 5 ==> line[j] == "data:"[j];
    assert forall j :: 0 <= j < 5 ==> !IsBreak("data:"[j]);
    assert line[..i][..5] == line[..5];
  }

  /** White space after a data line changes nothing. */
  lemma BlankTail(codec: Codec, line: string)
    requires '\n' !in line && StartsWith(line, "data:") && Blank(line[BreakAt(line)..])
    ensures Payloads(codec, SplitLines(line + "\n")) == LinePayload(codec, line)
  {
    hide SplitLines, Strip, FirstBreak, BreakAt, Ink, Payloads, Blank;
    var s, i := line + "\n", BreakAt(line);
    var rest := s[FirstBreak(s).1..];
    FirstPiece(line);
    DataHead(line);
    StripBlankTail(line[5..i], line[i..]);
    RestInk(line);
    InkBlank(line[i..]);
    PiecesInk(rest);
    forall p | p in SplitLines(rest) ensures LinePayload(codec, p) == [] {
      if StartsWith(p, "data:") {
        DataInk(p);
        assert false;
      }
    }
    PayloadsNone(codec, SplitLines(rest));
    OneMore(codec, line[..i], SplitLines(rest));
  }

  lemma OneMore(codec: Codec, line: string, rest: seq<string>)
    ensures Payloads(codec, [line] + rest) == LinePayload(codec, line) + Payloads(codec, rest)
  {
    hide LinePayload;
    assert ([line] + rest)[1..] == rest;
  }

  lemma {:induction false} StripBlankTail(s: string, b: string)
    requires Blank(b)
    ensures Strip(s + b) == Strip(s)
  {
    if b == [] {
      assert s + b == s;
    } else {
      var n := |b| - 1;
      assert s + b == (s + b[..n]) + [b[n]];
      StripBlankTail(s, b[..n]);
      StripTrailing(s + b[..n], b[n]);
    }
  }

  /** Something after the first break of a data line belongs to its payload, and no piece has all of that. */
  lemma InkedTail(line: string)
    requires '\n' !in line && StartsWith(line, "data:") && !Blank(line[BreakAt(line)..])
    ensures
      var codec := Only(Strip(line[5..]));
      Payloads(codec, SplitLines(line + "\n")) == [] && LinePayload(codec, line) == [Null]
  {
    hide SplitLines, Strip, FirstBreak, BreakAt, Ink, Payloads, Blank;
    var s, i, text := line + "\n", BreakAt(line), Strip(line[5..]);
    var rest := s[FirstBreak(s).1..];
    FirstPiece(line);
    DataHead(line);
    InkConcat(line[5..i], line[i..]);
    InkBlank(line[i..]);
    InkStrip(line[5..]);
    InkBlank(line[5..]);
    RestInk(line);
    PiecesInk(rest);
    forall p | p in SplitLines(s) ensures LinePayload(Only(text), p) == [] {
      if StartsWith(p, "data:") {
        InkStrip(p[5..]);
        DataInk(p);
      }
    }
    PayloadsNone(Only(text), SplitLines(s));
  }

  lemma RestInk(line: string)
    requires '\n' !in line
    ensures
      var s := line + "\n";
      Ink(s[FirstBreak(s).1..]) <= Ink(line[BreakAt(line)..])
  {
    hide Ink, FirstBreak, BreakAt;
    var s, i := line + "\n", BreakAt(line);
    FirstPiece(line);
    var k := FirstBreak(s).1;
    assert s[i..] == line[i..] + "\n" && s[i..] == s[i..k] + s[k..];
    InkConcat(line[i..], "\n");
    InkConcat(s[i..k], s[k..]);
    InkBlank("\n");
  }

  /**
    Whatever payloads parse to, splitting a newline-terminated line at every break
    reads the same as taking it whole, exactly under that condition.
  */
  lemma OneReadingIff(line: string)
    requires '\n' !in line
    ensures OneReading(line) <==>
              forall codec :: Payloads(codec, SplitLines(line + "\n")) == LinePayload(codec, line)
  {
    hide SplitLines, Strip, Only;
    var pieces := SplitLines(line + "\n");
    if StartsWith(line, "data:") {
      if OneReading(line) {
        forall codec ensures Payloads(codec, pieces) == LinePayload(codec, line) {
          BlankTail(codec, line);
        }
      } else {
        InkedTail(line);
      }
    } else if OneReading(line) {
      forall codec ensures Payloads(codec, pieces) == LinePayload(codec, line) {
        PayloadsNone(codec, pieces);
      }
    } else {
      var p :| p in pieces && Carries(p);
      PayloadsSome(pieces, p);
      assert LinePayload(Any(), line) == [];
    }
  }

  /** All newline-terminated lines of the text read the same either way. */
  predicate AllOneReading(s: string)
    decreases |s|
  {
    var i := IndexOf(s, '\n');
    i < |s| ==> OneReading(s[..i]) && AllOneReading(s[i + 1..])
  }

  /** Where every line does, the whole queue is that of the newline-terminated lines. */
  lemma {:induction false} QueueIsOneReading(codec: Codec, s: string)
    requires AllOneReading(s)
    ensures Batch(codec, s) == NewlinePayloads(codec, s)
    decreases |s|
  {
    hide LinePayload, Payloads, SplitLines, Complete, OneReading, IndexFrom;
    var i := IndexOf(s, '\n');
    if i == |s| {
      CompleteNone(s);
      NothingQueued(codec);
    } else {
      var head, tail := s[..i + 1], s[i + 1..];
      QueueIsOneReading(codec, tail);
      assert s == head + tail && head == s[..i] + "\n";
      CompleteSplit(head, tail);
      SplitComplete(head, Complete(tail));
      PayloadsConcat(codec, SplitLines(head), SplitLines(Complete(tail)));
      OneReadingIff(s[..i]);
    }
  }

  // ----- lines that end in LF or CR LF

  predicate PlainAt(s: string, i: nat)
    requires i < |s|
  {
    IsBreak(s[i]) ==> s[i] == '\n' || (s[i] == '\r' && i + 1 < |s| && s[i + 1] == '\n')
  }

  /** The only breaks are LF and CR LF. */
  predicate PlainBreaks(s: string) {
    forall i :: 0 <= i < |s| ==> PlainAt(s, i)
  }

  lemma PlainParts(s: string, i: nat)
    requires PlainBreaks(s) && i < |s| && s[i] == '\n'
    ensures PlainBreaks(s[..i + 1]) && PlainBreaks(s[i + 1..])
  {
    var head, tail := s[..i + 1], s[i + 1..];
    forall k: nat | k < |head| ensures PlainAt(head, k) { assert PlainAt(s, k); }
    forall k: nat | k < |tail| ensures PlainAt(tail, k) { assert PlainAt(s, i + 1 + k); }
  }

  /** With no other breaks than LF and CR LF every line reads the same either way. */
  lemma {:induction false} PlainOneReading(s: string)
    requires PlainBreaks(s)
    ensures AllOneReading(s)
    decreases |s|
  {
    hide PlainBreaks, OneReading, IndexFrom;
    var i := IndexOf(s, '\n');
    if i < |s| {
      PlainParts(s, i);
      PlainOneReading(s[i + 1..]);
      PlainLine(s, i);
    }
  }

  lemma PlainLine(s: string, i: nat)
    requires PlainBreaks(s) && i < |s| && s[i] == '\n' && '\n' !in s[..i]
    ensures OneReading(s[..i])
  {
    var line := s[..i];
    var k := BreakAt(line);
    if k < i {
      assert PlainAt(s, k) && s[k] == line[k];
      assert forall j :: 0 <= j < i ==> s[j] != '\n' by { assert forall j :: 0 <= j < i ==> s[j] == line[j]; }
    }
    var t := line + "\n";
    FirstPiece(line);
    assert FirstBreak(t).1 == |t| && t[|t|..] == [];
    SplitNothing();
    assert StartsWith(line[..k], "data:") ==> line[..k][..5] == line[..5];
  }

  /**
    On a text whose only breaks are LF and CR LF, the queue holds the payloads of
    exactly the newline-terminated lines, in order.
  */
  lemma QueueIsNewlineLines(codec: Codec, s: string)
    requires PlainBreaks(s)
    ensures Batch(codec, s) == NewlinePayloads(codec, s)
  {
    PlainOneReading(s);
    QueueIsOneReading(codec, s);
  }

  /** Each of the characters that end a line does: what stands before and after it are two lines. */
  lemma BreaksSplit(a: string, c: char, b: string)
    requires Breakless(a) && Breakless(b) && (c == '\r' ==> b != [])
    requires c in {'\n', '\r', '\U{0B}', '\U{0C}', '\U{1C}', '\U{1D}', '\U{1E}'}
    ensures SplitLines(a + [c] + (b + "\n")) == [a, b]
  {
    var tail := b + "\n";
    FirstOfTwo(a, c, tail);
    OneLine(b, false);
    hide SplitLines;
  }

  lemma FirstOfTwo(a: string, c: char, tail: string)
    requires Breakless(a) && IsBreak(c) && tail != [] && (c == '\r' ==> tail[0] != '\n')
    ensures SplitLines(a + [c] + tail) == [a] + SplitLines(tail)
  {
    var s := a + [c] + tail;
    assert forall j :: 0 <= j < |a| ==> s[j] == a[j];
    assert s[|a|] == c && BreakAt(s) == |a|;
    assert s[|a| + 1] == tail[0];
    assert s[..|a|] == a && s[|a| + 1..] == tail;
    SplitStep(s);
    hide SplitLines, BreakAt, IsBreak;
  }

  /** ASCII text arrives as it was sent; every other byte arrives as the replacement character. */
  lemma DecodeIs(bytes: seq<Byte>, i: nat)
    requires i < |bytes|
    ensures |Decode(bytes)| == |bytes|
    ensures if bytes[i] < 128 then Decode(bytes)[i] as int == bytes[i] as int else Decode(bytes)[i] == '\U{FFFD}'
  {
  }

  // ----- whole event streams

  /** One line of an event stream: a message, with white space around it, or anything that carries none. */
  datatype Line = Data(before: string, message: Json, after: string) | Other(text: string)

  predicate Breakless(s: string) {
    forall i :: 0 <= i < |s| ==> !IsBreak(s[i])
  }

  function Printed(codec: Codec, line: Line): string {
    match line
    case Data(before, message, after) => "data:" + before + codec.dumps(message) + after
    case Other(text) => text
  }

  /** A line that can stand in a stream: no break within, and nothing but a message where a message is meant. */
  ghost predicate Proper(codec: Codec, line: Line) {
    && Breakless(Printed(codec, line))
    && match line
       case Data(before, _, after) => Blank(before) && Blank(after)
       case Other(text) => !StartsWith(text, "data:") || Blank(text[5..]) || codec.loads(Strip(text[5..])).None?
  }

  /** The stream, each line ended by CR LF or by LF. */
  function Stream(codec: Codec, lines: seq<(Line, bool)>): string {
    if lines == [] then []
    else Printed(codec, lines[0].0) + (if lines[0].1 then "\r\n" else "\n") + Stream(codec, lines[1..])
  }

  function Sent(lines: seq<(Line, bool)>): seq<Json> {
    if lines == [] then []
    else (if lines[0].0.Data? then [lines[0].0.message] else []) + Sent(lines[1..])
  }

  lemma PrintedRead(codec: Codec, line: Line)
    requires Lossless(codec) && Proper(codec, line)
    ensures LinePayload(codec, Printed(codec, line)) == if line.Data? then [line.message] else []
  {
    match line
    case Data(before, message, after) =>
      var s := Printed(codec, line);
      assert s[..5] == "data:" && s[5..] == before + codec.dumps(message) + after;
      StripAround(before, codec.dumps(message), after);
      hide Strip;
    case Other(text) =>
      if StartsWith(text, "data:") { StripEmpty(text[5..]); }
      hide Strip;
  }

  lemma OneLine(line: string, crlf: bool)
    requires Breakless(line)
    ensures SplitLines(line + if crlf then "\r\n" else "\n") == [line]
  {
    var s := line + if crlf then "\r\n" else "\n";
    assert forall j :: 0 <= j < |line| ==> s[j] == line[j];
    assert IsBreak(s[|line|]) && BreakAt(s) == |line|;
    SplitStep(s);
    assert s[..|line|] == line && s[|s|..] == [];
    SplitNothing();
  }

  /**
    Of an event stream, whatever comments, fields and unreadable payloads stand between
    its messages, exactly the messages are queued, in order; a last line that is not
    ended is not.
  */
  lemma {:induction false} StreamIsRead(codec: Codec, lines: seq<(Line, bool)>, unended: string)
    requires Lossless(codec) && '\n' !in unended
    requires forall i :: 0 <= i < |lines| ==> Proper(codec, lines[i].0)
    ensures Batch(codec, Stream(codec, lines) + unended) == Sent(lines)
  {
    hide LinePayload, Payloads, SplitLines, Complete, Proper, Printed;
    if lines == [] {
      assert [] + unended == unended;
      CompleteNone(unended);
      NothingQueued(codec);
    } else {
      StreamIsRead(codec, lines[1..], unended);
      var text := Printed(codec, lines[0].0);
      var head := text + if lines[0].1 then "\r\n" else "\n";
      var tail := Stream(codec, lines[1..]) + unended;
      assert Stream(codec, lines) + unended == head + tail && head[|head| - 1] == '\n';
      CompleteSplit(head, tail);
      SplitComplete(head, Complete(tail));
      assert Breakless(text) by { ProperBreakless(codec, lines[0].0); }
      OneLine(text, lines[0].1);
      PrintedRead(codec, lines[0].0);
      OneMore(codec, text, SplitLines(Complete(tail)));
    }
  }

  lemma ProperBreakless(codec: Codec, line: Line)
    requires Proper(codec, line)
    ensures Breakless(Printed(codec, line))
  {
  }
}
