/** The two wire framings: one JSON object per line, and Content-Length headers. */
module Framing {
  import opened Wrappers
  import opened Text
  import opened Json

  /** What a reader returns: a value (null also stands for the end of the stream) or an exception. */
  datatype Reading = Got(value: Json, rest: string) | Raised

  /** `readline()`: up to and including the next newline, or all that is left. */
  function LineLength(s: string): (n: nat)
    ensures n <= |s| && (s != [] ==> n > 0)
  {
    Min(IndexOf(s, '\n') + 1, |s|)
  }

  class TextStream {
    var text: string

    constructor (text: string)
      ensures this.text == text
    {
      this.text := text;
    }

    method ReadLine() returns (line: string)
      modifies this
      ensures old(text) == line + text && |line| == LineLength(old(text))
    {
      var n := LineLength(text);
      line := text[..n];
      text := text[n..];
    }

    method Read(n: nat) returns (part: string)
      modifies this
      ensures old(text) == part + text && |part| == Min(n, |old(text)|)
    {
      var k := Min(n, |text|);
      part := text[..k];
      text := text[k..];
    }

    method Write(part: string)
      modifies this
      ensures text == old(text) + part
    {
      text := text + part;
    }
  }

  // ----- newline-delimited

  function ReadMessage(codec: Codec, s: string): (r: Reading)
    ensures r.Got? ==> |r.rest| < |s| || (r.value.Null? && r.rest == [])
    decreases |s|
  {
    if s == [] then Got(Null, [])
    else
      var n := LineLength(s);
      var line := Strip(s[..n]);
      if line == [] then ReadMessage(codec, s[n..])
      else match codec.loads(line)
        case None => Raised
        case Some(v) => Got(v, s[n..])
  }

  method ReadMessageFrom(codec: Codec, stream: TextStream) returns (r: Option<Json>)
    modifies stream
    ensures match ReadMessage(codec, old(stream.text))
            case Got(v, rest) => r == Some(v) && stream.text == rest
            case Raised => r == None
  {
    while stream.text != []
      invariant ReadMessage(codec, stream.text) == ReadMessage(codec, old(stream.text))
      decreases |stream.text|
    {
      ghost var before := stream.text;
      var line := stream.ReadLine();
      assert before[..|line|] == line && before[|line|..] == stream.text;
      line := Strip(line);
      if line != [] {
        return codec.loads(line);
      }
    }
    return Some(Null);
  }

  function Frame(codec: Codec, m: Json): string {
    codec.dumps(m) + "\n"
  }

  method WriteMessage(codec: Codec, stream: TextStream, m: Json)
    modifies stream
    ensures stream.text == old(stream.text) + Frame(codec, m)
  {
    stream.Write(codec.dumps(m) + "\n");
  }

  /** One written message is read back whole, and reading stops exactly behind it. */
  lemma ReadFramed(codec: Codec, m: Json, rest: string)
    requires Lossless(codec)
    ensures ReadMessage(codec, Frame(codec, m) + rest) == Got(m, rest)
  {
    var body := codec.dumps(m);
    var s := Frame(codec, m) + rest;
    assert s == body + ['\n'] + rest;
    IndexOfPrefix(body, '\n', rest);
    assert s[..|body| + 1] == [] + body + "\n";
    StripAround([], body, "\n");
    assert s[|body| + 1..] == rest;
  }

  /**
    Any line: a blank one is passed over, another is parsed without the white space
    around it, and what does not parse raises.
  */
  lemma LineRead(codec: Codec, line: string, rest: string)
    requires '\n' !in line
    ensures
      ReadMessage(codec, line + "\n" + rest) ==
        if Blank(line) then ReadMessage(codec, rest)
        else
          match codec.loads(Strip(line))
          case None => Raised
          case Some(v) => Got(v, rest)
  {
    var s := line + "\n" + rest;
    assert s == line + ['\n'] + rest;
    IndexOfPrefix(line, '\n', rest);
    assert s[..|line| + 1] == line + ['\n'] && s[|line| + 1..] == rest;
    StripTrailing(line, '\n');
    StripEmpty(line);
    hide Strip, Blank;
  }

  /** The last line may lack its newline. */
  lemma LastLineRead(codec: Codec, line: string)
    requires '\n' !in line
    ensures
      ReadMessage(codec, line) ==
        if Blank(line) then Got(Null, [])
        else
          match codec.loads(Strip(line))
          case None => Raised
          case Some(v) => Got(v, [])
  {
    StripEmpty(line);
    assert Blank([]);
    hide Strip, Blank;
    if line != [] {
      assert LineLength(line) == |line| && line[..|line|] == line && line[|line|..] == [];
      assert ReadMessage(codec, []) == Got(Null, []);
    }
  }

  function FrameAll(codec: Codec, messages: seq<Json>): string {
    if messages == [] then [] else Frame(codec, messages[0]) + FrameAll(codec, messages[1..])
  }

  /** The reader's loop: messages up to the end of the stream; None when reading raises. */
  function ReadAll(codec: Codec, s: string): Option<seq<Json>>
    decreases |s|
  {
    match ReadMessage(codec, s)
    case Raised => None
    case Got(v, rest) =>
      if v.Null? then Some([])
      else match ReadAll(codec, rest)
        case None => None
        case Some(more) => Some([v] + more)
  }

  lemma ReadAllStep(codec: Codec, s: string, v: Json, rest: string, more: seq<Json>)
    requires ReadMessage(codec, s) == Got(v, rest) && !v.Null? && ReadAll(codec, rest) == Some(more)
    ensures ReadAll(codec, s) == Some([v] + more)
  {
  }

  /** The messages before the first null one. */
  function UpToNull(messages: seq<Json>): seq<Json> {
    if messages == [] || messages[0].Null? then [] else [messages[0]] + UpToNull(messages[1..])
  }

  lemma {:induction false} WholeUpToNull(messages: seq<Json>)
    ensures UpToNull(messages) == messages <==> Null !in messages
  {
    if messages != [] {
      WholeUpToNull(messages[1..]);
      assert messages == [messages[0]] + messages[1..];
    }
  }

  /** Written messages are read back up to the first null one, so all of them exactly when none is null. */
  lemma {:induction false} FramingRoundTrip(codec: Codec, messages: seq<Json>)
    requires Lossless(codec)
    ensures ReadAll(codec, FrameAll(codec, messages)) == Some(UpToNull(messages))
    ensures ReadAll(codec, FrameAll(codec, messages)) == Some(messages) <==> Null !in messages
  {
    WholeUpToNull(messages);
    if messages == [] {
      assert ReadMessage(codec, []) == Got(Null, []);
    } else {
      var first, rest := messages[0], messages[1..];
      ReadFramed(codec, first, FrameAll(codec, rest));
      FramingRoundTrip(codec, rest);
      if !first.Null? {
        ReadAllStep(codec, FrameAll(codec, messages), first, FrameAll(codec, rest), UpToNull(rest));
      }
    }
  }

  // ----- Content-Length

  const CONTENT_LENGTH := "Content-Length"

  function AddHeader(headers: map<string, string>, line: string): map<string, string> {
    var i := IndexOf(line, ':');
    if i == |line| then headers
    else headers[Lower(Strip(line[..i])) := Strip(line[i + 1..])]
  }

  /** Header lines up to the first blank one; None when the stream ends before it. */
  function ReadHeaders(s: string, headers: map<string, string>): (r: Option<(map<string, string>, string)>)
    ensures r.Some? ==> |r.value.1| < |s|
    decreases |s|
  {
    if s == [] then None
    else
      var n := LineLength(s);
      var line := Strip(s[..n]);
      if line == [] then Some((headers, s[n..])) else ReadHeaders(s[n..], AddHeader(headers, line))
  }

  function BodyLength(headers: map<string, string>): Option<int> {
    ParseInt(if "content-length" in headers then headers["content-length"] else "0")
  }

  function ReadHttpMessage(codec: Codec, s: string): (r: Reading)
    ensures r.Got? ==> |r.rest| < |s| || (r.value.Null? && r.rest == [])
  {
    match ReadHeaders(s, map[])
    case None => Got(Null, [])
    case Some((headers, rest)) =>
      match BodyLength(headers)
      case None => Raised
      case Some(length) =>
        if length <= 0 then Got(Null, rest)
        else
          var k := Min(length, |rest|);
          match codec.loads(rest[..k])
          case None => Raised
          case Some(v) => Got(v, rest[k..])
  }

  method ReadHttpMessageFrom(codec: Codec, stream: TextStream) returns (r: Option<Json>)
    modifies stream
    ensures match ReadHttpMessage(codec, old(stream.text))
            case Got(v, rest) => r == Some(v) && stream.text == rest
            case Raised => r == None
  {
    var headers: map<string, string> := map[];
    var line := "x";
    while line != []
      invariant line != [] ==> ReadHeaders(stream.text, headers) == ReadHeaders(old(stream.text), map[])
      invariant line == [] ==> Some((headers, stream.text)) == ReadHeaders(old(stream.text), map[])
      decreases |stream.text|, |line|
    {
      ghost var before := stream.text;
      line := stream.ReadLine();
      assert before[..|line|] == line && before[|line|..] == stream.text;
      if line == [] {
        return Some(Null);
      }
      line := Strip(line);
      if line != [] {
        headers := AddHeader(headers, line);
      }
    }
    var length := BodyLength(headers);
    if length.None? {
      return None;
    }
    if length.value <= 0 {
      return Some(Null);
    }
    ghost var before := stream.text;
    var body := stream.Read(length.value);
    assert before[..|body|] == body && before[|body|..] == stream.text;
    return codec.loads(body);
  }

  /** Any header line: name and value are taken without the white space around them, a line without a colon is not. */
  lemma AnyHeader(headers: map<string, string>, name: string, value: string)
    requires ':' !in name
    ensures AddHeader(headers, name + ":" + value) == headers[Lower(Strip(name)) := Strip(value)]
    ensures AddHeader(headers, name) == headers
  {
    hide Strip, Lower, IndexFrom;
    var line := name + ":" + value;
    assert line == name + [':'] + value;
    IndexOfPrefix(name, ':', value);
    assert line[..|name|] == name && line[|name| + 1..] == value;
  }

  /** A header line is taken in without the white space around it, and a blank line ends the headers. */
  lemma HeaderLineRead(line: string, rest: string, headers: map<string, string>)
    requires '\n' !in line
    ensures ReadHeaders(line + "\n" + rest, headers) ==
              if Blank(line) then Some((headers, rest)) else ReadHeaders(rest, AddHeader(headers, Strip(line)))
  {
    var s := line + "\n" + rest;
    assert s == line + ['\n'] + rest;
    IndexOfPrefix(line, '\n', rest);
    assert s[..|line| + 1] == line + ['\n'] && s[|line| + 1..] == rest;
    StripTrailing(line, '\n');
    StripEmpty(line);
    hide Strip, Blank;
  }

  /** What becomes of the text behind the headers: a length that is missing or not positive gives no message. */
  lemma BodyRead(codec: Codec, s: string, headers: map<string, string>, rest: string)
    requires ReadHeaders(s, map[]) == Some((headers, rest))
    ensures
      var length := if "content-length" in headers then ParseInt(headers["content-length"]) else Some(0);
      match length
      case None => ReadHttpMessage(codec, s) == Raised
      case Some(n) =>
        if n <= 0 then ReadHttpMessage(codec, s) == Got(Null, rest)
        else
          match codec.loads(rest[..Min(n, |rest|)])
          case None => ReadHttpMessage(codec, s) == Raised
          case Some(v) => ReadHttpMessage(codec, s) == Got(v, rest[Min(n, |rest|)..])
  {
    assert ParseInt("0") == Some(0) by {
      assert Decimal(0) == "0";
      DecimalRoundTrip(0);
    }
  }

  function HttpFrame(codec: Codec, m: Json): string {
    var body := codec.dumps(m);
    CONTENT_LENGTH + ": " + Decimal(|body|) + "\r\n\r\n" + body
  }

  method WriteHttpMessage(codec: Codec, stream: TextStream, m: Json)
    modifies stream
    ensures stream.text == old(stream.text) + HttpFrame(codec, m)
  {
    var body := codec.dumps(m);
    stream.Write(CONTENT_LENGTH + ": " + Decimal(|body|) + "\r\n\r\n" + body);
  }

  /** A well-formed header line is parsed to its name, in lower case, and its value. */
  lemma HeaderParsed(headers: map<string, string>, name: string, value: string)
    requires Trimmed(name) && Trimmed(value) && ':' !in name
    ensures AddHeader(headers, name + ": " + value) == headers[Lower(name) := value]
  {
    hide Strip, Lower, IndexFrom;
    var line := name + ": " + value;
    assert line == name + [':'] + (" " + value);
    IndexOfPrefix(name, ':', " " + value);
    assert line[..|name|] == [] + name + [] && line[|name| + 1..] == " " + value + [];
    StripAround([], name, []);
    StripAround(" ", value, []);
  }

  lemma LineStripped(name: string, value: string)
    requires Trimmed(name) && Trimmed(value)
    ensures Strip(name + ": " + value + "\r\n") == name + ": " + value
  {
    var line := name + ": " + value;
    assert line[0] == name[0] && line[|line| - 1] == value[|value| - 1];
    StripAround([], line, "\r\n");
    assert [] + line + "\r\n" == line + "\r\n";
  }

  lemma LengthHeaderName()
    ensures Trimmed(CONTENT_LENGTH) && ':' !in CONTENT_LENGTH && '\n' !in CONTENT_LENGTH
    ensures Lower(CONTENT_LENGTH) == "content-length"
  {
    var lower := "content-length";
    assert forall i :: 0 <= i < 14 ==> LowerChar(CONTENT_LENGTH[i]) == lower[i];
  }

  lemma LengthLine(n: nat)
    ensures
      var line := CONTENT_LENGTH + ": " + Decimal(n);
      && Strip(line + "\r\n") == line && line != []
      && '\n' !in line
      && AddHeader(map[], line) == map["content-length" := Decimal(n)]
  {
    DecimalRoundTrip(n);
    LengthHeaderName();
    LineStripped(CONTENT_LENGTH, Decimal(n));
    HeaderParsed(map[], CONTENT_LENGTH, Decimal(n));
  }

  lemma HeadersParsed(n: nat, rest: string)
    ensures ReadHeaders(CONTENT_LENGTH + ": " + Decimal(n) + "\r\n\r\n" + rest, map[]) ==
              Some((map["content-length" := Decimal(n)], rest))
  {
    var line := CONTENT_LENGTH + ": " + Decimal(n);
    var s := line + "\r\n\r\n" + rest;
    LengthLine(n);
    assert s == (line + "\r") + ['\n'] + ("\r\n" + rest);
    IndexOfPrefix(line + "\r", '\n', "\r\n" + rest);
    assert s[..|line| + 2] == line + "\r\n" && s[|line| + 2..] == "\r\n" + rest;
    var t := "\r\n" + rest;
    assert t == "\r" + ['\n'] + rest;
    IndexOfPrefix("\r", '\n', rest);
    assert t[..2] == "\r\n" && t[2..] == rest;
    StripBlank("\r\n");
    assert ReadHeaders(t, map["content-length" := Decimal(n)]) == Some((map["content-length" := Decimal(n)], rest));
  }

  /** A Content-Length frame is read back whole, and reading stops exactly behind it. */
  lemma ReadHttpFramed(codec: Codec, m: Json, rest: string)
    requires Lossless(codec)
    ensures ReadHttpMessage(codec, HttpFrame(codec, m) + rest) == Got(m, rest)
  {
    var body := codec.dumps(m);
    assert HttpFrame(codec, m) + rest == CONTENT_LENGTH + ": " + Decimal(|body|) + "\r\n\r\n" + (body + rest);
    HeadersParsed(|body|, body + rest);
    DecimalRoundTrip(|body|);
    assert (body + rest)[..|body|] == body && (body + rest)[|body|..] == rest;
  }

  function HttpFrameAll(codec: Codec, messages: seq<Json>): string {
    if messages == [] then [] else HttpFrame(codec, messages[0]) + HttpFrameAll(codec, messages[1..])
  }

  function ReadAllHttp(codec: Codec, s: string): Option<seq<Json>>
    decreases |s|
  {
    match ReadHttpMessage(codec, s)
    case Raised => None
    case Got(v, rest) =>
      if v.Null? then Some([])
      else match ReadAllHttp(codec, rest)
        case None => None
        case Some(more) => Some([v] + more)
  }

  lemma ReadAllHttpStep(codec: Codec, s: string, v: Json, rest: string, more: seq<Json>)
    requires ReadHttpMessage(codec, s) == Got(v, rest) && !v.Null? && ReadAllHttp(codec, rest) == Some(more)
    ensures ReadAllHttp(codec, s) == Some([v] + more)
  {
  }

  /** The same for Content-Length frames. */
  lemma {:induction false} HttpFramingRoundTrip(codec: Codec, messages: seq<Json>)
    requires Lossless(codec)
    ensures ReadAllHttp(codec, HttpFrameAll(codec, messages)) == Some(UpToNull(messages))
    ensures ReadAllHttp(codec, HttpFrameAll(codec, messages)) == Some(messages) <==> Null !in messages
  {
    WholeUpToNull(messages);
    if messages == [] {
      assert ReadHttpMessage(codec, []) == Got(Null, []);
    } else {
      var first, rest := messages[0], messages[1..];
      ReadHttpFramed(codec, first, HttpFrameAll(codec, rest));
      HttpFramingRoundTrip(codec, rest);
      if !first.Null? {
        ReadAllHttpStep(codec, HttpFrameAll(codec, messages), first, HttpFrameAll(codec, rest), UpToNull(rest));
      }
    }
  }
}
