/** The MCP gateway between one client and one upstream server: what it decides and how it handles a message. */
module Gateway {
  import opened Wrappers
  import opened Json
  import opened Detection
  import opened PathMatching
  import opened Policy

  type Fields = map<string, Json>

  /** The injected parts: the detector, the JSON codec, the printing of a value, and the file system's view of paths. */
  datatype Env = Env(detector: string -> ScanResult, codec: Codec, show: Json -> string, shell: Shell)

  /** One gateway's configuration; `answer` is what the server sends after the last of its input messages. */
  datatype Server = Server(name: string, answer: seq<Json> -> seq<Json>)

  datatype Config = Config(env: Env, policy: LocalPolicy, redactResponses: bool)

  // ----- decisions

  datatype CallDecision = AllowCall | BlockCall(reason: string) | RedactCall(arguments: Json)

  function Text(env: Env, v: Json): string {
    if v.Str? then v.s else env.show(v)
  }

  function Resource(env: Env, server: Server, tool: Json): string {
    "mcp://" + server.name + "/" + Text(env, tool)
  }

  function Action(config: Config, server: Server, tool: Json, labels: seq<string>): string {
    Resolution(config.env.shell, config.policy.rules, Resource(config.env, server, tool), labels)
  }

  function ScanArguments(env: Env, arguments: Json): ScanResult {
    env.detector(env.codec.dumps(arguments))
  }

  function DecideToolCall(config: Config, server: Server, tool: Json, arguments: Json): CallDecision {
    var scan := ScanArguments(config.env, arguments);
    if scan.classifications == [] then AllowCall
    else
      var action := Action(config, server, tool, scan.classifications);
      if action == "block" then BlockCall("Sensitive data in tool arguments")
      else if action == "redact" && scan.redacted.Some? then
        match config.env.codec.loads(scan.redacted.value)
        case None => BlockCall("Redaction would produce invalid tool arguments")
        case Some(v) => RedactCall(v)
      else AllowCall
  }

  datatype ResponseDecision = AllowResponse | BlockResponse | RedactResponse(result: Fields)

  /** The redactable text of a content block: of a text block, or of the resource in a resource block. */
  function BlockText(block: Json): Option<string> {
    if !block.Obj? then None
    else if Get(block.fields, "type") == Str("text") then
      (if Get(block.fields, "text").Str? then Some(Get(block.fields, "text").s) else None)
    else if Get(block.fields, "type") == Str("resource") then
      var resource := Get(block.fields, "resource");
      if resource.Obj? && Get(resource.fields, "text").Str? then Some(Get(resource.fields, "text").s) else None
    else None
  }

  /** The block with its text replaced. */
  function WithText(block: Json, text: string): Json
    requires BlockText(block).Some?
  {
    if Get(block.fields, "type") == Str("text") then Obj(block.fields["text" := Str(text)])
    else
      var resource := Get(block.fields, "resource");
      Obj(block.fields["resource" := Obj(resource.fields["text" := Str(text)])])
  }

  function BlockScan(env: Env, block: Json): ScanResult {
    match BlockText(block)
    case None => ScanResult([], None, 0)
    case Some(text) => env.detector(text)
  }

  function Redactable(env: Env, block: Json): bool {
    var scan := BlockScan(env, block);
    BlockText(block).Some? && scan.classifications != [] && scan.redacted.Some?
  }

  function RedactBlock(env: Env, block: Json): Json {
    if Redactable(env, block) then WithText(block, BlockScan(env, block).redacted.value) else block
  }

  function RedactContent(env: Env, items: seq<Json>): (r: seq<Json>)
    ensures |r| == |items|
    ensures forall i :: 0 <= i < |items| ==> r[i] == RedactBlock(env, items[i])
  {
    seq(|items|, i requires 0 <= i < |items| => RedactBlock(env, items[i]))
  }

  function ContentLabels(env: Env, items: seq<Json>): seq<string> {
    if items == [] then []
    else ContentLabels(env, items[..|items| - 1]) + BlockScan(env, items[|items| - 1]).classifications
  }

  function DecideToolResponse(config: Config, server: Server, tool: Json, result: Fields): ResponseDecision {
    var content := Get(result, "content");
    if !content.Arr? then AllowResponse
    else
      var labels := ContentLabels(config.env, content.items);
      if labels == [] then AllowResponse
      else
        var action := Action(config, server, tool, labels);
        if action == "block" then BlockResponse
        else if action == "redact" && exists b :: b in content.items && Redactable(config.env, b) then
          RedactResponse(result["content" := Arr(RedactContent(config.env, content.items))])
        else AllowResponse
  }

  /** The source's loop over the blocks of a copy of the result, rewriting each text in place. */
  method DecideToolResponseLoop(config: Config, server: Server, tool: Json, result: Fields)
    returns (d: ResponseDecision)
    ensures d == DecideToolResponse(config, server, tool, result)
  {
    hide BlockScan, Redactable, Action, RedactBlock;
    var content := Get(result, "content");
    if !content.Arr? {
      return AllowResponse;
    }
    var items := content.items;
    var copy := items;
    var labels := [];
    var anyRedacted := false;
    for n := 0 to |items|
      invariant |copy| == |items| && copy[n..] == items[n..]
      invariant forall i :: 0 <= i < n ==> copy[i] == RedactBlock(config.env, items[i])
      invariant labels == ContentLabels(config.env, items[..n])
      invariant anyRedacted <==> exists b :: b in items[..n] && Redactable(config.env, b)
    {
      assert items[..n + 1][..n] == items[..n];
      var scan := BlockScan(config.env, items[n]);
      labels := labels + scan.classifications;
      if Redactable(config.env, items[n]) {
        anyRedacted := true;
        assert items[n] in items[..n + 1];
      }
      copy := copy[n := RedactBlock(config.env, items[n])];
    }
    assert items[..|items|] == items && copy == RedactContent(config.env, items);
    if labels == [] {
      return AllowResponse;
    }
    var action := Action(config, server, tool, labels);
    if action == "block" {
      return BlockResponse;
    }
    if action == "redact" && anyRedacted {
      return RedactResponse(result["content" := Arr(copy)]);
    }
    return AllowResponse;
  }

  // ----- the upstream

  /**
    What has been written to the server, and what it has sent that nobody has read;
    Null marks the end of its output.
  */
  datatype Up = Up(writes: seq<Json>, queue: seq<Json>)

  function Written(up: Up, server: Server, m: Json): Up {
    var writes := up.writes + [m];
    Up(writes, up.queue + server.answer(writes))
  }

  class Upstream {
    const server: Server
    var writes: seq<Json>
    var queue: seq<Json>

    constructor (server: Server)
      ensures this.server == server && View() == Up([], [])
    {
      this.server := server;
      writes, queue := [], [];
    }

    function View(): Up
      reads this
    {
      Up(writes, queue)
    }

    method Write(m: Json)
      modifies this
      ensures View() == Written(old(View()), server, m)
    {
      writes := writes + [m];
      queue := queue + server.answer(writes);
    }

    /** None stands for waiting forever; the end of the output can be read any number of times. */
    method Read() returns (r: Option<Json>)
      modifies this
      ensures old(queue) == [] ==> r == None && View() == old(View())
      ensures old(queue) != [] ==>
                r == Some(old(queue)[0]) && writes == old(writes) && queue == AfterRead(old(queue))
    {
      if queue == [] {
        return None;
      }
      r := Some(queue[0]);
      queue := AfterRead(queue);
    }
  }

  function AfterRead(queue: seq<Json>): seq<Json>
    requires queue != []
  {
    if queue[0].Null? then queue else queue[1..]
  }

  // ----- handling one message

  /** `Answered` with Null means that nothing is written to the client. */
  datatype Outcome = Answered(up: Up, response: Json) | Blocked(up: Up) | Raised

  function Error(id: Json, text: string): Json {
    Obj(map["jsonrpc" := Str("2.0"), "id" := id, "error" := Obj(map["code" := Num(-32000), "message" := Str(text)])])
  }

  function IsToolCall(m: Fields): bool {
    Get(m, "method") == Str("tools/call")
  }

  /** `message.get("params") or {}`; None when the result is not an object. */
  function Params(m: Fields): Option<Fields> {
    var params := Get(m, "params");
    if !Truthy(params) then Some(map[]) else if params.Obj? then Some(params.fields) else None
  }

  function Tool(params: Fields): Json {
    if "name" in params then params["name"] else Str("")
  }

  function Arguments(params: Fields): Json {
    var a := Get(params, "arguments");
    if Truthy(a) then a else Obj(map[])
  }

  function WithArguments(m: Fields, params: Fields, arguments: Json): Fields {
    m["params" := Obj(params["arguments" := arguments])]
  }

  /** What reaches the upstream for a tool call, if anything does. */
  function Forward(config: Config, server: Server, m: Fields, params: Fields): Option<Fields> {
    match DecideToolCall(config, server, Tool(params), Arguments(params))
    case BlockCall(_) => None
    case AllowCall => Some(m)
    case RedactCall(v) => Some(if v.Null? then m else WithArguments(m, params, v))
  }

  const BLOCKED_RESPONSE := "blocked by PySetu policy: " + "Sensitive data in tool response"

  function FilterResponse(config: Config, server: Server, id: Json, tool: Json, response: Json): Json {
    if !config.redactResponses || !response.Obj? || !Get(response.fields, "result").Obj? then response
    else
      match DecideToolResponse(config, server, tool, Get(response.fields, "result").fields)
      case AllowResponse => response
      case BlockResponse => Error(id, BLOCKED_RESPONSE)
      case RedactResponse(result) => Obj(response.fields["result" := Obj(result)])
  }

  function HandleToolCall(config: Config, server: Server, up: Up, m: Fields): Outcome {
    match Params(m)
    case None => Raised
    case Some(params) =>
      match DecideToolCall(config, server, Tool(params), Arguments(params))
      case BlockCall(reason) => Answered(up, Error(Get(m, "id"), "blocked by PySetu policy: " + reason))
      case _ =>
        var after := Written(up, server, Obj(Forward(config, server, m, params).value));
        if after.queue == [] then Blocked(after)
        else Answered(after.(queue := AfterRead(after.queue)),
                      FilterResponse(config, server, Get(m, "id"), Tool(params), after.queue[0]))
  }

  function HandleMessage(config: Config, server: Server, up: Up, message: Json): Outcome {
    if !message.Obj? then Raised
    else if IsToolCall(message.fields) then HandleToolCall(config, server, up, message.fields)
    else
      var after := Written(up, server, message);
      if "id" !in message.fields then Answered(after, Null)
      else if after.queue == [] then Blocked(after)
      else Answered(after.(queue := AfterRead(after.queue)), after.queue[0])
  }

  datatype Reply = Reply(response: Json) | Waits | Raises

  function ReplyOf(o: Outcome): Reply {
    match o
    case Answered(_, response) => Reply(response)
    case Blocked(_) => Waits
    case Raised => Raises
  }

  function UpOf(o: Outcome, before: Up): Up {
    match o
    case Answered(up, _) => up
    case Blocked(up) => up
    case Raised => before
  }

  /** The answer to a tool call as the client gets it. */
  method FilterResponseOn(config: Config, server: Server, id: Json, tool: Json, response: Json) returns (r: Json)
    ensures r == FilterResponse(config, server, id, tool, response)
  {
    hide DecideToolResponse, Error, Get, BLOCKED_RESPONSE;
    if !config.redactResponses || !response.Obj? || !Get(response.fields, "result").Obj? {
      return response;
    }
    var d := DecideToolResponseLoop(config, server, tool, Get(response.fields, "result").fields);
    match d
    case AllowResponse => r := response;
    case BlockResponse => r := Error(id, BLOCKED_RESPONSE);
    case RedactResponse(result) => r := Obj(response.fields["result" := Obj(result)]);
  }

  method HandleToolCallOn(config: Config, upstream: Upstream, m: Fields) returns (r: Reply)
    modifies upstream
    ensures r == ReplyOf(HandleToolCall(config, upstream.server, old(upstream.View()), m))
    ensures upstream.View() ==
              UpOf(HandleToolCall(config, upstream.server, old(upstream.View()), m), old(upstream.View()))
  {
    hide DecideToolCall, FilterResponse, Error, WithArguments, Params, Tool, Arguments, Get;
    var server := upstream.server;
    var params := Params(m);
    if params.None? {
      return Raises;
    }
    var decision := DecideToolCall(config, server, Tool(params.value), Arguments(params.value));
    if decision.BlockCall? {
      return Reply(Error(Get(m, "id"), "blocked by PySetu policy: " + decision.reason));
    }
    var message := m;
    if decision.RedactCall? && !decision.arguments.Null? {
      message := WithArguments(m, params.value, decision.arguments);
    }
    upstream.Write(Obj(message));
    var read := upstream.Read();
    if read.None? {
      return Waits;
    }
    var response := FilterResponseOn(config, server, Get(m, "id"), Tool(params.value), read.value);
    return Reply(response);
  }

  method HandleMessageOn(config: Config, upstream: Upstream, message: Json) returns (r: Reply)
    modifies upstream
    ensures r == ReplyOf(HandleMessage(config, upstream.server, old(upstream.View()), message))
    ensures upstream.View() ==
              UpOf(HandleMessage(config, upstream.server, old(upstream.View()), message), old(upstream.View()))
  {
    hide HandleToolCall;
    if !message.Obj? {
      return Raises;
    }
    if IsToolCall(message.fields) {
      r := HandleToolCallOn(config, upstream, message.fields);
      return;
    }
    upstream.Write(message);
    if "id" !in message.fields {
      return Reply(Null);
    }
    var read := upstream.Read();
    r := if read.None? then Waits else Reply(read.value);
  }

  // ----- what a redacted result keeps

  /** Replacing a text leaves everything else of the block, and of its resource, alone. */
  lemma WithTextKeeps(block: Json, text: string)
    requires BlockText(block).Some?
    ensures
      var after := WithText(block, text);
      var slot := if Get(block.fields, "type") == Str("text") then "text" else "resource";
      && BlockText(after) == Some(text)
      && after.fields.Keys == block.fields.Keys
      && (forall k :: k in block.fields && k != slot ==> after.fields[k] == block.fields[k])
      && (slot == "resource" ==>
            var was, is_ := block.fields["resource"].fields, after.fields["resource"].fields;
            was.Keys == is_.Keys && forall k :: k in was && k != "text" ==> is_[k] == was[k])
  {
  }

  /**
    A redacted result has the same fields, and block by block the same content,
    except that each sensitive text with a redacted copy has become that copy.
  */
  lemma RedactionKeeps(config: Config, server: Server, tool: Json, result: Fields, redacted: Fields)
    requires DecideToolResponse(config, server, tool, result) == RedactResponse(redacted)
    ensures redacted.Keys == result.Keys
    ensures forall k :: k in result && k != "content" ==> redacted[k] == result[k]
    ensures result["content"].Arr? && redacted["content"].Arr?
    ensures
      var before, after := result["content"].items, redacted["content"].items;
      && |after| == |before|
      && forall i :: 0 <= i < |before| ==>
           (match BlockText(before[i])
            case None => after[i] == before[i]
            case Some(text) =>
              var scan := config.env.detector(text);
              if scan.classifications != [] && scan.redacted.Some?
              then BlockText(after[i]) == scan.redacted && after[i] == WithText(before[i], scan.redacted.value)
              else after[i] == before[i])
  {
    hide Action, WithText, BlockText, ContentLabels;
    var before := result["content"].items;
    forall i | 0 <= i < |before| && BlockText(before[i]).Some? && Redactable(config.env, before[i])
      ensures BlockText(RedactBlock(config.env, before[i])) == BlockScan(config.env, before[i]).redacted
    {
      WithTextKeeps(before[i], BlockScan(config.env, before[i]).redacted.value);
    }
  }
}
