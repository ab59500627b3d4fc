/** What the client sees of a tool call: the policy's answer, or the server's as far as the policy lets it through. */
module GatewayResponses {
  import opened Wrappers
  import opened Json
  import opened Policy
  import opened Gateway
  import opened GatewayRuns

  // ----- a tool call, as its message spells it out

  /** The message calls the tool with these arguments; `p` are its parameters, none when the field counts as unset. */
  predicate Calls(env: Env, m: Fields, p: Fields, tool: string, arguments: Json) {
    && Get(m, "method") == Str("tools/call")
    && (Get(m, "params") == Obj(p) || (Unset(Get(m, "params")) && p == map[]))
    && (match Get(p, "name")
        case Str(name) => tool == name
        case _ => tool == if "name" in p then env.show(p["name"]) else "")
    && arguments == if Unset(Get(p, "arguments")) then Obj(map[]) else Get(p, "arguments")
  }

  lemma CallsAre(env: Env, m: Fields, p: Fields, tool: string, arguments: Json)
    requires Calls(env, m, p, tool, arguments)
    ensures IsToolCall(m) && Params(m) == Some(p) && Gateway.Text(env, Tool(p)) == tool && Arguments(p) == arguments
  {
    TruthyOrUnset(Get(m, "params"));
    TruthyOrUnset(Get(p, "arguments"));
  }

  /** An error of the gateway's own. */
  function Refusal(id: Json, reason: string): Json {
    Obj(map[
      "jsonrpc" := Str("2.0"),
      "id" := id,
      "error" := Obj(map["code" := Num(-32000), "message" := Str("blocked by PySetu policy: " + reason)])])
  }

  // ----- the texts of a result

  predicate IsText(block: Json, text: string) {
    block.Obj? && Get(block.fields, "type") == Str("text") && Get(block.fields, "text") == Str(text)
  }

  predicate IsResource(block: Json, text: string) {
    && block.Obj? && Get(block.fields, "type") == Str("resource")
    && Get(block.fields, "resource").Obj? && Get(Get(block.fields, "resource").fields, "text") == Str(text)
  }

  /** One of the blocks carries the text. */
  predicate Shows(items: seq<Json>, text: string) {
    exists i :: 0 <= i < |items| && (IsText(items[i], text) || IsResource(items[i], text))
  }

  predicate Finds(env: Env, text: string) {
    env.detector(text).classifications != []
  }

  predicate Replaces(env: Env, text: string) {
    Finds(env, text) && env.detector(text).redacted.Some?
  }

  lemma BlockTextIs(block: Json, text: string)
    ensures BlockText(block) == Some(text) <==> IsText(block, text) || IsResource(block, text)
  {
  }

  /** The block with its text, if anything is found in it, replaced by the redacted copy, and nothing else changed. */
  ghost predicate RedactedBlock(env: Env, before: Json, after: Json) {
    && (forall text :: IsText(before, text) && Replaces(env, text) ==>
          after == Obj(before.fields["text" := Str(env.detector(text).redacted.value)]))
    && (forall text :: IsResource(before, text) && Replaces(env, text) ==>
          after == Obj(before.fields["resource" :=
            Obj(before.fields["resource"].fields["text" := Str(env.detector(text).redacted.value)])]))
    && ((forall text :: IsText(before, text) || IsResource(before, text) ==> !Replaces(env, text)) ==> after == before)
  }

  lemma RedactBlockIs(env: Env, block: Json)
    ensures RedactedBlock(env, block, RedactBlock(env, block))
  {
    match BlockText(block)
    case None =>
      forall text ensures !IsText(block, text) && !IsResource(block, text) { BlockTextIs(block, text); }
    case Some(text) =>
      BlockTextIs(block, text);
  }

  /** Labels of everything found in the texts: which there are, in any order. */
  ghost predicate LabelsOf(env: Env, items: seq<Json>, labels: seq<string>) {
    forall l :: l in labels <==> exists text :: Shows(items, text) && l in env.detector(text).classifications
  }

  lemma {:induction false} ContentLabelsAre(env: Env, items: seq<Json>, l: string)
    ensures l in ContentLabels(env, items) <==>
              exists text :: Shows(items, text) && l in env.detector(text).classifications
  {
    hide IsText, IsResource, BlockText;
    if items != [] {
      var n := |items| - 1;
      ContentLabelsAre(env, items[..n], l);
      forall text
        ensures Shows(items, text) <==> Shows(items[..n], text) || BlockText(items[n]) == Some(text)
      {
        BlockTextIs(items[n], text);
        assert forall i :: 0 <= i < n ==> items[i] == items[..n][i];
      }
    }
  }

  lemma AnyReplaced(env: Env, items: seq<Json>)
    ensures (exists b :: b in items && Redactable(env, b)) <==> exists text :: Shows(items, text) && Replaces(env, text)
  {
    hide IsText, IsResource, BlockText;
    if b :| b in items && Redactable(env, b) {
      BlockTextIs(b, BlockText(b).value);
      assert Shows(items, BlockText(b).value);
    }
    if text :| Shows(items, text) && Replaces(env, text) {
      var i :| 0 <= i < |items| && (IsText(items[i], text) || IsResource(items[i], text));
      BlockTextIs(items[i], text);
      assert Redactable(env, items[i]);
    }
  }

  lemma FoundLabelled(env: Env, items: seq<Json>, labels: seq<string>)
    requires LabelsOf(env, items, labels)
    ensures labels == [] ==> forall text :: Shows(items, text) ==> !Finds(env, text)
  {
    if text :| Shows(items, text) && Finds(env, text) {
      assert env.detector(text).classifications[0] in labels;
    }
  }

  lemma RefusalIs(id: Json)
    ensures Error(id, BLOCKED_RESPONSE) == Refusal(id, "Sensitive data in tool response")
  {
  }

  // ----- what becomes of a response

  /** The response is a result with a list for its content. */
  predicate Carries(response: Json, result: Fields, items: seq<Json>) {
    response.Obj? && Get(response.fields, "result") == Obj(result) && Get(result, "content") == Arr(items)
  }

  function WithResult(response: Json, result: Fields): Json
    requires response.Obj?
  {
    Obj(response.fields["result" := Obj(result)])
  }

  /** The response with every text replaced that has a redacted copy, everything else kept. */
  ghost predicate RedactedResponse(env: Env, response: Json, result: Fields, items: seq<Json>, shown: Json)
    requires response.Obj?
  {
    exists after: seq<Json> ::
      && |after| == |items| && (forall i :: 0 <= i < |items| ==> RedactedBlock(env, items[i], after[i]))
      && shown == WithResult(response, result["content" := Arr(after)])
  }

  /** What the policy says of a tool of the server when these labels are found. */
  function ActionOn(config: Config, server: Server, tool: string, labels: seq<string>): string {
    Resolution(config.env.shell, config.policy.rules, "mcp://" + server.name + "/" + tool, labels)
  }

  /** What the client is shown of a result with these blocks, in which these labels are found. */
  ghost predicate ShownOf(
      config: Config, server: Server, id: Json, tool: string, response: Json, shown: Json,
      result: Fields, items: seq<Json>, labels: seq<string>)
    requires response.Obj?
  {
    var action := ActionOn(config, server, tool, labels);
    if labels != [] && action == "block" then shown == Refusal(id, "Sensitive data in tool response")
    else if action == "redact" && exists text :: Shows(items, text) && Replaces(config.env, text) then
      RedactedResponse(config.env, response, result, items, shown)
    else shown == response
  }

  /** What the client is shown of a response: an error, the redacted response, or the response as it came. */
  ghost predicate Filtered(config: Config, server: Server, id: Json, tool: string, response: Json, shown: Json) {
    && (!config.redactResponses || (forall result, items :: !Carries(response, result, items)) ==> shown == response)
    && forall result, items, labels ::
         config.redactResponses && Carries(response, result, items) && LabelsOf(config.env, items, labels) ==>
           ShownOf(config, server, id, tool, response, shown, result, items, labels)
  }

  lemma ContentRedacted(env: Env, response: Json, result: Fields, items: seq<Json>)
    requires Carries(response, result, items)
    ensures
      RedactedResponse(env, response, result, items,
                       WithResult(response, result["content" := Arr(RedactContent(env, items))]))
  {
    hide RedactedBlock, RedactBlock;
    var after := RedactContent(env, items);
    forall i | 0 <= i < |items| ensures RedactedBlock(env, items[i], after[i]) {
      RedactBlockIs(env, items[i]);
    }
  }

  lemma CarriesOne(response: Json, result: Fields, items: seq<Json>)
    requires Carries(response, result, items)
    ensures response.Obj?
    ensures Get(response.fields, "result").Obj? && Get(response.fields, "result").fields == result
    ensures Get(result, "content").Arr? && Get(result, "content").items == items
  {
  }

  lemma DecidedBy(
      config: Config, server: Server, tool: Json, result: Fields, items: seq<Json>, labels: seq<string>)
    requires Get(result, "content") == Arr(items) && LabelsOf(config.env, items, labels)
    ensures
      var action := ActionOn(config, server, Gateway.Text(config.env, tool), labels);
      DecideToolResponse(config, server, tool, result) ==
        if labels != [] && action == "block" then BlockResponse
        else if action == "redact" && exists text :: Shows(items, text) && Replaces(config.env, text) then
          RedactResponse(result["content" := Arr(RedactContent(config.env, items))])
        else AllowResponse
  {
    SameLabels(config.env, items, labels);
    FoundLabelled(config.env, items, labels);
    LabelsAsSet(config.env.shell, config.policy.rules, Resource(config.env, server, tool),
                ContentLabels(config.env, items), labels);
    AnyReplaced(config.env, items);
    hide Resolution, Shows, Finds, RedactContent, Redactable, Get, ContentLabels, LabelsOf;
  }

  lemma FilterBy(config: Config, server: Server, id: Json, tool: Json, response: Json, result: Fields)
    requires config.redactResponses && response.Obj? && Get(response.fields, "result") == Obj(result)
    ensures
      FilterResponse(config, server, id, tool, response) ==
        match DecideToolResponse(config, server, tool, result)
        case AllowResponse => response
        case BlockResponse => Error(id, BLOCKED_RESPONSE)
        case RedactResponse(redacted) => WithResult(response, redacted)
  {
    hide DecideToolResponse, Error, BLOCKED_RESPONSE;
  }

  lemma FilterOne(
      config: Config, server: Server, id: Json, tool: Json, response: Json,
      result: Fields, items: seq<Json>, labels: seq<string>)
    requires config.redactResponses && Carries(response, result, items) && LabelsOf(config.env, items, labels)
    ensures ShownOf(config, server, id, Gateway.Text(config.env, tool), response,
                    FilterResponse(config, server, id, tool, response), result, items, labels)
  {
    CarriesOne(response, result, items);
    DecidedBy(config, server, tool, result, items, labels);
    ContentRedacted(config.env, response, result, items);
    RefusalIs(id);
    FilterBy(config, server, id, tool, response, result);
    hide RedactedResponse, Shows, Replaces, RedactContent, Get, Carries, Refusal, Error, FilterResponse,
         LabelsOf, BLOCKED_RESPONSE, DecideToolResponse, ActionOn, WithResult;
  }

  lemma SameLabels(env: Env, items: seq<Json>, labels: seq<string>)
    requires LabelsOf(env, items, labels)
    ensures forall l :: l in ContentLabels(env, items) <==> l in labels
    ensures ContentLabels(env, items) == [] <==> labels == []
  {
    hide Shows, ContentLabels;
    forall l ensures l in ContentLabels(env, items) <==> l in labels {
      ContentLabelsAre(env, items, l);
    }
    var given := ContentLabels(env, items);
    if given != [] { assert given[0] in labels; }
    if labels != [] { assert labels[0] in given; }
  }

  lemma NotCarried(config: Config, server: Server, id: Json, tool: Json, response: Json)
    requires !config.redactResponses || forall result, items :: !Carries(response, result, items)
    ensures FilterResponse(config, server, id, tool, response) == response
  {
    if config.redactResponses && response.Obj? && Get(response.fields, "result").Obj? {
      var result := Get(response.fields, "result").fields;
      assert Get(result, "content").Arr? ==> Carries(response, result, Get(result, "content").items);
    }
  }

  lemma FilteredIs(config: Config, server: Server, id: Json, tool: Json, response: Json)
    ensures Filtered(config, server, id, Gateway.Text(config.env, tool), response,
                     FilterResponse(config, server, id, tool, response))
  {
    var shown := FilterResponse(config, server, id, tool, response);
    if !config.redactResponses || forall result, items :: !Carries(response, result, items) {
      NotCarried(config, server, id, tool, response);
    }
    hide Carries, FilterResponse, LabelsOf, ShownOf;
    forall result, items, labels |
      config.redactResponses && Carries(response, result, items) && LabelsOf(config.env, items, labels)
      ensures ShownOf(config, server, id, Gateway.Text(config.env, tool), response, shown, result, items, labels)
    {
      FilterOne(config, server, id, tool, response, result, items, labels);
    }
  }

  // ----- one message

  /** What the policy makes of the arguments: a reason to refuse, or the message the server gets. */
  datatype Passage = Refused(reason: string) | Passed(message: Fields)

  /** The passage of a tool call, from its parts. */
  function PassageOf(config: Config, server: Server, m: Fields, p: Fields, tool: string, arguments: Json): Passage {
    var scan := config.env.detector(config.env.codec.dumps(arguments));
    var action := ActionOn(config, server, tool, scan.classifications);
    if scan.classifications == [] then Passed(m)
    else if action == "block" then Refused("Sensitive data in tool arguments")
    else if action != "redact" || scan.redacted.None? then Passed(m)
    else
      match config.env.codec.loads(scan.redacted.value)
      case None => Refused("Redaction would produce invalid tool arguments")
      case Some(Null) => Passed(m)
      case Some(v) => Passed(m["params" := Obj(p["arguments" := v])])
  }

  lemma DecisionIs(config: Config, server: Server, m: Fields, p: Fields, tool: Json, arguments: Json)
    ensures
      match PassageOf(config, server, m, p, Gateway.Text(config.env, tool), arguments)
      case Refused(reason) => DecideToolCall(config, server, tool, arguments) == BlockCall(reason)
      case Passed(message) =>
        match DecideToolCall(config, server, tool, arguments)
        case BlockCall(_) => false
        case AllowCall => message == m
        case RedactCall(v) => message == if v.Null? then m else WithArguments(m, p, v)
  {
    hide Resolution;
  }

  /** What the server still has to say, and has been sent, once it has got a message. */
  function Sending(server: Server, up: Up, wire: Json): Up {
    Up(up.writes + [wire], up.queue + server.answer(up.writes + [wire]))
  }

  /** The state once the first pending message has been read; the end of the output can be read again. */
  function Reading(up: Up): Up
    requires up.queue != []
  {
    if up.queue[0].Null? then up else Up(up.writes, up.queue[1..])
  }

  /**
    A tool call the policy refuses is answered at once and never sent.  Any other is
    sent, with its arguments redacted where the policy says so, and the client gets
    the server's next message as far as the policy lets it through.
  */
  lemma ToolCallHandled(
      config: Config, server: Server, up: Up, m: Fields, p: Fields, tool: string, arguments: Json)
    requires Calls(config.env, m, p, tool, arguments)
    ensures
      var o := HandleMessage(config, server, up, Obj(m));
      match PassageOf(config, server, m, p, tool, arguments)
      case Refused(reason) => o == Answered(up, Refusal(Get(m, "id"), reason))
      case Passed(message) =>
        var after := Sending(server, up, Obj(message));
        if after.queue == [] then o == Blocked(after)
        else
          && o.Answered? && o.up == Reading(after)
          && Filtered(config, server, Get(m, "id"), tool, after.queue[0], o.response)
  {
    CallsAre(config.env, m, p, tool, arguments);
    DecisionIs(config, server, m, p, Tool(p), arguments);
    var passage := PassageOf(config, server, m, p, tool, arguments);
    if passage.Passed? {
      var after := Sending(server, up, Obj(passage.message));
      if after.queue != [] {
        FilteredIs(config, server, Get(m, "id"), Tool(p), after.queue[0]);
      }
    }
    hide PassageOf, DecideToolCall, Calls, Filtered, FilterResponse, Params, Tool, Arguments, WithArguments,
         Gateway.Text, Get;
  }

  /** Any other message is sent as it is; with an id it is answered by the server's next message, whole. */
  lemma OtherMessageHandled(config: Config, server: Server, up: Up, m: Fields)
    requires Get(m, "method") != Str("tools/call")
    ensures
      var after := Sending(server, up, Obj(m));
      HandleMessage(config, server, up, Obj(m)) ==
        if "id" !in m then Answered(after, Null)
        else if after.queue == [] then Blocked(after)
        else Answered(Reading(after), after.queue[0])
  {
  }

  // ----- whole runs

  /** The messages a run answers, each with its answer; null stands for none. */
  function Replies(config: Config, server: Server, up: Up, messages: seq<Json>): seq<(Json, Json)>
    decreases |messages|
  {
    if messages == [] || messages[0].Null? then []
    else
      match HandleMessage(config, server, up, messages[0])
      case Answered(after, response) => [(messages[0], response)] + Replies(config, server, after, messages[1..])
      case _ => []
  }

  function Written(replies: seq<(Json, Json)>): seq<Json> {
    if replies == [] then [] else Shown(replies[0].1) + Written(replies[1..])
  }

  /** What a run writes to the client is those answers, and they answer its messages one by one. */
  lemma {:induction false} OutIsReplies(config: Config, server: Server, up: Up, messages: seq<Json>)
    ensures
      var replies := Replies(config, server, up, messages);
      && RunGateway(config, server, up, messages).out == Written(replies)
      && |replies| <= |messages| && forall i :: 0 <= i < |replies| ==> replies[i].0 == messages[i]
    decreases |messages|
  {
    hide HandleMessage;
    if messages != [] && !messages[0].Null? && HandleMessage(config, server, up, messages[0]).Answered? {
      var o := HandleMessage(config, server, up, messages[0]);
      OutIsReplies(config, server, o.up, messages[1..]);
      var replies := Replies(config, server, up, messages);
      assert replies[1..] == Replies(config, server, o.up, messages[1..]);
    }
  }

  /**
    Where a run ends: it has answered every message up to the first null one, or fails at
    one before that which cannot be handled, or waits for the server at another.
  */
  lemma {:induction false} RunEnds(config: Config, server: Server, up: Up, messages: seq<Json>)
    ensures
      var n, status := |Replies(config, server, up, messages)|, RunGateway(config, server, up, messages).status;
      && n <= |messages| && (forall i :: 0 <= i < n ==> !messages[i].Null? && !CannotHandle(messages[i]))
      && (status == Finished <==> n == |messages| || messages[n].Null?)
      && (status == Failed <==> n < |messages| && !messages[n].Null? && CannotHandle(messages[n]))
    decreases |messages|
  {
    hide HandleMessage, CannotHandle;
    if messages != [] && !messages[0].Null? {
      var o := HandleMessage(config, server, up, messages[0]);
      RaisesIff(config, server, up, messages[0]);
      if o.Answered? {
        RunEnds(config, server, o.up, messages[1..]);
        assert forall i :: 0 < i < |messages| ==> messages[i] == messages[1..][i - 1];
      }
    }
  }

  /** Nothing is found in any text of the response. */
  ghost predicate CleanShown(env: Env, response: Json) {
    forall result, items, text :: Carries(response, result, items) && Shows(items, text) ==> !Finds(env, text)
  }

  /** The policy blocks or redacts whatever is found. */
  ghost predicate Guards(config: Config, server: Server) {
    forall tool, labels :: labels != [] ==>
      ActionOn(config, server, tool, labels) == "block" || ActionOn(config, server, tool, labels) == "redact"
  }

  /** Every finding has a redacted copy, in which nothing is found. */
  ghost predicate CopiesClean(env: Env) {
    forall text :: Finds(env, text) ==> Replaces(env, text) && !Finds(env, env.detector(text).redacted.value)
  }

  lemma RedactedBlockClean(env: Env, before: Json, after: Json, text: string)
    requires CopiesClean(env) && RedactedBlock(env, before, after) && (IsText(after, text) || IsResource(after, text))
    ensures !Finds(env, text)
  {
  }

  lemma RedactedClean(env: Env, response: Json, result: Fields, items: seq<Json>, shown: Json)
    requires CopiesClean(env) && response.Obj? && RedactedResponse(env, response, result, items, shown)
    ensures CleanShown(env, shown)
  {
    var after: seq<Json> :|
      && |after| == |items| && (forall i :: 0 <= i < |items| ==> RedactedBlock(env, items[i], after[i]))
      && shown == WithResult(response, result["content" := Arr(after)]);
    hide RedactedBlock, IsText, IsResource, Finds;
    forall result', items', text | Carries(shown, result', items') && Shows(items', text) ensures !Finds(env, text) {
      assert items' == after;
      var i :| 0 <= i < |after| && (IsText(after[i], text) || IsResource(after[i], text));
      RedactedBlockClean(env, items[i], after[i], text);
    }
  }

  lemma LabelsExist(env: Env, items: seq<Json>) returns (labels: seq<string>)
    ensures LabelsOf(env, items, labels)
  {
    hide Shows, ContentLabels;
    labels := ContentLabels(env, items);
    forall l ensures l in labels <==> exists text :: Shows(items, text) && l in env.detector(text).classifications {
      ContentLabelsAre(env, items, l);
    }
  }

  lemma SameResponseClean(env: Env, response: Json, result: Fields, items: seq<Json>)
    requires Carries(response, result, items) && forall text :: Shows(items, text) ==> !Finds(env, text)
    ensures CleanShown(env, response)
  {
    hide Shows, Finds;
  }

  lemma RefusalClean(env: Env, id: Json, reason: string)
    ensures CleanShown(env, Refusal(id, reason))
  {
    assert "result" !in Refusal(id, reason).fields;
  }

  lemma FilteredClean(config: Config, server: Server, id: Json, tool: string, response: Json, shown: Json)
    requires config.redactResponses && Guards(config, server) && CopiesClean(config.env)
    requires Filtered(config, server, id, tool, response, shown)
    ensures CleanShown(config.env, shown)
  {
    RefusalClean(config.env, id, "Sensitive data in tool response");
    hide LabelsOf, RedactedResponse, Shows, Finds, Replaces, Refusal, ActionOn, CleanShown, Carries;
    if result, items :| Carries(response, result, items) {
      var labels := LabelsExist(config.env, items);
      CarriesOne(response, result, items);
      FoundLabelled(config.env, items, labels);
      assert ShownOf(config, server, id, tool, response, shown, result, items, labels);
      if RedactedResponse(config.env, response, result, items, shown) {
        RedactedClean(config.env, response, result, items, shown);
      } else if shown == response && forall text :: Shows(items, text) ==> !Finds(config.env, text) {
        SameResponseClean(config.env, response, result, items);
      }
    } else {
      NoneCarriedClean(config.env, shown);
    }
  }

  lemma NoneCarriedClean(env: Env, response: Json)
    requires forall result, items :: !Carries(response, result, items)
    ensures CleanShown(env, response)
  {
    hide Carries;
  }

  lemma CallParts(env: Env, m: Fields) returns (p: Fields, tool: string, arguments: Json)
    requires IsToolCall(m) && Params(m).Some?
    ensures Calls(env, m, p, tool, arguments)
  {
    TruthyOrUnset(Get(m, "params"));
    p := Params(m).value;
    tool := Gateway.Text(env, Tool(p));
    arguments := if Unset(Get(p, "arguments")) then Obj(map[]) else Get(p, "arguments");
  }

  /**
    Under a policy that blocks or redacts whatever is found, and with clean redacted
    copies, no run shows the client anything that is found in the answer to a tool call.
  */
  lemma {:induction false} NothingSensitiveShown(config: Config, server: Server, up: Up, messages: seq<Json>)
    requires config.redactResponses && Guards(config, server) && CopiesClean(config.env)
    ensures
      var replies := Replies(config, server, up, messages);
      forall i :: 0 <= i < |replies| && replies[i].0.Obj? && Get(replies[i].0.fields, "method") == Str("tools/call") ==>
        CleanShown(config.env, replies[i].1)
    decreases |messages|
  {
    hide HandleMessage, Guards, CopiesClean, CleanShown;
    if messages != [] && !messages[0].Null? && HandleMessage(config, server, up, messages[0]).Answered? {
      var o := HandleMessage(config, server, up, messages[0]);
      NothingSensitiveShown(config, server, o.up, messages[1..]);
      var replies := Replies(config, server, up, messages);
      assert replies[1..] == Replies(config, server, o.up, messages[1..]);
      assert forall i :: 0 < i < |replies| ==> replies[i] == replies[1..][i - 1];
      if messages[0].Obj? && Get(messages[0].fields, "method") == Str("tools/call") {
        AnswerClean(config, server, up, messages[0].fields);
      }
    }
  }

  lemma AnswerClean(config: Config, server: Server, up: Up, m: Fields)
    requires config.redactResponses && Guards(config, server) && CopiesClean(config.env)
    requires Get(m, "method") == Str("tools/call") && HandleMessage(config, server, up, Obj(m)).Answered?
    ensures CleanShown(config.env, HandleMessage(config, server, up, Obj(m)).response)
  {
    assert Params(m).Some?;
    var p, tool, arguments := CallParts(config.env, m);
    ToolCallHandled(config, server, up, m, p, tool, arguments);
    hide HandleMessage, Guards, CopiesClean, PassageOf, Calls, Filtered;
    match PassageOf(config, server, m, p, tool, arguments)
    case Refused(reason) =>
      assert !("result" in Refusal(Get(m, "id"), reason).fields);
    case Passed(message) =>
      var after := Sending(server, up, Obj(message));
      var shown := HandleMessage(config, server, up, Obj(m)).response;
      FilteredClean(config, server, Get(m, "id"), tool, after.queue[0], shown);
  }
}
