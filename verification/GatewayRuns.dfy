/** The gateway's proxy loop, and what holds of every run of it. */
module GatewayRuns {
  import opened Wrappers
  import opened Json
  import opened Gateway

  /** How a run ended: at the end of the client's input, waiting for the server, or in an exception. */
  datatype Status = Finished | Waiting | Failed

  datatype Run = Run(up: Up, out: seq<Json>, status: Status)

  function Shown(response: Json): seq<Json> {
    if response.Null? then [] else [response]
  }

  /** `run_gateway`: a null message ends the loop like the end of the input does. */
  function RunGateway(config: Config, server: Server, up: Up, messages: seq<Json>): Run
    decreases |messages|
  {
    if messages == [] || messages[0].Null? then Run(up, [], Finished)
    else
      match HandleMessage(config, server, up, messages[0])
      case Raised => Run(up, [], Failed)
      case Blocked(after) => Run(after, [], Waiting)
      case Answered(after, response) =>
        var rest := RunGateway(config, server, after, messages[1..]);
        rest.(out := Shown(response) + rest.out)
  }

  lemma RunStep(config: Config, server: Server, up: Up, messages: seq<Json>)
    requires messages != [] && !messages[0].Null?
    requires HandleMessage(config, server, up, messages[0]).Answered?
    ensures
      var o := HandleMessage(config, server, up, messages[0]);
      var rest := RunGateway(config, server, o.up, messages[1..]);
      RunGateway(config, server, up, messages) == rest.(out := Shown(o.response) + rest.out)
  {
  }

  method RunGatewayLoop(config: Config, upstream: Upstream, messages: seq<Json>)
    returns (out: seq<Json>, status: Status)
    modifies upstream
    ensures RunGateway(config, upstream.server, old(upstream.View()), messages) == Run(upstream.View(), out, status)
  {
    hide HandleMessage;
    var server := upstream.server;
    out := [];
    ghost var whole := RunGateway(config, server, upstream.View(), messages);
    var n := 0;
    while n < |messages| && !messages[n].Null?
      invariant n <= |messages|
      invariant
        var rest := RunGateway(config, server, upstream.View(), messages[n..]);
        whole == rest.(out := out + rest.out)
    {
      ghost var up := upstream.View();
      assert messages[n..][0] == messages[n] && messages[n..][1..] == messages[n + 1..];
      var reply := HandleMessageOn(config, upstream, messages[n]);
      match reply
      case Raises => return out, Failed;
      case Waits => return out, Waiting;
      case Reply(response) =>
        RunStep(config, server, up, messages[n..]);
        out := out + Shown(response);
        n := n + 1;
    }
    return out, Finished;
  }

  /** A message that cannot be handled: no object, or a tool call whose parameters are given and are no object. */
  predicate CannotHandle(message: Json) {
    !message.Obj? ||
    (Get(message.fields, "method") == Str("tools/call")
     && !Unset(Get(message.fields, "params")) && !Get(message.fields, "params").Obj?)
  }

  /** Those raise, and only those. */
  lemma RaisesIff(config: Config, server: Server, up: Up, message: Json)
    ensures HandleMessage(config, server, up, message).Raised? <==> CannotHandle(message)
  {
    hide DecideToolCall, FilterResponse, Forward;
    if message.Obj? { TruthyOrUnset(Get(message.fields, "params")); }
  }

  // ----- interception

  /** What a client message puts on the wire to the server. */
  function Sent(config: Config, server: Server, message: Json): seq<Json> {
    if !message.Obj? then []
    else if !IsToolCall(message.fields) then [message]
    else
      match Params(message.fields)
      case None => []
      case Some(params) =>
        match Forward(config, server, message.fields, params)
        case None => []
        case Some(m) => [Obj(m)]
  }

  function AllSent(config: Config, server: Server, messages: seq<Json>): seq<Json> {
    if messages == [] then [] else Sent(config, server, messages[0]) + AllSent(config, server, messages[1..])
  }

  /** The messages a run takes from the client, including one it never answers. */
  function Taken(config: Config, server: Server, up: Up, messages: seq<Json>): (n: nat)
    ensures n <= |messages|
    decreases |messages|
  {
    if messages == [] || messages[0].Null? then 0
    else
      match HandleMessage(config, server, up, messages[0])
      case Raised => 1
      case Blocked(_) => 1
      case Answered(after, _) => 1 + Taken(config, server, after, messages[1..])
  }

  lemma HandleSends(config: Config, server: Server, up: Up, message: Json)
    ensures UpOf(HandleMessage(config, server, up, message), up).writes == up.writes + Sent(config, server, message)
  {
    hide DecideToolCall, FilterResponse;
  }

  /** The server's input is what was sent for each message taken, in order. */
  lemma {:induction false} WritesAreSent(config: Config, server: Server, up: Up, messages: seq<Json>)
    ensures RunGateway(config, server, up, messages).up.writes ==
              up.writes + AllSent(config, server, messages[..Taken(config, server, up, messages)])
    decreases |messages|
  {
    hide HandleMessage, Sent, AllSent;
    assert AllSent(config, server, []) == [] by { NothingSent(config, server); }
    if messages != [] && !messages[0].Null? {
      HandleSends(config, server, up, messages[0]);
      AllSentStep(config, server, messages, Taken(config, server, up, messages));
      var o := HandleMessage(config, server, up, messages[0]);
      if o.Answered? {
        RunStep(config, server, up, messages);
        WritesAreSent(config, server, o.up, messages[1..]);
      } else {
        assert messages[1..][..0] == [];
      }
    }
  }

  lemma NothingSent(config: Config, server: Server)
    ensures AllSent(config, server, []) == []
  {
  }

  lemma AllSentStep(config: Config, server: Server, messages: seq<Json>, n: nat)
    requires 0 < n <= |messages|
    ensures AllSent(config, server, messages[..n]) ==
              Sent(config, server, messages[0]) + AllSent(config, server, messages[1..][..n - 1])
  {
    assert messages[..n][1..] == messages[1..][..n - 1];
  }

  // ----- what is forwarded of a tool call

  predicate Sensitive(config: Config, arguments: Json) {
    ScanArguments(config.env, arguments).classifications != []
  }

  /** A redaction the gateway can apply: it exists and parses to something. */
  function UsableRedaction(config: Config, arguments: Json): Option<Json> {
    var scan := ScanArguments(config.env, arguments);
    match scan.redacted
    case None => None
    case Some(text) => config.env.codec.loads(text)
  }

  /**
    A tool call never reaches the server when it is sensitive and the policy blocks
    it, or redacts it to something that does not parse; it reaches it with the
    parsed redaction for arguments when the policy redacts; otherwise unchanged.
  */
  lemma ToolCallForwarding(config: Config, server: Server, m: Fields, params: Fields)
    requires IsToolCall(m) && Params(m) == Some(params)
    ensures
      var arguments := Arguments(params);
      var sent := Sent(config, server, Obj(m));
      var action := Action(config, server, Tool(params), ScanArguments(config.env, arguments).classifications);
      var redacts :=
        Sensitive(config, arguments) && action == "redact" && ScanArguments(config.env, arguments).redacted.Some?;
      && (sent == [] <==>
            || (Sensitive(config, arguments) && action == "block")
            || (redacts && UsableRedaction(config, arguments).None?))
      && (redacts && UsableRedaction(config, arguments).Some? && !UsableRedaction(config, arguments).value.Null? ==>
            sent == [Obj(WithArguments(m, params, UsableRedaction(config, arguments).value))])
      && ((!Sensitive(config, arguments) || (action != "block" && !redacts)
           || (redacts && UsableRedaction(config, arguments) == Some(Null))) ==>
            sent == [Obj(m)])
  {
    hide Action;
  }

  /** The policy blocks or redacts every sensitive call to the server. */
  ghost predicate Protects(config: Config, server: Server) {
    forall tool, arguments :: Sensitive(config, arguments) ==>
      var action := Action(config, server, tool, ScanArguments(config.env, arguments).classifications);
      action == "block" || action == "redact"
  }

  /** Every finding has a redacted copy, and what that copy parses to is clean; so is the empty object. */
  ghost predicate RedactsCleanly(config: Config) {
    && !Sensitive(config, Obj(map[]))
    && forall arguments :: Sensitive(config, arguments) ==>
         && ScanArguments(config.env, arguments).redacted.Some?
         && match UsableRedaction(config, arguments)
            case None => true
            case Some(v) => !v.Null? && !Sensitive(config, v)
  }

  /** The message is no tool call, or one whose arguments carry nothing sensitive. */
  predicate CleanCall(config: Config, message: Json) {
    message.Obj? && IsToolCall(message.fields) ==>
      Params(message.fields).Some? && !Sensitive(config, Arguments(Params(message.fields).value))
  }

  predicate AllClean(config: Config, messages: seq<Json>) {
    forall i :: 0 <= i < |messages| ==> CleanCall(config, messages[i])
  }

  lemma SentClean(config: Config, server: Server, message: Json)
    requires Protects(config, server) && RedactsCleanly(config)
    ensures AllClean(config, Sent(config, server, message))
  {
    hide Action;
    if message.Obj? && IsToolCall(message.fields) && Params(message.fields).Some? {
      var m, params := message.fields, Params(message.fields).value;
      var arguments := Arguments(params);
      ToolCallForwarding(config, server, m, params);
      if Sensitive(config, arguments) && UsableRedaction(config, arguments).Some? {
        var v := UsableRedaction(config, arguments).value;
        var after := WithArguments(m, params, v);
        assert Truthy(Get(after, "params")) by {
          assert "arguments" in Get(after, "params").fields;
        }
        assert Params(after) == Some(params["arguments" := v]);
        assert Arguments(params["arguments" := v]) == if Truthy(v) then v else Obj(map[]);
      }
    }
  }

  lemma {:induction false} SentAllClean(config: Config, server: Server, messages: seq<Json>)
    requires Protects(config, server) && RedactsCleanly(config)
    ensures AllClean(config, AllSent(config, server, messages))
  {
    if messages != [] {
      hide Sent, Protects, RedactsCleanly;
      SentClean(config, server, messages[0]);
      SentAllClean(config, server, messages[1..]);
    }
  }

  /**
    Under a policy that blocks or redacts whatever is sensitive, and a detector
    whose redactions are clean, no run sends sensitive arguments to the server.
  */
  lemma NothingSensitiveSent(config: Config, server: Server, up: Up, messages: seq<Json>)
    requires Protects(config, server) && RedactsCleanly(config) && AllClean(config, up.writes)
    ensures AllClean(config, RunGateway(config, server, up, messages).up.writes)
  {
    hide RunGateway, Taken, AllSent, Protects, RedactsCleanly;
    WritesAreSent(config, server, up, messages);
    SentAllClean(config, server, messages[..Taken(config, server, up, messages)]);
  }

  // ----- requests and responses

  /** The server answers every message that carries an id with one message of that id, and sends nothing else. */
  ghost predicate Paired(server: Server) {
    forall writes, m: Fields ::
      var out := server.answer(writes + [Obj(m)]);
      if "id" in m then |out| == 1 && out[0].Obj? && "id" in out[0].fields && out[0].fields["id"] == m["id"]
      else out == []
  }

  /** A message the loop can handle: an object, with an object or nothing for the parameters of a tool call. */
  predicate WellFormed(message: Json) {
    message.Obj? && (IsToolCall(message.fields) ==> Params(message.fields).Some?)
  }

  predicate HasId(m: Json) {
    m.Obj? && "id" in m.fields
  }

  function IdOf(m: Json): Json {
    if m.Obj? then Get(m.fields, "id") else Null
  }

  /** The ids of the messages that carry one, in order. */
  function RequestIds(messages: seq<Json>): seq<Json> {
    if messages == [] then []
    else (if HasId(messages[0]) then [IdOf(messages[0])] else []) + RequestIds(messages[1..])
  }

  function Ids(responses: seq<Json>): seq<Json> {
    seq(|responses|, i requires 0 <= i < |responses| => IdOf(responses[i]))
  }

  lemma IdsConcat(a: seq<Json>, b: seq<Json>)
    ensures Ids(a + b) == Ids(a) + Ids(b)
  {
  }

  lemma FilterKeepsId(config: Config, server: Server, id: Json, tool: Json, response: Json)
    requires response.Obj? && Get(response.fields, "id") == id
    ensures
      var r := FilterResponse(config, server, id, tool, response);
      r.Obj? && Get(r.fields, "id") == id
  {
    hide DecideToolResponse, Error;
    ErrorId(id, BLOCKED_RESPONSE);
  }

  lemma ErrorId(id: Json, text: string)
    ensures Error(id, text).Obj? && "id" in Error(id, text).fields && IdOf(Error(id, text)) == id
  {
  }

  /** One message that carries an id, or is no tool call, on an idle server. */
  lemma HandlePaired(config: Config, server: Server, up: Up, message: Json)
    requires Paired(server) && up.queue == [] && WellFormed(message)
    requires HasId(message) || !IsToolCall(message.fields)
    ensures
      var o := HandleMessage(config, server, up, message);
      && o.Answered? && o.up.queue == []
      && (HasId(message) <==> !o.response.Null?)
      && (HasId(message) ==> o.response.Obj? && IdOf(o.response) == IdOf(message))
  {
    hide DecideToolCall, FilterResponse, Paired, WithArguments;
    var m := message.fields;
    if !IsToolCall(m) {
      AnswerPaired(server, up, m);
    } else {
      var params := Params(m).value;
      var forward := Forward(config, server, m, params);
      if forward.Some? {
        WithArgumentsKeepsId(m, params);
        AnswerPaired(server, up, forward.value);
        FilterKeepsId(config, server, Get(m, "id"), Tool(params), Written(up, server, Obj(forward.value)).queue[0]);
      }
    }
  }

  lemma WithArgumentsKeepsId(m: Fields, params: Fields)
    ensures forall v ::
      var after := WithArguments(m, params, v);
      ("id" in after <==> "id" in m) && ("id" in m ==> after["id"] == m["id"])
  {
  }

  lemma AnswerPaired(server: Server, up: Up, m: Fields)
    requires Paired(server) && up.queue == []
    ensures
      var queue := Written(up, server, Obj(m)).queue;
      if "id" in m then queue != [] && queue[0].Obj? && Get(queue[0].fields, "id") == m["id"] && AfterRead(queue) == []
      else queue == []
  {
    assert Written(up, server, Obj(m)).queue == server.answer(up.writes + [Obj(m)]);
  }

  /**
    With such a server, and an id on every tool call, the client gets exactly one
    response per request, in order and with the matching id, nothing for a
    notification, and the server's output is read to the end.
  */
  lemma {:induction false} Pairing(config: Config, server: Server, up: Up, messages: seq<Json>)
    requires Paired(server) && up.queue == []
    requires forall i :: 0 <= i < |messages| ==>
               WellFormed(messages[i]) && (HasId(messages[i]) || !IsToolCall(messages[i].fields))
    ensures
      var r := RunGateway(config, server, up, messages);
      && r.status == Finished && r.up.queue == []
      && Ids(r.out) == RequestIds(messages)
    decreases |messages|
  {
    if messages == [] {
      assert RequestIds(messages) == [];
    } else {
      hide HandleMessage, Paired, RunGateway;
      HandlePaired(config, server, up, messages[0]);
      var o := HandleMessage(config, server, up, messages[0]);
      RunStep(config, server, up, messages);
      Pairing(config, server, o.up, messages[1..]);
      IdsConcat(Shown(o.response), RunGateway(config, server, o.up, messages[1..]).out);
    }
  }

  /** A tool call without an id leaves the gateway waiting forever exactly when the policy lets it through. */
  lemma ToolNotificationWaits(config: Config, server: Server, up: Up, message: Json)
    requires Paired(server) && up.queue == [] && WellFormed(message)
    requires IsToolCall(message.fields) && !HasId(message)
    ensures HandleMessage(config, server, up, message).Blocked? <==> Sent(config, server, message) != []
    ensures Sent(config, server, message) == [] ==>
              HandleMessage(config, server, up, message).Answered?
              && IdOf(HandleMessage(config, server, up, message).response) == Null
              && HandleMessage(config, server, up, message).response.Obj?
  {
    hide DecideToolCall, FilterResponse, Paired, WithArguments;
    var m := message.fields;
    var params := Params(m).value;
    var forward := Forward(config, server, m, params);
    if forward.Some? {
      WithArgumentsKeepsId(m, params);
      AnswerPaired(server, up, forward.value);
    }
  }
}
