/** Several gateways in one process: every message is routed to the server it names. */
module Multiplex {
  import opened Wrappers
  import opened Json
  import opened Gateway
  import opened GatewayRuns

  datatype Route = To(name: string) | Unknown(asked: string) | BadKey

  /** The server a name stands for: the last one declared under it. */
  function Lookup(servers: seq<Server>, name: string): Option<Server> {
    if servers == [] then None
    else
      var last := servers[|servers| - 1];
      if last.name == name then Some(last) else Lookup(servers[..|servers| - 1], name)
  }

  predicate Declared(servers: seq<Server>, name: string) {
    exists i :: 0 <= i < |servers| && servers[i].name == name
  }

  /** Non-empty lists and objects, which cannot be looked up. */
  predicate Unhashable(v: Json) {
    (v.Arr? || v.Obj?) && !Unset(v)
  }

  /** The message names the server in its `server` field, or names none and this is the first. */
  predicate MeantFor(servers: seq<Server>, m: Fields, name: string) {
    && name != ""
    && (|| Get(m, "server") == Str(name)
        || (Unset(Get(m, "server")) && servers != [] && servers[0].name == name))
  }

  function RouteName(servers: seq<Server>, name: string): Route {
    if name != [] && Lookup(servers, name).Some? then To(name) else Unknown(name)
  }

  /**
    The `server` field, or the first server when it is missing or false; numbers
    and booleans name no server, and lists and objects cannot be looked up at all.
  */
  function RouteOf(config: Config, servers: seq<Server>, m: Fields): Route {
    var key := Get(m, "server");
    if !Truthy(key) then (if servers == [] then Unknown("None") else RouteName(servers, servers[0].name))
    else match key
      case Str(name) => RouteName(servers, name)
      case Arr(_) => BadKey
      case Obj(_) => BadKey
      case _ => Unknown(config.env.show(key))
  }

  /** A response, and the server that was asked; None when no server was. */
  datatype Tagged = Tagged(from: Option<string>, response: Json)

  datatype MuxOutcome =
    | MuxAnswered(ups: map<string, Up>, from: Option<string>, response: Json)
    | MuxBlocked(ups: map<string, Up>)
    | MuxRaised

  function HandleRouted(config: Config, servers: seq<Server>, ups: map<string, Up>, message: Json): MuxOutcome {
    if !message.Obj? then MuxRaised
    else
      match RouteOf(config, servers, message.fields)
      case BadKey => MuxRaised
      case Unknown(asked) =>
        MuxAnswered(ups, None, Error(Get(message.fields, "id"), "unknown MCP server: " + asked))
      case To(name) =>
        if name !in ups || Lookup(servers, name).None? then MuxRaised
        else
          match HandleMessage(config, Lookup(servers, name).value, ups[name], message)
          case Raised => MuxRaised
          case Blocked(up) => MuxBlocked(ups[name := up])
          case Answered(up, response) => MuxAnswered(ups[name := up], Some(name), response)
  }

  datatype MuxRun = MuxRun(ups: map<string, Up>, out: seq<Tagged>, status: Status)

  function Tag(from: Option<string>, response: Json): seq<Tagged> {
    if response.Null? then [] else [Tagged(from, response)]
  }

  function RunMultiplex(config: Config, servers: seq<Server>, ups: map<string, Up>, messages: seq<Json>): MuxRun
    decreases |messages|
  {
    if messages == [] || messages[0].Null? then MuxRun(ups, [], Finished)
    else
      match HandleRouted(config, servers, ups, messages[0])
      case MuxRaised => MuxRun(ups, [], Failed)
      case MuxBlocked(after) => MuxRun(after, [], Waiting)
      case MuxAnswered(after, from, response) =>
        var rest := RunMultiplex(config, servers, after, messages[1..]);
        rest.(out := Tag(from, response) + rest.out)
  }

  lemma MuxStep(config: Config, servers: seq<Server>, ups: map<string, Up>, messages: seq<Json>)
    requires messages != [] && !messages[0].Null?
    requires HandleRouted(config, servers, ups, messages[0]).MuxAnswered?
    ensures
      var o := HandleRouted(config, servers, ups, messages[0]);
      var rest := RunMultiplex(config, servers, o.ups, messages[1..]);
      RunMultiplex(config, servers, ups, messages) == rest.(out := Tag(o.from, o.response) + rest.out)
  {
  }

  /** What handling one message gives, as the loop sees it. */
  predicate Stepped(o: MuxOutcome, before: map<string, Up>, after: map<string, Up>, r: Reply, from: Option<string>) {
    match o
    case MuxRaised => r == Raises && after == before
    case MuxBlocked(ups) => r == Waits && after == ups
    case MuxAnswered(ups, name, response) => r == Reply(response) && from == name && after == ups
  }

  /** The whole run is what has been written and the run of what is left. */
  predicate Continues(
      config: Config, servers: seq<Server>, ups: map<string, Up>, messages: seq<Json>, whole: MuxRun, out: seq<Tagged>)
  {
    var rest := RunMultiplex(config, servers, ups, messages);
    whole == rest.(out := out + rest.out)
  }

  lemma Continued(
      config: Config, servers: seq<Server>, ups: map<string, Up>, messages: seq<Json>, whole: MuxRun, out: seq<Tagged>,
      after: map<string, Up>, r: Reply, from: Option<string>)
    requires messages != [] && !messages[0].Null? && Continues(config, servers, ups, messages, whole, out)
    requires Stepped(HandleRouted(config, servers, ups, messages[0]), ups, after, r, from)
    ensures
      match r
      case Raises => whole == MuxRun(after, out, Failed)
      case Waits => whole == MuxRun(after, out, Waiting)
      case Reply(response) =>
        Continues(config, servers, after, messages[1..], whole, out + Tag(from, response))
  {
    hide HandleRouted, Tag;
    assert out + [] == out;
    if r.Reply? {
      MuxStep(config, servers, ups, messages);
      var rest := RunMultiplex(config, servers, after, messages[1..]);
      assert (out + Tag(from, r.response)) + rest.out == out + (Tag(from, r.response) + rest.out);
    }
  }

  lemma Started(config: Config, servers: seq<Server>, ups: map<string, Up>, messages: seq<Json>)
    ensures Continues(config, servers, ups, messages, RunMultiplex(config, servers, ups, messages), [])
  {
  }

  lemma Stopped(
      config: Config, servers: seq<Server>, ups: map<string, Up>, messages: seq<Json>, whole: MuxRun, out: seq<Tagged>)
    requires (messages == [] || messages[0].Null?) && Continues(config, servers, ups, messages, whole, out)
    ensures whole == MuxRun(ups, out, Finished)
  {
    assert out + [] == out;
  }

  // ----- the pool of upstreams

  class Pool {
    const servers: seq<Server>
    var procs: map<string, Upstream>

    ghost predicate Valid()
      reads this, procs.Values
    {
      && (forall name :: name in procs <==> Lookup(servers, name).Some?)
      && (forall name :: name in procs ==> Lookup(servers, name) == Some(procs[name].server))
      && (forall a, b :: a in procs && b in procs && a != b ==> procs[a] != procs[b])
    }

    ghost function Views(): map<string, Up>
      reads this, procs.Values
    {
      map name | name in procs :: procs[name].View()
    }

    /** One new upstream per declared server; a name declared twice keeps the last. */
    constructor (servers: seq<Server>)
      ensures this.servers == servers && Valid() && fresh(procs.Values)
      ensures forall name :: name in Views() ==> Views()[name] == Up([], [])
    {
      this.servers := servers;
      procs := map[];
      new;
      for n := 0 to |servers|
        invariant this.servers == servers && forall name :: name in procs ==> fresh(procs[name])
        invariant forall name :: name in procs <==> Lookup(servers[..n], name).Some?
        invariant forall name :: name in procs ==>
                    Lookup(servers[..n], name) == Some(procs[name].server) && procs[name].View() == Up([], [])
        invariant forall a, b :: a in procs && b in procs && a != b ==> procs[a] != procs[b]
      {
        assert servers[..n + 1][..n] == servers[..n];
        var up := new Upstream(servers[n]);
        procs := procs[servers[n].name := up];
      }
      assert servers[..|servers|] == servers;
    }

    /** The named upstream handles the message; the others are left alone. */
    method Ask(config: Config, name: string, message: Json) returns (r: Reply)
      requires Valid() && name in procs
      modifies procs[name]
      ensures Valid() && procs == old(procs)
      ensures
        var o := HandleMessage(config, Lookup(servers, name).value, old(Views()[name]), message);
        r == ReplyOf(o) && Views() == old(Views())[name := UpOf(o, old(Views()[name]))]
    {
      hide HandleMessage, Lookup, UpOf, ReplyOf;
      ghost var before := Views();
      r := HandleMessageOn(config, procs[name], message);
      assert forall other :: other in procs && other != name ==> procs[other].View() == before[other];
      assert Views() == before[name := procs[name].View()];
    }

    /** Routes one message and handles it; the name is that of the upstream asked. */
    method Handle(config: Config, message: Json) returns (r: Reply, from: Option<string>)
      requires Valid()
      modifies procs.Values
      ensures Valid() && procs == old(procs)
      ensures Stepped(HandleRouted(config, servers, old(Views()), message), old(Views()), Views(), r, from)
    {
      hide HandleMessage, RouteOf, Lookup;
      from := None;
      if !message.Obj? {
        return Raises, None;
      }
      var route := RouteOf(config, servers, message.fields);
      match route
      case BadKey => r := Raises;
      case Unknown(asked) =>
        r := Reply(Error(Get(message.fields, "id"), "unknown MCP server: " + asked));
      case To(name) =>
        if name !in procs {
          return Raises, None;
        }
        from := Some(name);
        assert Views()[name := Views()[name]] == Views();
        r := Ask(config, name, message);
    }

    method Run(config: Config, messages: seq<Json>) returns (out: seq<Tagged>, status: Status)
      requires Valid()
      modifies procs.Values
      ensures Valid() && procs == old(procs)
      ensures RunMultiplex(config, servers, old(Views()), messages) == MuxRun(Views(), out, status)
      ensures Apart(config, servers, old(Views()), messages, MuxRun(Views(), out, status))
    {
      assert Apart(config, servers, Views(), messages, RunMultiplex(config, servers, Views(), messages)) by {
        RunsApart(config, servers, Views(), messages);
      }
      hide *;
      ghost var whole := RunMultiplex(config, servers, Views(), messages);
      Started(config, servers, Views(), messages);
      assert messages[0..] == messages;
      out := [];
      var n := 0;
      while n < |messages| && !messages[n].Null?
        invariant n <= |messages| && Valid() && procs == old(procs)
        invariant Continues(config, servers, Views(), messages[n..], whole, out)
      {
        ghost var ups := Views();
        assert messages[n..][0] == messages[n] && messages[n..][1..] == messages[n + 1..];
        var reply, from := Handle(config, messages[n]);
        Continued(config, servers, ups, messages[n..], whole, out, Views(), reply, from);
        match reply
        case Raises => return out, Failed;
        case Waits => return out, Waiting;
        case Reply(response) =>
          out := out + Tag(from, response);
          n := n + 1;
      }
      Stopped(config, servers, Views(), messages[n..], whole, out);
      return out, Finished;
    }
  }

  // ----- routing

  lemma {:induction false} DeclaredIsFound(servers: seq<Server>, i: nat)
    requires i < |servers|
    ensures Lookup(servers, servers[i].name).Some?
    ensures (forall j :: i < j < |servers| ==> servers[j].name != servers[i].name) ==>
              Lookup(servers, servers[i].name) == Some(servers[i])
  {
    var n := |servers| - 1;
    if i < n { DeclaredIsFound(servers[..n], i); }
  }

  lemma {:induction false} LookupDeclares(servers: seq<Server>, name: string)
    ensures Lookup(servers, name).Some? <==> Declared(servers, name)
  {
    if i :| 0 <= i < |servers| && servers[i].name == name {
      DeclaredIsFound(servers, i);
    } else if servers != [] {
      var n := |servers| - 1;
      LookupDeclares(servers[..n], name);
      assert forall i :: 0 <= i < n ==> servers[..n][i] == servers[i];
    }
  }

  /** The text an error shows for the name that was asked for. */
  function Asked(config: Config, servers: seq<Server>, key: Json): string {
    if Unset(key) then (if servers == [] then "None" else servers[0].name)
    else if key.Str? then key.s
    else config.env.show(key)
  }

  /** The route, from the message's own field: to the declared server it is meant for, or to none. */
  lemma RouteIs(config: Config, servers: seq<Server>, m: Fields)
    ensures forall name ::
              RouteOf(config, servers, m) == To(name) <==> MeantFor(servers, m, name) && Declared(servers, name)
    ensures RouteOf(config, servers, m).BadKey? <==> Unhashable(Get(m, "server"))
    ensures RouteOf(config, servers, m).Unknown? ==>
              RouteOf(config, servers, m).asked == Asked(config, servers, Get(m, "server"))
  {
    var key := Get(m, "server");
    TruthyOrUnset(key);
    if key.Str? { LookupDeclares(servers, key.s); }
    if servers != [] { LookupDeclares(servers, servers[0].name); }
    hide Lookup, Declared;
  }

  /**
    A message that names a declared server, or that names none when the first one has
    a name, is handled by that server's gateway, and no other upstream changes.
  */
  lemma NamedServerHandles(
      config: Config, servers: seq<Server>, ups: map<string, Up>, message: Json, i: nat)
    requires message.Obj? && i < |servers| && MeantFor(servers, message.fields, servers[i].name)
    requires forall j :: i < j < |servers| ==> servers[j].name != servers[i].name
    requires servers[i].name in ups
    ensures
      var name := servers[i].name;
      HandleRouted(config, servers, ups, message) ==
        match HandleMessage(config, servers[i], ups[name], message)
        case Answered(up, response) => MuxAnswered(ups[name := up], Some(name), response)
        case Blocked(up) => MuxBlocked(ups[name := up])
        case Raised => MuxRaised
  {
    hide HandleMessage, RouteOf, MeantFor;
    DeclaredIsFound(servers, i);
    RouteIs(config, servers, message.fields);
    assert Declared(servers, servers[i].name);
  }

  /**
    A message for which there is no server is answered with an error under its own id
    and reaches no upstream; only a list or an object for a name raises.
  */
  lemma NobodyHandles(config: Config, servers: seq<Server>, ups: map<string, Up>, message: Json)
    requires message.Obj? && forall i :: 0 <= i < |servers| ==> !MeantFor(servers, message.fields, servers[i].name)
    ensures
      var key := Get(message.fields, "server");
      HandleRouted(config, servers, ups, message) ==
        if Unhashable(key) then MuxRaised
        else MuxAnswered(ups, None, Obj(map[
               "jsonrpc" := Str("2.0"),
               "id" := Get(message.fields, "id"),
               "error" := Obj(map[
                 "code" := Num(-32000),
                 "message" := Str("unknown MCP server: " + Asked(config, servers, key))])]))
  {
    hide HandleMessage, RouteOf, MeantFor, Asked, Unhashable;
    RouteIs(config, servers, message.fields);
  }

  /** A message the multiplexer fails at: no object, a server that cannot be looked up, or one its gateway fails at. */
  predicate Fails(servers: seq<Server>, message: Json) {
    || !message.Obj?
    || Unhashable(Get(message.fields, "server"))
    || (CannotHandle(message) && exists i :: 0 <= i < |servers| && MeantFor(servers, message.fields, servers[i].name))
  }

  lemma RaisesExactly(config: Config, servers: seq<Server>, ups: map<string, Up>, message: Json)
    requires forall name :: Lookup(servers, name).Some? ==> name in ups
    ensures HandleRouted(config, servers, ups, message).MuxRaised? <==> Fails(servers, message)
  {
    if message.Obj? {
      RouteIs(config, servers, message.fields);
      hide HandleMessage, RouteOf, CannotHandle, Unhashable, Lookup, MeantFor;
      match RouteOf(config, servers, message.fields)
      case To(name) =>
        LookupDeclares(servers, name);
        RaisesIff(config, Lookup(servers, name).value, ups[name], message);
      case _ =>
    }
  }

  // ----- projection to one server

  predicate RoutedTo(servers: seq<Server>, message: Json, name: string) {
    message.Obj? && MeantFor(servers, message.fields, name)
  }

  /** The messages meant for one server. */
  function SubStream(servers: seq<Server>, messages: seq<Json>, name: string): seq<Json> {
    if messages == [] then []
    else (if RoutedTo(servers, messages[0], name) then [messages[0]] else [])
         + SubStream(servers, messages[1..], name)
  }

  function ResponseFrom(t: Tagged, name: string): seq<Json> {
    if t.from == Some(name) then [t.response] else []
  }

  /** The responses that came from one server. */
  function Responses(out: seq<Tagged>, name: string): seq<Json> {
    if out == [] then [] else ResponseFrom(out[0], name) + Responses(out[1..], name)
  }

  /** The messages the run takes: all those it answers, and one it waits on; not one that raises. */
  function Consumed(config: Config, servers: seq<Server>, ups: map<string, Up>, messages: seq<Json>): (n: nat)
    ensures n <= |messages|
    decreases |messages|
  {
    if messages == [] || messages[0].Null? then 0
    else
      match HandleRouted(config, servers, ups, messages[0])
      case MuxRaised => 0
      case MuxBlocked(_) => 1
      case MuxAnswered(after, _, _) => 1 + Consumed(config, servers, after, messages[1..])
  }

  lemma {:induction false} ResponsesConcat(a: seq<Tagged>, b: seq<Tagged>, name: string)
    ensures Responses(a + b, name) == Responses(a, name) + Responses(b, name)
  {
    hide ResponseFrom;
    if a == [] {
      assert a + b == b;
    } else {
      ResponsesConcat(a[1..], b, name);
      assert (a + b)[0] == a[0] && (a + b)[1..] == a[1..] + b;
      var first, second, third := ResponseFrom(a[0], name), Responses(a[1..], name), Responses(b, name);
      assert first + (second + third) == (first + second) + third;
    }
  }

  /** One routed message, seen from one server: handled as its own gateway would, or nothing at all. */
  lemma HandleProjected(config: Config, servers: seq<Server>, ups: map<string, Up>, message: Json, name: string)
    requires name in ups && Lookup(servers, name).Some?
    requires !HandleRouted(config, servers, ups, message).MuxRaised?
    ensures
      var o := HandleRouted(config, servers, ups, message);
      var server := Lookup(servers, name).value;
      && o.ups.Keys == ups.Keys
      && (if RoutedTo(servers, message, name) then
            match HandleMessage(config, server, ups[name], message)
            case Answered(up, response) =>
              o.MuxAnswered? && o.ups[name] == up && o.from == Some(name) && o.response == response
            case Blocked(up) => o.MuxBlocked? && o.ups[name] == up
            case Raised => false
          else o.ups[name] == ups[name] && (o.MuxAnswered? ==> o.from != Some(name)))
  {
    if message.Obj? { RouteIs(config, servers, message.fields); }
    LookupDeclares(servers, name);
    hide HandleMessage, RouteOf, Lookup, MeantFor, Declared;
  }

  lemma {:induction false} SubStreamStep(servers: seq<Server>, messages: seq<Json>, n: nat, name: string)
    requires 0 < n <= |messages|
    ensures SubStream(servers, messages[..n], name) ==
              (if RoutedTo(servers, messages[0], name) then [messages[0]] else [])
              + SubStream(servers, messages[1..][..n - 1], name)
  {
    assert messages[..n][1..] == messages[1..][..n - 1];
  }

  lemma TagResponses(from: Option<string>, response: Json, name: string)
    ensures Responses(Tag(from, response), name) == if from == Some(name) then Shown(response) else []
  {
    if !response.Null? {
      assert Tag(from, response)[1..] == [];
      assert Responses([], name) == [];
    }
  }

  lemma RunOne(config: Config, server: Server, up: Up, message: Json)
    requires !message.Null? && HandleMessage(config, server, up, message).Blocked?
    ensures RunGateway(config, server, up, [message]) == Run(HandleMessage(config, server, up, message).up, [], Waiting)
  {
  }

  /**
    Seen from one server, the multiplexer is that server's own gateway run on the
    messages routed to it: same input to the server, same output left unread, same
    responses in the same order.
  */
  lemma {:induction false} Projection(
      config: Config, servers: seq<Server>, ups: map<string, Up>, messages: seq<Json>, name: string)
    requires name in ups && Lookup(servers, name).Some?
    ensures
      var r := RunMultiplex(config, servers, ups, messages);
      var taken := messages[..Consumed(config, servers, ups, messages)];
      var own := RunGateway(config, Lookup(servers, name).value, ups[name], SubStream(servers, taken, name));
      && r.ups.Keys == ups.Keys
      && own.up == r.ups[name]
      && own.out == Responses(r.out, name)
      && (own.status == Waiting ==> r.status == Waiting) && own.status != Failed
    decreases |messages|
  {
    hide HandleRouted, HandleMessage, SubStream, Responses, Tag, RoutedTo, Shown, RunGateway;
    var server := Lookup(servers, name).value;
    NothingToDo(config, servers, server, ups[name], name);
    if messages != [] && !messages[0].Null? && !HandleRouted(config, servers, ups, messages[0]).MuxRaised? {
      var o := HandleRouted(config, servers, ups, messages[0]);
      var n := Consumed(config, servers, ups, messages);
      HandleProjected(config, servers, ups, messages[0], name);
      SubStreamStep(servers, messages, n, name);
      if o.MuxBlocked? {
        ProjectBlocked(config, servers, ups, messages, name);
      } else {
        Projection(config, servers, o.ups, messages[1..], name);
        ResponsesConcat(Tag(o.from, o.response), RunMultiplex(config, servers, o.ups, messages[1..]).out, name);
        ProjectAnswered(config, servers, ups, messages, name);
      }
    }
  }

  /** Each server has been sent, has left unread and has answered what its own gateway would have on its messages. */
  ghost predicate EachOnItsOwn(
      config: Config, servers: seq<Server>, before: map<string, Up>, after: map<string, Up>,
      taken: seq<Json>, out: seq<Tagged>)
  {
    && after.Keys == before.Keys
    && forall name :: name in before && Lookup(servers, name).Some? ==>
         var own := RunGateway(config, Lookup(servers, name).value, before[name], SubStream(servers, taken, name));
         after[name] == own.up && Responses(out, name) == own.out
  }

  /** The same for a whole run: of the messages up to where it ends, each server has handled its own. */
  ghost predicate Apart(
      config: Config, servers: seq<Server>, before: map<string, Up>, messages: seq<Json>, r: MuxRun)
  {
    var n := Consumed(config, servers, before, messages);
    EachOnItsOwn(config, servers, before, r.ups, messages[..n], r.out) && EndsAt(servers, messages, n, r.status)
  }

  lemma RunsApart(config: Config, servers: seq<Server>, ups: map<string, Up>, messages: seq<Json>)
    requires forall name :: name in ups <==> Lookup(servers, name).Some?
    ensures Apart(config, servers, ups, messages, RunMultiplex(config, servers, ups, messages))
  {
    hide EachOnItsOwn, EndsAt, Consumed, RunMultiplex, Lookup;
    OnItsOwn(config, servers, ups, messages);
    ConsumedEnds(config, servers, ups, messages);
  }

  lemma OnItsOwn(config: Config, servers: seq<Server>, ups: map<string, Up>, messages: seq<Json>)
    requires forall name :: name in ups ==> Lookup(servers, name).Some?
    ensures
      var r := RunMultiplex(config, servers, ups, messages);
      EachOnItsOwn(config, servers, ups, r.ups, messages[..Consumed(config, servers, ups, messages)], r.out)
  {
    hide RunMultiplex, Consumed, RunGateway, SubStream, Responses, Lookup;
    KeysKept(config, servers, ups, messages);
    forall name | name in ups
      ensures
        var r := RunMultiplex(config, servers, ups, messages);
        var taken := messages[..Consumed(config, servers, ups, messages)];
        var own := RunGateway(config, Lookup(servers, name).value, ups[name], SubStream(servers, taken, name));
        name in r.ups && r.ups[name] == own.up && Responses(r.out, name) == own.out
    {
      Projection(config, servers, ups, messages, name);
    }
  }

  lemma {:induction false} KeysKept(config: Config, servers: seq<Server>, ups: map<string, Up>, messages: seq<Json>)
    ensures RunMultiplex(config, servers, ups, messages).ups.Keys == ups.Keys
    decreases |messages|
  {
    hide HandleMessage, RouteOf, Lookup;
    if messages != [] && !messages[0].Null? && HandleRouted(config, servers, ups, messages[0]).MuxAnswered? {
      var after := HandleRouted(config, servers, ups, messages[0]).ups;
      assert after.Keys == ups.Keys;
      KeysKept(config, servers, after, messages[1..]);
    }
  }

  /**
    A finished run has taken every message up to the first null one, a failed one has
    stopped before that at one the multiplexer fails at; it has met no such one before.
  */
  predicate EndsAt(servers: seq<Server>, messages: seq<Json>, n: nat, status: Status) {
    && n <= |messages| && (forall i :: 0 <= i < n ==> !messages[i].Null? && !Fails(servers, messages[i]))
    && (status == Finished ==> n == |messages| || messages[n].Null?)
    && (status == Failed ==> n < |messages| && !messages[n].Null? && Fails(servers, messages[n]))
  }

  lemma {:induction false} ConsumedEnds(config: Config, servers: seq<Server>, ups: map<string, Up>, messages: seq<Json>)
    requires forall name :: name in ups <==> Lookup(servers, name).Some?
    ensures
      EndsAt(servers, messages, Consumed(config, servers, ups, messages),
             RunMultiplex(config, servers, ups, messages).status)
    decreases |messages|
  {
    hide HandleMessage, RouteOf, Lookup, Fails;
    if messages != [] && !messages[0].Null? {
      var o := HandleRouted(config, servers, ups, messages[0]);
      var n := Consumed(config, servers, ups, messages);
      RaisesExactly(config, servers, ups, messages[0]);
      if o.MuxAnswered? {
        assert o.ups.Keys == ups.Keys;
        ConsumedEnds(config, servers, o.ups, messages[1..]);
      }
      assert forall i :: 0 < i < n ==> messages[i] == messages[1..][i - 1];
    }
  }

  lemma NothingToDo(config: Config, servers: seq<Server>, server: Server, up: Up, name: string)
    ensures SubStream(servers, [], name) == [] && Responses([], name) == []
    ensures RunGateway(config, server, up, []) == Run(up, [], Finished)
  {
  }

  lemma ProjectBlocked(config: Config, servers: seq<Server>, ups: map<string, Up>, messages: seq<Json>, name: string)
    requires name in ups && Lookup(servers, name).Some?
    requires messages != [] && !messages[0].Null? && HandleRouted(config, servers, ups, messages[0]).MuxBlocked?
    ensures
      var after := HandleRouted(config, servers, ups, messages[0]).ups;
      var sub := SubStream(servers, messages[..1], name);
      var own := RunGateway(config, Lookup(servers, name).value, ups[name], sub);
      name in after && own.up == after[name] && own.out == [] && own.status != Failed
  {
    hide HandleRouted, HandleMessage, SubStream, RoutedTo, RunGateway;
    var server := Lookup(servers, name).value;
    HandleProjected(config, servers, ups, messages[0], name);
    SubStreamStep(servers, messages, 1, name);
    assert messages[1..][..0] == [];
    NothingToDo(config, servers, server, ups[name], name);
    assert [messages[0]] + [] == [messages[0]];
    if RoutedTo(servers, messages[0], name) {
      RunOne(config, server, ups[name], messages[0]);
    }
  }

  lemma ProjectAnswered(config: Config, servers: seq<Server>, ups: map<string, Up>, messages: seq<Json>, name: string)
    requires name in ups && Lookup(servers, name).Some?
    requires messages != [] && !messages[0].Null? && HandleRouted(config, servers, ups, messages[0]).MuxAnswered?
    ensures
      var o := HandleRouted(config, servers, ups, messages[0]);
      var server := Lookup(servers, name).value;
      var n := Consumed(config, servers, o.ups, messages[1..]);
      name in o.ups &&
      var rest := RunGateway(config, server, o.ups[name], SubStream(servers, messages[1..][..n], name));
      var own := RunGateway(config, server, ups[name], SubStream(servers, messages[..n + 1], name));
      own == rest.(out := Responses(Tag(o.from, o.response), name) + rest.out)
  {
    hide HandleRouted, HandleMessage, SubStream, RoutedTo, RunGateway, Tag, Responses;
    var o := HandleRouted(config, servers, ups, messages[0]);
    var server := Lookup(servers, name).value;
    var n := Consumed(config, servers, o.ups, messages[1..]);
    HandleProjected(config, servers, ups, messages[0], name);
    SubStreamStep(servers, messages, n + 1, name);
    TagResponses(o.from, o.response, name);
    var sub := SubStream(servers, messages[1..][..n], name);
    if RoutedTo(servers, messages[0], name) {
      assert ([messages[0]] + sub)[1..] == sub;
      RunStep(config, server, ups[name], [messages[0]] + sub);
    } else {
      assert [] + sub == sub;
    }
  }

  // ----- requests and responses

  ghost predicate AllIdle(servers: seq<Server>, ups: map<string, Up>) {
    && (forall name :: name in ups ==> ups[name].queue == [])
    && (forall name :: name in ups <==> Lookup(servers, name).Some?)
    && (forall name :: Lookup(servers, name).Some? ==> Paired(Lookup(servers, name).value))
  }

  /** The message is an object, and no declared server is the one it is meant for. */
  predicate ForNobody(servers: seq<Server>, message: Json) {
    message.Obj? && forall i :: 0 <= i < |servers| ==> !MeantFor(servers, message.fields, servers[i].name)
  }

  /** The ids answered: those of the requests, and that of every message for an unknown server. */
  function AnsweredIds(servers: seq<Server>, messages: seq<Json>): seq<Json> {
    if messages == [] then []
    else
      (if ForNobody(servers, messages[0]) || HasId(messages[0]) then [IdOf(messages[0])] else [])
      + AnsweredIds(servers, messages[1..])
  }

  function TaggedIds(out: seq<Tagged>): seq<Json> {
    seq(|out|, i requires 0 <= i < |out| => IdOf(out[i].response))
  }

  lemma RoutedPaired(config: Config, servers: seq<Server>, ups: map<string, Up>, message: Json)
    requires AllIdle(servers, ups) && WellFormed(message) && !Unhashable(Get(message.fields, "server"))
    requires HasId(message) || !IsToolCall(message.fields)
    ensures
      var o := HandleRouted(config, servers, ups, message);
      && o.MuxAnswered? && AllIdle(servers, o.ups)
      && TaggedIds(Tag(o.from, o.response)) ==
           if ForNobody(servers, message) || HasId(message) then [IdOf(message)] else []
  {
    assert message.Obj?;
    IdOfFields(message);
    RouteIs(config, servers, message.fields);
    var route := RouteOf(config, servers, message.fields);
    hide HandleMessage, Paired, WellFormed, IdOf, RouteOf, Unhashable;
    if ForNobody(servers, message) {
      NobodyHandles(config, servers, ups, message);
    } else {
      assert route.To? by { SomebodyMeant(config, servers, message); }
      LookupDeclares(servers, route.name);
      HandlePaired(config, Lookup(servers, route.name).value, ups[route.name], message);
    }
  }

  lemma SomebodyMeant(config: Config, servers: seq<Server>, message: Json)
    requires message.Obj? && !ForNobody(servers, message)
    ensures RouteOf(config, servers, message.fields).To?
  {
    hide RouteOf, MeantFor;
    var i :| 0 <= i < |servers| && MeantFor(servers, message.fields, servers[i].name);
    RouteIs(config, servers, message.fields);
    assert Declared(servers, servers[i].name);
  }

  lemma IdOfFields(message: Json)
    requires message.Obj?
    ensures IdOf(message) == Get(message.fields, "id")
  {
  }

  /**
    Across the servers the client still gets one response per request, in order and
    with the matching id; a notification is answered only when it names no server.
  */
  lemma {:induction false} MuxPairing(config: Config, servers: seq<Server>, ups: map<string, Up>, messages: seq<Json>)
    requires AllIdle(servers, ups)
    requires forall i :: 0 <= i < |messages| ==>
               && WellFormed(messages[i]) && !Unhashable(Get(messages[i].fields, "server"))
               && (HasId(messages[i]) || !IsToolCall(messages[i].fields))
    ensures
      var r := RunMultiplex(config, servers, ups, messages);
      && r.status == Finished && AllIdle(servers, r.ups)
      && TaggedIds(r.out) == AnsweredIds(servers, messages)
    decreases |messages|
  {
    if messages == [] {
      assert AnsweredIds(servers, messages) == [];
    } else {
      hide HandleRouted, RunMultiplex, AllIdle, Unhashable, Tag, ForNobody;
      RoutedPaired(config, servers, ups, messages[0]);
      var o := HandleRouted(config, servers, ups, messages[0]);
      MuxStep(config, servers, ups, messages);
      MuxPairing(config, servers, o.ups, messages[1..]);
      TaggedIdsConcat(Tag(o.from, o.response), RunMultiplex(config, servers, o.ups, messages[1..]).out);
    }
  }

  lemma TaggedIdsConcat(a: seq<Tagged>, b: seq<Tagged>)
    ensures TaggedIds(a + b) == TaggedIds(a) + TaggedIds(b)
  {
  }
}
