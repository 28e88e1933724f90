/** The WebSocket proxy of dist/backend/proxyServer.js, without its sockets and its HTTP
    server: a socket is an id, everything the server does to a socket or to itself is an
    event appended to a trace, and the foreign functions it calls (SHA-1 with base64,
    UTF-8, `JSON.parse`, `JSON.stringify`, an adapter's `sendPrompt`) come in an
    environment. */
module Proxy {
  import opened Wrappers
  import opened Json
  import opened Text
  import opened Types
  import opened FrameCodec
  import opened Handshake
  import opened Registry

  type SocketId = nat

  /** Bytes that fit one frame's 64-bit length. */
  type FramePayload = p: seq<Byte> | |p| < LengthLimit

  /** What the server does that a peer or the host can observe. */
  datatype Event =
    | WroteText(socket: SocketId, text: string)
    | WroteFrame(socket: SocketId, frame: seq<Byte>)
    | Destroyed(socket: SocketId)
    | Ended(socket: SocketId)
    | IntervalCleared
    | ServerClosed
    | RegistryDisposed

  /** The foreign functions: `digest` is SHA-1 then base64, `parse` is
      `JSON.parse(payload.toString())`, `utf8` is `Buffer.from(text)`. */
  datatype Environment = Environment(
    digest: seq<Byte> -> string,
    parse: seq<Byte> -> Result<Json, JsError>,
    stringify: Json -> string,
    utf8: string -> FramePayload,
    sendPrompt: (Adapter, PromptRequest) -> Result<PromptResponse, JsError>,
    co: Coercions)

  /** `#encodeFrame(text)`. */
  function TextFrame(text: string, env: Environment): seq<Byte> {
    EncodeFrame(env.utf8(text))
  }

  /** Every frame the server sends decodes as a text frame holding the text's bytes. */
  lemma TextFrameDecodes(text: string, env: Environment)
    ensures DecodeFrame(TextFrame(text, env)) == Success(Frame(1, env.utf8(text)))
  {
    DecodeEncode(env.utf8(text));
  }

  /** `registry.get(parsed.adapterId)`: a `Map` lookup finds only a string key; any other
      value, `undefined` included, is named in the error by its string form, and building
      that message throws when the value has no string form. */
  function Lookup(entries: map<string, Adapter>, id: Option<Json>, co: Coercions): (r: Result<Adapter, JsError>)
    ensures r.Success? <==> id.Some? && id.value.JString? && id.value.s in entries
    ensures r.Success? ==> r.value == entries[id.value.s]
    ensures r.Failure? && ConvertibleOpt(id) ==> r.error == Error(NotRegistered(ToJsStringOpt(id, co)))
    ensures r.Failure? && !ConvertibleOpt(id) ==> r.error == ToPrimitiveError
  {
    if id.Some? && id.value.JString? && id.value.s in entries then Success(entries[id.value.s])
    else if !ConvertibleOpt(id) then Failure(ToPrimitiveError)
    else Failure(Error(NotRegistered(ToJsStringOpt(id, co))))
  }

  /** The request object built from the parsed message. */
  function PromptOf(parsed: Json): PromptRequest {
    PromptRequest(Property(parsed, "conversationId"), Property(parsed, "prompt"), Property(parsed, "context"))
  }

  /** `{ type: 'response', data: { adapterId, response } }`. */
  function ReplyMessage(adapterId: string, response: PromptResponse): Json {
    JObject(map["type" := JString("response"),
                "data" := JObject(map["adapterId" := JString(adapterId), "response" := ResponseToJson(response)])])
  }

  /** The frame a text message is answered with, or the error that ends its handling:
      a parse error, reading `adapterId` of `null`, an unknown adapter or a failed
      dispatch. */
  function Respond(payload: seq<Byte>, entries: map<string, Adapter>, env: Environment): Result<seq<Byte>, JsError> {
    match env.parse(payload)
    case Failure(e) => Failure(e)
    case Success(parsed) =>
      if parsed.JNull? then Failure(TypeError("Cannot read properties of null (reading 'adapterId')"))
      else match Lookup(entries, Property(parsed, "adapterId"), env.co)
        case Failure(e) => Failure(e)
        case Success(adapter) =>
          match env.sendPrompt(adapter, PromptOf(parsed))
          case Failure(e) => Failure(e)
          case Success(response) => Success(TextFrame(env.stringify(ReplyMessage(adapter.Id(), response)), env))
  }

  /** A reply answers the message it was asked in: it exists exactly when the message
      parses to a non-null value naming a registered adapter whose dispatch succeeds,
      and it carries that adapter's id and its response. */
  lemma RespondSpec(payload: seq<Byte>, entries: map<string, Adapter>, env: Environment)
    ensures Respond(payload, entries, env).Success? <==>
      && env.parse(payload).Success? && env.parse(payload).value != JNull
      && Lookup(entries, Property(env.parse(payload).value, "adapterId"), env.co).Success?
      && env.sendPrompt(Lookup(entries, Property(env.parse(payload).value, "adapterId"), env.co).value,
                        PromptOf(env.parse(payload).value)).Success?
    ensures Respond(payload, entries, env).Success? ==>
      var parsed := env.parse(payload).value;
      var id := Property(parsed, "adapterId").value.s;
      && id in entries
      && Respond(payload, entries, env).value ==
           TextFrame(env.stringify(ReplyMessage(entries[id].Id(), env.sendPrompt(entries[id], PromptOf(parsed)).value)), env)
  {
  }

  /** The reply message's shape: a `response` type, and data naming the adapter and
      holding its response as JSON. */
  lemma ReplyMessageShape(adapterId: string, response: PromptResponse)
    ensures var m := ReplyMessage(adapterId, response);
      && Property(m, "type") == Some(JString("response"))
      && Property(m, "data").Some?
      && Property(Property(m, "data").value, "adapterId") == Some(JString(adapterId))
      && Property(Property(m, "data").value, "response") == Some(ResponseToJson(response))
  {
  }

  /** What a `data` event leads to. */
  datatype Reaction = Ignore | Close | Reply(frame: seq<Byte>) | Fail(error: JsError)

  /** `#handleFrame` on the bytes of one `data` event: a close frame ends the socket,
      a frame that is neither close nor text is ignored, a text frame is answered. */
  function React(buffer: seq<Byte>, entries: map<string, Adapter>, env: Environment): Reaction {
    match DecodeFrame(buffer)
    case Failure(e) => Fail(e)
    case Success(frame) =>
      if frame.opcode == 8 then Close
      else if frame.opcode != 1 then Ignore
      else match Respond(frame.payload, entries, env)
        case Failure(e) => Fail(e)
        case Success(reply) => Reply(reply)
  }

  /** The opcode alone decides between closing, ignoring and answering. */
  lemma ReactByOpcode(buffer: seq<Byte>, entries: map<string, Adapter>, env: Environment)
    requires DecodeFrame(buffer).Success?
    ensures React(buffer, entries, env).Close? <==> DecodeFrame(buffer).value.opcode == 8
    ensures React(buffer, entries, env).Ignore? <==> DecodeFrame(buffer).value.opcode !in {1, 8}
    ensures React(buffer, entries, env).Reply? ==> DecodeFrame(buffer).value.opcode == 1
  {
  }

  /** A text frame a client masks as section 5.3 of RFC 6455 requires is answered from its
      unmasked payload. */
  lemma ReactToClientFrame(payload: seq<Byte>, key: seq<Byte>, entries: map<string, Adapter>, env: Environment)
    requires |payload| < LengthLimit && |key| == 4
    ensures React(EncodeClientFrame(payload, key), entries, env) ==
      match Respond(payload, entries, env)
      case Failure(e) => Fail(e)
      case Success(reply) => Reply(reply)
  {
    DecodeClientFrame(payload, key);
  }

  /** One adapter's entry in the heartbeat. */
  function Summary(adapter: Adapter): Json {
    JObject(map["id" := JString(adapter.config.id),
                "displayName" := JString(adapter.config.displayName),
                "provider" := JString(adapter.config.provider),
                "capabilities" := JArray(seq(|adapter.config.capabilities|,
                    i requires 0 <= i < |adapter.config.capabilities| => JString(adapter.config.capabilities[i])))])
  }

  /** The heartbeat message for the adapter list at time `now`. */
  function HeartbeatMessage(now: int, adapters: seq<Adapter>): (m: Json)
    ensures Property(m, "type") == Some(JString("heartbeat"))
    ensures Property(m, "data").Some? && Property(Property(m, "data").value, "timestamp") == Some(JNumber(now as real))
    ensures var listed := Property(Property(m, "data").value, "adapters");
      && listed.Some? && listed.value.JArray? && |listed.value.items| == |adapters|
      && forall i :: 0 <= i < |adapters| ==> listed.value.items[i] == Summary(adapters[i])
  {
    JObject(map["type" := JString("heartbeat"),
                "data" := JObject(map["timestamp" := JNumber(now as real),
                                      "adapters" := JArray(seq(|adapters|, i requires 0 <= i < |adapters| => Summary(adapters[i])))])])
  }

  /** A summary carries the four public fields of the adapter and nothing else. */
  lemma SummaryFields(adapter: Adapter)
    ensures Summary(adapter).fields.Keys == {"id", "displayName", "provider", "capabilities"}
    ensures Property(Summary(adapter), "id") == Some(JString(adapter.Id()))
    ensures Property(Summary(adapter), "capabilities").value.items ==
      seq(|adapter.config.capabilities|, i requires 0 <= i < |adapter.config.capabilities| => JString(adapter.config.capabilities[i]))
  {
  }

  /** What `httpServer.address()` gives: `null` before listening, a path for a pipe, or
      the bound address and port. */
  datatype ServerAddress = Unbound | Pipe(path: string) | Inet(address: string, port: nat)

  datatype HostPort = HostPort(port: nat, host: string)

  /** `getAddress()`. */
  function AddressOf(address: ServerAddress): (r: Option<HostPort>)
    ensures r.None? <==> !address.Inet?
    ensures r.Some? ==> r.value.port == address.port
  {
    match address
    case Inet(a, port) => Some(HostPort(port, if a == "::" then "127.0.0.1" else a))
    case _ => None
  }

  /** The reported host is never the IPv6 wildcard: `::` becomes the IPv4 loopback and
      every other address is reported as bound. */
  lemma AddressHost(address: string, port: nat)
    ensures AddressOf(Inet(address, port)).value.host != "::"
    ensures address == "::" ==> AddressOf(Inet(address, port)).value.host == "127.0.0.1"
    ensures address != "::" ==> AddressOf(Inet(address, port)).value.host == address
  {
  }

  const NotRunning := "Server is not running."

  function DestroyEvents(sockets: seq<SocketId>): (r: seq<Event>)
    ensures |r| == |sockets|
  {
    seq(|sockets|, i requires 0 <= i < |sockets| => Destroyed(sockets[i]))
  }

  function WriteEvents(sockets: seq<SocketId>, frame: seq<Byte>): (r: seq<Event>)
    ensures |r| == |sockets|
  {
    seq(|sockets|, i requires 0 <= i < |sockets| => WroteFrame(sockets[i], frame))
  }

  /** One more socket of the set adds its write at the end. */
  lemma WriteEventsStep(sockets: seq<SocketId>, frame: seq<Byte>, i: nat)
    requires i < |sockets|
    ensures WriteEvents(sockets[..i + 1], frame) == WriteEvents(sockets[..i], frame) + [WroteFrame(sockets[i], frame)]
  {
    assert sockets[..i + 1][i] == sockets[i];
  }

  /** The loop `for (const client of this.#clients) client.write(frame)`. */
  method WriteToAll(sockets: seq<SocketId>, frame: seq<Byte>) returns (writes: seq<Event>)
    ensures writes == WriteEvents(sockets, frame)
  {
    writes := [];
    var i := 0;
    while i < |sockets|
      invariant 0 <= i <= |sockets|
      invariant writes == WriteEvents(sockets[..i], frame)
    {
      WriteEventsStep(sockets, frame, i);
      writes := writes + [WroteFrame(sockets[i], frame)];
      i := i + 1;
    }
    assert sockets[..i] == sockets;
  }

  class ProxyServer {
    const options: ProxyOptions
    const registry: AdapterRegistry
    /** `#clients`, in insertion order. */
    var clients: seq<SocketId>
    /** Whether `#heartbeatInterval` was ever set; `stop` never unsets it. */
    var heartbeatSet: bool
    var started: bool
    var address: ServerAddress
    var trace: seq<Event>
    /** The sockets whose handshake succeeded. */
    ghost var accepted: set<SocketId>

    ghost predicate Valid()
      reads this, registry
    {
      && NoDuplicates(clients)
      && (forall i :: 0 <= i < |clients| ==> clients[i] in accepted)
      && registry.Valid()
    }

    constructor(options: ProxyOptions, registry: AdapterRegistry)
      requires registry.Valid()
      ensures this.options == options && this.registry == registry
      ensures clients == [] && !heartbeatSet && !started && address == Unbound && trace == []
      ensures Valid()
    {
      this.options := options;
      this.registry := registry;
      clients := [];
      heartbeatSet := false;
      started := false;
      address := Unbound;
      trace := [];
      accepted := {};
    }

    /** `start()`: the registry is initialised first; if that fails, nothing else
        happens. Otherwise the client set is emptied, the server listens (on the IP
        address `bound` that the host gives it once `listen` succeeds) and the heartbeat
        is armed. */
    method Start(webInit: AdapterConfiguration -> Option<JsError>, bound: ServerAddress) returns (error: Option<JsError>)
      requires Valid() && !started && bound.Inet?
      modifies this, registry
      ensures Valid()
      ensures (Table(registry.entries, registry.order), error)
        == InitializeAll(old(Table(registry.entries, registry.order)), registry.configurations, webInit)
      ensures trace == old(trace)
      ensures error.Some? ==> clients == old(clients) && !started && address == old(address) && heartbeatSet == old(heartbeatSet)
      ensures error.None? ==> clients == [] && started && address == bound && heartbeatSet
    {
      error := registry.Initialize(webInit);
      if error.Some? {
        return;
      }
      clients := [];
      started := true;
      address := bound;
      heartbeatSet := true;
    }

    /** `getAddress()`. */
    function GetAddress(): (r: Option<HostPort>)
      reads this
      ensures r.None? <==> !address.Inet?
    {
      AddressOf(address)
    }

    /** `#handleUpgrade(request, socket)`: a refused request gets the 400 text and the
        socket is destroyed; an accepted one gets the 101 response and joins the set. */
    method HandleUpgrade(socket: SocketId, request: UpgradeRequest, env: Environment)
      requires Valid()
      modifies this
      ensures Valid()
      ensures Decide(request, env.digest).Reject? ==>
        trace == old(trace) + [WroteText(socket, BadRequest), Destroyed(socket)] && clients == old(clients)
      ensures Decide(request, env.digest).Accept? ==>
        trace == old(trace) + [WroteText(socket, Decide(request, env.digest).response)]
        && clients == Add(old(clients), socket)
      ensures started == old(started) && heartbeatSet == old(heartbeatSet) && address == old(address)
    {
      var decision := Decide(request, env.digest);
      if decision.Reject? {
        trace := trace + [WroteText(socket, BadRequest), Destroyed(socket)];
        return;
      }
      trace := trace + [WroteText(socket, decision.response)];
      accepted := accepted + {socket};
      clients := Add(clients, socket);
    }

    /** The socket's `close` and `error` listeners. */
    method Forget(socket: SocketId)
      requires Valid()
      modifies this
      ensures Valid()
      ensures clients == Remove(old(clients), socket) && trace == old(trace)
      ensures started == old(started) && heartbeatSet == old(heartbeatSet) && address == old(address)
    {
      clients := Remove(clients, socket);
    }

    /** A `data` event: the frame is decoded in place, then closed, ignored, answered
        on the same socket, or, on any error, the socket is destroyed and forgotten. */
    method HandleData(socket: SocketId, buffer: array<Byte>, env: Environment) returns (reaction: Reaction)
      requires Valid()
      modifies this, buffer
      ensures Valid()
      ensures reaction == React(old(buffer[..]), registry.entries, env)
      ensures reaction.Close? ==> trace == old(trace) + [Ended(socket)] && clients == Remove(old(clients), socket)
      ensures reaction.Ignore? ==> trace == old(trace) && clients == old(clients)
      ensures reaction.Reply? ==> trace == old(trace) + [WroteFrame(socket, reaction.frame)] && clients == old(clients)
      ensures reaction.Fail? ==> trace == old(trace) + [Destroyed(socket)] && clients == Remove(old(clients), socket)
      ensures started == old(started) && heartbeatSet == old(heartbeatSet) && address == old(address)
      ensures DecodeFrame(old(buffer[..])).Failure? ==> buffer[..] == old(buffer[..])
      ensures DecodeFrame(old(buffer[..])).Success? ==>
        var (start, end) := PayloadWindow(old(buffer[..]));
        && buffer[start..end] == DecodeFrame(old(buffer[..])).value.payload
        && buffer[..start] == old(buffer[..start]) && buffer[end..] == old(buffer[end..])
    {
      ghost var original := buffer[..];
      var decoded := DecodeInPlace(buffer);
      if decoded.Failure? {
        reaction := Fail(decoded.error);
      } else {
        var view := decoded.value;
        if view.opcode == 8 {
          reaction := Close;
        } else if view.opcode != 1 {
          reaction := Ignore;
        } else {
          var payload := buffer[view.start..view.end];
          assert payload == DecodeFrame(original).value.payload;
          var reply := Respond(payload, registry.entries, env);
          reaction := if reply.Success? then Reply(reply.value) else Fail(reply.error);
        }
      }
      match reaction
      case Close =>
        trace := trace + [Ended(socket)];
        clients := Remove(clients, socket);
      case Ignore =>
      case Reply(frame) =>
        trace := trace + [WroteFrame(socket, frame)];
      case Fail(_) =>
        trace := trace + [Destroyed(socket)];
        clients := Remove(clients, socket);
    }

    /** `#broadcastHeartbeat()` at time `now`: one frame listing the registry's adapters,
        written to every client in the set. */
    method BroadcastHeartbeat(now: int, env: Environment) returns (frame: seq<Byte>)
      requires Valid()
      modifies this
      ensures Valid()
      ensures frame == TextFrame(env.stringify(HeartbeatMessage(now, registry.List())), env)
      ensures clients == old(clients)
      ensures trace == old(trace) + WriteEvents(clients, frame)
      ensures started == old(started) && heartbeatSet == old(heartbeatSet) && address == old(address)
    {
      frame := TextFrame(env.stringify(HeartbeatMessage(now, registry.List())), env);
      var writes := WriteToAll(clients, frame);
      trace := trace + writes;
    }

    /** `stop()`: the interval is cleared, every client destroyed and the set emptied;
        then the server closes, which fails when it is not listening, and only a closed
        server goes on to dispose the registry. */
    method Stop(webDispose: AdapterConfiguration -> Option<JsError>) returns (error: Option<JsError>)
      requires Valid()
      modifies this, registry
      ensures Valid()
      ensures clients == [] && address == Unbound
      ensures started == old(started) && heartbeatSet == old(heartbeatSet)
      ensures var teardown := (if old(heartbeatSet) then [IntervalCleared] else []) + DestroyEvents(old(clients));
        if old(address).Unbound? then
          && error == Some(Error(NotRunning))
          && trace == old(trace) + teardown
          && registry.entries == old(registry.entries) && registry.order == old(registry.order)
        else
          && address == Unbound
          && trace == old(trace) + teardown + [ServerClosed, RegistryDisposed]
          && error == FirstError(old(registry.List()), webDispose)
          && (error.None? ==> registry.entries == map[] && registry.order == [])
          && (error.Some? ==> registry.entries == old(registry.entries) && registry.order == old(registry.order))
    {
      var destroyed: seq<Event> := [];
      var i := 0;
      while i < |clients|
        invariant 0 <= i <= |clients|
        invariant unchanged(this) && unchanged(registry)
        invariant destroyed == DestroyEvents(clients[..i])
      {
        assert DestroyEvents(clients[..i + 1]) == DestroyEvents(clients[..i]) + [Destroyed(clients[i])];
        destroyed := destroyed + [Destroyed(clients[i])];
        i := i + 1;
      }
      assert clients[..i] == clients;
      trace := trace + (if heartbeatSet then [IntervalCleared] else []) + destroyed;
      clients := [];
      if address.Unbound? {
        return Some(Error(NotRunning));
      }
      address := Unbound;
      trace := trace + [ServerClosed, RegistryDisposed];
      var called;
      error, called := registry.Dispose(webDispose);
    }
  }

  /** After `stop`, every socket that was in the set has a `Destroyed` event and the set
      is empty, whatever the close and dispose steps give. */
  lemma StopDestroysEveryClient(clients: seq<SocketId>, before: seq<Event>, cleared: bool, socket: SocketId)
    requires socket in clients
    ensures Destroyed(socket) in before + (if cleared then [IntervalCleared] else []) + DestroyEvents(clients)
  {
    var i :| 0 <= i < |clients| && clients[i] == socket;
    var tail := (if cleared then [IntervalCleared] else []) + DestroyEvents(clients);
    assert DestroyEvents(clients)[i] == Destroyed(socket);
    assert (before + tail)[|before| + |tail| - |clients| + i] == Destroyed(socket);
  }
}
