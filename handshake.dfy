/** The upgrade check of dist/backend/proxyServer.js (`#handleUpgrade` and
    `#generateAcceptValue`): a simplified form of the opening handshake of sections
    4.2.1 and 4.2.2 of RFC 6455. SHA-1 and base64 are one digest function, given from
    outside. */
module Handshake {
  import opened Wrappers
  import opened Text
  import opened FrameCodec

  /** A request header as Node's `request.headers` holds it: absent, one string, or an
      array of strings. */
  datatype HeaderValue = Missing | Single(value: string) | Repeated(values: seq<string>)

  /** The parts of an upgrade request the handler reads, and two it does not. */
  datatype UpgradeRequest = UpgradeRequest(
    httpMethod: string,
    upgrade: Option<string>,
    key: HeaderValue,
    version: Option<string>,
    origin: Option<string>)

  const BadRequest := "HTTP/1.1 400 Bad Request\r\n\r\n"
  const WebSocketGuid := "258EAFA5-E914-47DA-95CA-C5AB0DC85B11"

  /** `toLowerCase` on one character, for the characters whose lower-case form is an
      ASCII letter: the ASCII capitals and the Kelvin sign U+212A, whose lower case is
      'k'. Every other character keeps a form that is not an ASCII letter, so the
      comparison with "websocket" comes out as it does in the engine. */
  function LowerChar(c: char): (l: char)
    ensures 'A' <= c <= 'Z' ==> l as int == c as int - 'A' as int + 'a' as int
    ensures c == '\U{212A}' ==> l == 'k'
  {
    if 'A' <= c <= 'Z' then (c as int - 'A' as int + 'a' as int) as char
    else if c == '\U{212A}' then 'k'
    else c
  }

  function Lower(s: string): (l: string)
    ensures |l| == |s|
  {
    seq(|s|, i requires 0 <= i < |s| => LowerChar(s[i]))
  }

  /** `upgrade.toLowerCase() !== 'websocket'` is false: plain equality, not membership in
      a token list. */
  predicate IsWebSocketToken(upgrade: string) {
    Lower(upgrade) == "websocket"
  }

  /** The bytes that `update(text, 'binary')` hashes: the low byte of each character. */
  function Latin1(s: string): (b: seq<Byte>)
    ensures |b| == |s|
  {
    seq(|s|, i requires 0 <= i < |s| => (s[i] as int % 256) as Byte)
  }

  /** `#generateAcceptValue(key)`: base64 of SHA-1 over the key followed by the GUID. */
  function AcceptValue(key: string, digest: seq<Byte> -> string): string {
    digest(Latin1(key + WebSocketGuid))
  }

  /** The four response lines joined by CRLF, with the blank line after them. */
  function SwitchingProtocols(accept: string): string {
    "HTTP/1.1 101 Switching Protocols\r\n" + "Upgrade: websocket\r\n" + "Connection: Upgrade\r\n"
      + "Sec-WebSocket-Accept: " + accept + "\r\n\r\n"
  }

  datatype Decision = Reject | Accept(response: string)

  /** The two guards of `#handleUpgrade`: first the method and the Upgrade header, then
      a present, non-empty, single `Sec-WebSocket-Key`. */
  function Decide(request: UpgradeRequest, digest: seq<Byte> -> string): Decision {
    if request.httpMethod != "GET" || request.upgrade.None? || request.upgrade.value == ""
      || !IsWebSocketToken(request.upgrade.value) then Reject
    else match request.key
      case Single(key) => if key == "" then Reject else Accept(SwitchingProtocols(AcceptValue(key, digest)))
      case _ => Reject
  }

  /** What the socket receives: the 400 text, or the 101 response. */
  function ResponseText(decision: Decision): string {
    match decision
    case Reject => BadRequest
    case Accept(response) => response
  }

  /** A request is accepted exactly when it is a GET whose Upgrade header lower-cases to
      "websocket" and whose key is one non-empty string; the reply then carries the
      accept value computed from that key. */
  lemma DecideSpec(request: UpgradeRequest, digest: seq<Byte> -> string)
    ensures Decide(request, digest).Accept? <==>
      && request.httpMethod == "GET"
      && request.upgrade.Some? && IsWebSocketToken(request.upgrade.value)
      && request.key.Single? && request.key.value != ""
    ensures Decide(request, digest).Accept? ==>
      Decide(request, digest).response == SwitchingProtocols(AcceptValue(request.key.value, digest))
  {
    if request.upgrade.Some? && request.upgrade.value == "" {
      assert Lower("") == "";
    }
  }

  /** The accept value is the one header a reply depends on: replies to two keys differ
      exactly when their accept values do. */
  lemma SwitchingProtocolsInjective(a: string, b: string)
    ensures SwitchingProtocols(a) == SwitchingProtocols(b) <==> a == b
  {
    var prefix := "HTTP/1.1 101 Switching Protocols\r\n" + "Upgrade: websocket\r\n" + "Connection: Upgrade\r\n"
      + "Sec-WebSocket-Accept: ";
    if SwitchingProtocols(a) == SwitchingProtocols(b) {
      assert SwitchingProtocols(a) == prefix + a + "\r\n\r\n";
      assert SwitchingProtocols(b) == prefix + b + "\r\n\r\n";
      assert |a| == |b|;
      assert a == SwitchingProtocols(a)[|prefix|..|prefix| + |a|];
      assert b == SwitchingProtocols(b)[|prefix|..|prefix| + |b|];
    }
  }

  /** The 101 response starts with its status line and ends with the blank line. */
  lemma SwitchingProtocolsShape(accept: string)
    ensures StartsWith(SwitchingProtocols(accept), "HTTP/1.1 101 Switching Protocols\r\n")
    ensures EndsWith(SwitchingProtocols(accept), "\r\n\r\n")
  {
  }

  /** The Sec-WebSocket-Version and Origin headers play no part in the decision. */
  lemma VersionAndOriginIgnored(request: UpgradeRequest, version: Option<string>, origin: Option<string>,
                                digest: seq<Byte> -> string)
    ensures Decide(request.(version := version, origin := origin), digest) == Decide(request, digest)
  {
  }

  /** The header check accepts any capitalisation of "websocket", including the Kelvin
      sign for 'k', and refuses a token list that merely contains it. */
  lemma UpgradeHeaderExamples()
    ensures IsWebSocketToken("websocket") && IsWebSocketToken("WebSocket") && IsWebSocketToken("WEBSOCKET")
    ensures IsWebSocketToken("websoc\U{212A}et")
    ensures !IsWebSocketToken("websocket, h2c")
  {
    assert Lower("WebSocket") == "websocket";
    assert Lower("WEBSOCKET") == "websocket";
    assert Lower("websoc\U{212A}et") == "websocket";
    assert |Lower("websocket, h2c")| != |"websocket"|;
  }
}
