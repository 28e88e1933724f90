/** The HTTP adapter of dist/adapters/httpBrowserAdapter.js: a configuration turned into
    request data, and the provider's answer turned into a prompt response. `fetch` is a
    function from the request to the response or the error it rejects with; the abort
    timer is the `timeoutMs` the request carries, and `JSON.stringify` of the body is
    left to `fetch`. */
module HttpAdapter {
  import opened Wrappers
  import opened Json
  import opened Text
  import opened Types
  import Logging

  const DefaultTimeoutMs := 15000

  /** `replace(/\/?$/, '')`: the first match of the pattern is the last character when
      that is a slash, and the empty string at the end otherwise. */
  function StripTrailingSlash(url: string): (r: string)
    ensures EndsWith(url, "/") ==> r + "/" == url
    ensures !EndsWith(url, "/") ==> r == url
  {
    if |url| > 0 && url[|url| - 1] == '/' then url[..|url| - 1] else url
  }

  /** Only one slash goes: a URL ending in two keeps one. */
  lemma StripsAtMostOne(url: string)
    ensures StripTrailingSlash(url + "/") == url
    ensures StripTrailingSlash(url + "//") == url + "/"
  {
    assert EndsWith(url + "/", "/");
    assert EndsWith(url + "//", "/");
  }

  /** What `fetch` is given. */
  datatype Request = Request(url: string, httpMethod: string, headers: Json, body: Option<Json>, timeoutMs: int)

  /** What `fetch` resolves with: the status and what `text()` and `json()` give. */
  datatype Response = Response(status: nat, text: Result<string, JsError>, json: Result<Json, JsError>)

  predicate IsOk(response: Response) {
    200 <= response.status <= 299
  }

  /** The members `{...v}` copies out of a value: an object's own properties, an array's
      or a string's indices, and nothing from `null`, a number or a boolean. */
  function SpreadEntries(v: Json): map<string, Json> {
    match v
    case JObject(fields) => fields
    case JArray(items) => Indexed(items)
    case JString(s) => Indexed(Characters(s))
    case _ => map[]
  }

  function Characters(s: string): (r: seq<Json>)
    ensures |r| == |s|
  {
    seq(|s|, i requires 0 <= i < |s| => JString([s[i]]))
  }

  /** The index-keyed members of a sequence. */
  function Indexed(items: seq<Json>): map<string, Json>
    decreases |items|
  {
    if items == [] then map[]
    else Indexed(items[..|items| - 1])[NatToString(|items| - 1) := items[|items| - 1]]
  }

  /** The members of an indexed sequence are named by its indices in decimal. */
  lemma {:induction false} IndexedKeys(items: seq<Json>)
    ensures Indexed(items).Keys == IndexNames(|items|)
    decreases |items|
  {
    if items != [] {
      var n := |items| - 1;
      IndexedKeys(items[..n]);
      IndexNamesNext(n);
    }
  }

  /** The member named by an index holds the element at that index. */
  lemma IndexedValues(items: seq<Json>)
    ensures forall i :: 0 <= i < |items| ==> NatToString(i) in Indexed(items) && Indexed(items)[NatToString(i)] == items[i]
  {
    forall i | 0 <= i < |items| ensures NatToString(i) in Indexed(items) && Indexed(items)[NatToString(i)] == items[i] {
      IndexedAt(items, i);
    }
  }

  lemma {:induction false} IndexedAt(items: seq<Json>, i: nat)
    requires i < |items|
    ensures NatToString(i) in Indexed(items) && Indexed(items)[NatToString(i)] == items[i]
    decreases |items|
  {
    var n := |items| - 1;
    if i < n {
      var prefix := items[..n];
      IndexedAt(prefix, i);
      DistinctIndexNames(i, n);
      assert prefix[i] == items[i];
    }
  }

  /** The decimal names of the indices below `n`. */
  function IndexNames(n: nat): set<string> {
    set i | 0 <= i < n :: NatToString(i)
  }

  lemma IndexNamesNext(n: nat)
    ensures IndexNames(n + 1) == IndexNames(n) + {NatToString(n)}
  {
    forall k | k in IndexNames(n + 1) ensures k in IndexNames(n) + {NatToString(n)} {
      var i :| 0 <= i < n + 1 && k == NatToString(i);
      if i < n {
        assert k in IndexNames(n);
      }
    }
    forall k | k in IndexNames(n) ensures k in IndexNames(n + 1) {
      var i :| 0 <= i < n && k == NatToString(i);
    }
  }

  lemma DistinctIndexNames(i: nat, n: nat)
    requires i < n
    ensures NatToString(i) != NatToString(n)
  {
    if NatToString(i) == NatToString(n) {
      NatToStringInjective(i, n);
    }
  }

  /** `{ 'content-type': 'application/json', ...headers }`. */
  function PromptHeaders(headers: Json): Json {
    JObject(map["content-type" := JString("application/json")] + SpreadEntries(headers))
  }

  /** The prompt request's headers are the configured ones, each with its configured
      value, plus a JSON `content-type` when the configuration does not set one. */
  lemma PromptHeadersSpec(headers: Json)
    ensures PromptHeaders(headers).JObject?
    ensures PromptHeaders(headers).fields.Keys == SpreadEntries(headers).Keys + {"content-type"}
    ensures forall k :: k in SpreadEntries(headers) ==> PromptHeaders(headers).fields[k] == SpreadEntries(headers)[k]
    ensures "content-type" !in SpreadEntries(headers) ==>
      PromptHeaders(headers).fields["content-type"] == JString("application/json")
  {
  }

  /** A header object from the configuration is copied member for member. */
  lemma ObjectHeadersSpread(fields: map<string, Json>)
    ensures SpreadEntries(JObject(fields)) == fields
  {
  }

  /** `{ conversation_id, prompt, context }` copied from the prompt; a member that is
      `undefined` is one `JSON.stringify` leaves out. */
  function PromptBody(prompt: PromptRequest): Json {
    JObject(Put(Put(Put(map[], "conversation_id", prompt.conversationId), "prompt", prompt.prompt), "context", prompt.context))
  }

  /** The body has a member exactly for each given field of the prompt, under the wire
      name, with the field's value. */
  lemma PromptBodySpec(prompt: PromptRequest)
    ensures Property(PromptBody(prompt), "conversation_id") == prompt.conversationId
    ensures Property(PromptBody(prompt), "prompt") == prompt.prompt
    ensures Property(PromptBody(prompt), "context") == prompt.context
    ensures forall k :: k in PromptBody(prompt).fields ==> k in {"conversation_id", "prompt", "context"}
  {
  }

  /** The message of the error a non-ok response raises. */
  function StatusMessage(id: string, status: nat, text: string): string {
    "Adapter " + id + " responded with " + NatToString(status) + ": " + text
  }

  /** The message names the status and the response text unambiguously: for a given
      adapter, two messages are equal only when both are. */
  lemma StatusMessageInjective(id: string, s1: nat, t1: string, s2: nat, t2: string)
    requires StatusMessage(id, s1, t1) == StatusMessage(id, s2, t2)
    ensures s1 == s2 && t1 == t2
  {
    var prefix := "Adapter " + id + " responded with ";
    var d1, d2 := NatToString(s1), NatToString(s2);
    assert StatusMessage(id, s1, t1) == prefix + (d1 + (": " + t1));
    assert StatusMessage(id, s2, t2) == prefix + (d2 + (": " + t2));
    CancelPrefix(prefix, d1 + (": " + t1), d2 + (": " + t2));
    DigitsThenColon(d1, t1, d2, t2);
    NatToStringInjective(s1, s2);
  }

  /** Equal strings with a common prefix have equal remainders. */
  lemma CancelPrefix(prefix: string, a: string, b: string)
    requires prefix + a == prefix + b
    ensures a == b
  {
    assert a == (prefix + a)[|prefix|..];
    assert b == (prefix + b)[|prefix|..];
  }

  /** Two digit strings each followed by ": " and a text split the same way. */
  lemma DigitsThenColon(d1: string, t1: string, d2: string, t2: string)
    requires forall i :: 0 <= i < |d1| ==> '0' <= d1[i] <= '9'
    requires forall i :: 0 <= i < |d2| ==> '0' <= d2[i] <= '9'
    requires d1 + (": " + t1) == d2 + (": " + t2)
    ensures d1 == d2 && t1 == t2
  {
    var r := d1 + (": " + t1);
    LeadingDigits(d1, ": " + t1);
    LeadingDigits(d2, ": " + t2);
    assert d1 == r[..|d1|] == d2;
    assert t1 == r[|d1| + 2..] == t2;
  }

  /** The object `sendPrompt` returns for the provider's parsed JSON: `result.id` of
      `null` throws, any other value gives `undefined` for a member it lacks. */
  function ResponseFrom(result: Json, latencyMs: real): Result<PromptResponse, JsError> {
    if result.JNull? then Failure(TypeError("Cannot read properties of null (reading 'id')"))
    else Success(PromptResponse(
      Property(result, "id"), Property(result, "text"), latencyMs,
      Usage(Property(result, "prompt_tokens"), Property(result, "completion_tokens"))))
  }

  /** The field mapping: `id` and `text` are copied, the token counts move from the
      provider's snake-case names into `usage`, and only `null` is refused. */
  lemma ResponseFromSpec(result: Json, latencyMs: real)
    ensures ResponseFrom(result, latencyMs).Failure? <==> result == JNull
    ensures ResponseFrom(result, latencyMs).Success? ==>
      var r := ResponseFrom(result, latencyMs).value;
      && r.id == Property(result, "id") && r.text == Property(result, "text")
      && r.latencyMs == latencyMs
      && r.usage.promptTokens == Property(result, "prompt_tokens")
      && r.usage.completionTokens == Property(result, "completion_tokens")
  {
  }

  /** The provider's answer as the JSON object it sends and the response it becomes:
      the JSON names and the response fields carry the same values. */
  lemma ResponseFromObject(id: Json, text: Json, promptTokens: Json, completionTokens: Json, latencyMs: real)
    ensures var result := JObject(map["id" := id, "text" := text, "prompt_tokens" := promptTokens,
                                      "completion_tokens" := completionTokens]);
      ResponseFrom(result, latencyMs)
        == Success(PromptResponse(Some(id), Some(text), latencyMs, Usage(Some(promptTokens), Some(completionTokens))))
  {
  }

  class HttpBrowserAdapter {
    const id: string
    const displayName: string
    const provider: string
    const capabilities: seq<string>
    const baseUrl: string
    const healthEndpoint: Option<string>
    const completionEndpoint: string
    const headers: Json
    const timeoutMs: int
    const logger: Logging.Logger

    /** The public fields copy the configuration; a trailing slash leaves the base URL,
        and missing (or `null`) headers and timeout take their defaults. */
    constructor(configuration: AdapterConfiguration, logger: Logging.Logger)
      ensures id == configuration.id && displayName == configuration.displayName
      ensures provider == configuration.provider && capabilities == configuration.capabilities
      ensures baseUrl == StripTrailingSlash(configuration.baseUrl)
      ensures healthEndpoint == configuration.healthEndpoint
      ensures completionEndpoint == configuration.completionEndpoint
      ensures headers == if configuration.headers.None? || configuration.headers == Some(JNull) then JObject(map[])
                         else configuration.headers.value
      ensures timeoutMs == configuration.timeoutMs.GetOr(DefaultTimeoutMs)
      ensures this.logger == logger
    {
      id := configuration.id;
      displayName := configuration.displayName;
      provider := configuration.provider;
      capabilities := configuration.capabilities;
      baseUrl := StripTrailingSlash(configuration.baseUrl);
      healthEndpoint := configuration.healthEndpoint;
      completionEndpoint := configuration.completionEndpoint;
      headers := match configuration.headers
        case None => JObject(map[])
        case Some(JNull) => JObject(map[])
        case Some(h) => h;
      timeoutMs := match configuration.timeoutMs
        case None => DefaultTimeoutMs
        case Some(t) => t;
      this.logger := logger;
    }

    /** `initialize()`: one info line naming the adapter, nothing else. */
    method Initialize(timestamp: string) returns (line: Option<Logging.LogLine>)
      ensures line.Some? <==> Logging.Rank(logger.threshold) <= Logging.Rank(Logging.Info)
      ensures line.Some? ==> EndsWith(line.value.text, "] [INFO] " + ("Initialized HTTP adapter " + displayName))
    {
      line := Logging.Log(logger, Logging.Info, timestamp, "Initialized HTTP adapter " + displayName, None);
      InfoLine(logger, timestamp, "Initialized HTTP adapter " + displayName);
    }

    /** `dispose()`: one info line naming the adapter, nothing else. */
    method Dispose(timestamp: string) returns (line: Option<Logging.LogLine>)
      ensures line.Some? <==> Logging.Rank(logger.threshold) <= Logging.Rank(Logging.Info)
      ensures line.Some? ==> EndsWith(line.value.text, "] [INFO] " + ("Disposing adapter " + id))
    {
      line := Logging.Log(logger, Logging.Info, timestamp, "Disposing adapter " + id, None);
      InfoLine(logger, timestamp, "Disposing adapter " + id);
    }

    /** `isHealthy()`: with no (or an empty) health endpoint it answers true without a
        request; otherwise it GETs the endpoint and answers the response's `ok`, and
        false when the request fails. It never throws. */
    method IsHealthy(fetch: Request -> Result<Response, JsError>) returns (healthy: bool, request: Option<Request>)
      ensures healthEndpoint.None? || healthEndpoint == Some("") ==> healthy && request.None?
      ensures healthEndpoint.Some? && healthEndpoint != Some("") ==>
        && request == Some(Request(baseUrl + healthEndpoint.value, "GET", headers, None, timeoutMs))
        && (healthy <==> fetch(request.value).Success? && IsOk(fetch(request.value).value))
    {
      if healthEndpoint.None? || healthEndpoint.value == "" {
        return true, None;
      }
      var r := Request(baseUrl + healthEndpoint.value, "GET", headers, None, timeoutMs);
      request := Some(r);
      var outcome := fetch(r);
      if outcome.Failure? {
        healthy := false;
      } else {
        healthy := IsOk(outcome.value);
      }
    }

    /** `sendPrompt(prompt)`: one POST of the prompt body to the completion endpoint; a
        non-ok status becomes an error naming the adapter, the status and the body text,
        and every error on the way (fetch, `text()`, `json()`, reading `null`) reaches the
        caller unchanged. */
    method SendPrompt(prompt: PromptRequest, fetch: Request -> Result<Response, JsError>, latencyMs: real)
      returns (result: Result<PromptResponse, JsError>, request: Request)
      ensures request == Request(baseUrl + completionEndpoint, "POST", PromptHeaders(headers), Some(PromptBody(prompt)), timeoutMs)
      ensures fetch(request).Failure? ==> result == Failure(fetch(request).error)
      ensures fetch(request).Success? && !IsOk(fetch(request).value) ==>
        result == match fetch(request).value.text
          case Failure(e) => Failure(e)
          case Success(t) => Failure(Error(StatusMessage(id, fetch(request).value.status, t)))
      ensures fetch(request).Success? && IsOk(fetch(request).value) ==>
        result == match fetch(request).value.json
          case Failure(e) => Failure(e)
          case Success(j) => ResponseFrom(j, latencyMs)
    {
      request := Request(baseUrl + completionEndpoint, "POST", PromptHeaders(headers), Some(PromptBody(prompt)), timeoutMs);
      var outcome := fetch(request);
      if outcome.Failure? {
        return outcome.PropagateFailure(), request;
      }
      var response := outcome.value;
      if !IsOk(response) {
        if response.text.Failure? {
          return Failure(response.text.error), request;
        }
        return Failure(Error(StatusMessage(id, response.status, response.text.value))), request;
      }
      if response.json.Failure? {
        return Failure(response.json.error), request;
      }
      result := ResponseFrom(response.json.value, latencyMs);
    }
  }

  /** How many decimal digits a string starts with. */
  function DigitRun(s: string): (n: nat)
    ensures n <= |s|
  {
    if s != [] && '0' <= s[0] <= '9' then 1 + DigitRun(s[1..]) else 0
  }

  lemma {:induction false} LeadingDigits(digits: string, rest: string)
    requires forall i :: 0 <= i < |digits| ==> '0' <= digits[i] <= '9'
    requires rest != [] && !('0' <= rest[0] <= '9')
    ensures DigitRun(digits + rest) == |digits|
    decreases |digits|
  {
    if digits != [] {
      assert (digits + rest)[1..] == digits[1..] + rest;
      LeadingDigits(digits[1..], rest);
    }
  }

  /** An info-level line is emitted unless the threshold is above info, and it ends with
      the level label and the message. */
  lemma InfoLine(logger: Logging.Logger, timestamp: string, message: string)
    ensures var line := Logging.Log(logger, Logging.Info, timestamp, message, None);
      && (line.Some? <==> Logging.Rank(logger.threshold) <= Logging.Rank(Logging.Info))
      && (line.Some? ==> EndsWith(line.value.text, "] [INFO] " + message))
  {
    Logging.EmittedIffAtLeastThreshold(logger, Logging.Info, timestamp, message, None);
    var line := Logging.Log(logger, Logging.Info, timestamp, message, None);
    if line.Some? {
      Logging.UpperNames();
      assert line.value.text == "[" + timestamp + ("] [INFO] " + message);
    }
  }
}
