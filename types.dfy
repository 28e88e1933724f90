/** The records that the repository's type definitions declare (src/core/types.js). */
module Types {
  import opened Wrappers
  import opened Json

  /** One adapter descriptor. `headers` holds whatever object the configuration gave
      (the validator keeps any truthy object, arrays included); `webBased` is the
      kind flag that the registry reads. */
  datatype AdapterConfiguration = AdapterConfiguration(
    id: string,
    displayName: string,
    provider: string,
    baseUrl: string,
    healthEndpoint: Option<string>,
    completionEndpoint: string,
    capabilities: seq<string>,
    headers: Option<Json>,
    timeoutMs: Option<int>,
    webBased: Option<bool>)

  /** The proxy's options, each already converted by `Number()` or `String()`. */
  datatype ProxyOptions = ProxyOptions(
    port: real,
    host: string,
    heartbeatIntervalMs: real,
    shutdownGracePeriodMs: real)

  datatype DevConConfiguration = DevConConfiguration(
    adapters: seq<AdapterConfiguration>,
    proxy: ProxyOptions)

  /** What a client's request frame asks of an adapter: each field is whatever the
      parsed message held under that name, `None` when it was absent. */
  datatype PromptRequest = PromptRequest(
    conversationId: Option<Json>,
    prompt: Option<Json>,
    context: Option<Json>)

  datatype Usage = Usage(promptTokens: Option<Json>, completionTokens: Option<Json>)

  /** An adapter's answer. The HTTP adapter copies `id` and `text` from the provider's
      JSON without checking them, so they are JSON values too; the latency is a clock
      difference supplied from outside. */
  datatype PromptResponse = PromptResponse(
    id: Option<Json>,
    text: Option<Json>,
    latencyMs: real,
    usage: Usage)

  /** Adds a member to an object literal unless its value is `undefined`, which
      `JSON.stringify` leaves out. */
  function Put(fields: map<string, Json>, key: string, v: Option<Json>): (r: map<string, Json>)
    ensures v.Some? ==> r == fields[key := v.value]
    ensures v.None? ==> r == fields
  {
    if v.Some? then fields[key := v.value] else fields
  }

  /** The usage record as it travels inside the proxy's reply message. */
  function UsageToJson(u: Usage): (r: Json)
    ensures r.JObject?
    ensures "promptTokens" in r.fields <==> u.promptTokens.Some?
    ensures "completionTokens" in r.fields <==> u.completionTokens.Some?
  {
    JObject(Put(Put(map[], "promptTokens", u.promptTokens), "completionTokens", u.completionTokens))
  }

  /** The response as it travels inside the proxy's reply message. */
  function ResponseToJson(r: PromptResponse): (j: Json)
    ensures j.JObject? && "latencyMs" in j.fields && "usage" in j.fields
    ensures j.fields["latencyMs"] == JNumber(r.latencyMs) && j.fields["usage"] == UsageToJson(r.usage)
    ensures "id" in j.fields <==> r.id.Some?
    ensures "text" in j.fields <==> r.text.Some?
  {
    JObject(Put(Put(map["latencyMs" := JNumber(r.latencyMs), "usage" := UsageToJson(r.usage)],
      "id", r.id), "text", r.text))
  }
}
