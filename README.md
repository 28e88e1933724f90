# DevConX proxy core in Dafny

DevConX is a local WebSocket proxy that carries chat prompts from an editor to AI
chat adapters. It has five sequential parts, and this project models each of them
and proves properties of the model:

- **Frame codec, handshake and connection bookkeeping** (`dist/backend/proxyServer.js`).
  - `FrameCodec` holds the frame decoder and encoder. They follow the base framing of
    section 5.2 and the client masking of section 5.3 of RFC 6455. The decoder's
    in-place unmasking works on an `array`.
  - `Handshake` holds the upgrade check. It is the simplified form of sections 4.2.1
    and 4.2.2 of RFC 6455 that the server writes.
  - `Proxy` holds the `ProxyServer` class. Its set of client sockets is a sequence
    field, in insertion order. Everything the server writes or does to a socket or to
    itself is appended to a `trace` of events.
- **Adapter registry** (`dist/adapters/adapterRegistry.js`). The `Registry` module holds
  the `AdapterRegistry` class: a map from id to adapter, plus the order in which keys
  were first set.
- **HTTP adapter** (`dist/adapters/httpBrowserAdapter.js`). The `HttpAdapter` module
  holds the `HttpBrowserAdapter` class. It covers the defaults its constructor sets,
  the requests it builds, and how it maps the provider's answer. `fetch` is a function
  parameter.
- **Configuration validator** (`src/core/config.js`). The `Config` module models the
  guard chains of `normalizeAdapter` and `normalizeConfiguration` over a JSON datatype.
- **Log filter** (`src/core/logger.js`). The `Logging` module models the priority
  table, the threshold test and the line format.

Shared modules:

- `Wrappers` holds `Option` and `Result`.
- `Text` holds string helpers with the JavaScript whitespace set, decimal spelling,
  and sequence-as-set helpers.
- `Json` holds the JSON value type, JavaScript errors, property reads, truthiness, and
  `String()`/`Number()`.
- `Types` holds the records of `src/core/types.js`.

Foreign functions become parameters:

- SHA-1 with base64 is a `digest` function.
- UTF-8 encoding, `JSON.parse` and `JSON.stringify` are functions in the proxy's
  `Environment`.
- An adapter's `sendPrompt`, and the web adapter's `initialize`/`dispose`, are
  functions that give a result, or the error they reject with.
- The engine's number-to-string and string-to-number conversions are a `Coercions`
  value.
- Clocks come in as arguments: the heartbeat's `Date.now()`, the logger's ISO
  timestamp, and the latency `performance.now()` measures.

Where the specification of the system and the code disagree, the model follows the
code:

- `ProxyServer.Stop` is not idempotent. This follows `dist/backend/proxyServer.js:62-70`:
  once the server is closed, a second `close` reports that the server is not running,
  and the registry is not disposed again.
- `normalizeAdapter` keeps a truthy health endpoint whose string form is empty. This
  follows `src/core/config.js:38`; see Findings.

## Model

| member | source | states |
|---|---|---|
| Logging.Priority | src/core/logger.js:6-11 | every level has one of the four table priorities 10, 20, 30, 40 |
| Logging.PriorityStrictlyOrdered | src/core/logger.js:6-11 | the priorities order the levels strictly by severity: debug < info < warn < error, and distinct levels have distinct priorities |
| Logging.DefaultLogger | src/core/logger.js:21-24 | a logger built without a level has threshold info |
| Logging.Log | src/core/logger.js:46-58 | an emitted line passes the payload argument on exactly as given, and omits it when it is undefined |
| Logging.EmittedIffAtLeastThreshold | src/core/logger.js:46-49 | a message is emitted if and only if its level is at least as severe as the threshold |
| Logging.ErrorAlwaysEmitted | src/core/logger.js:46-49 | error messages are emitted under every threshold |
| Logging.DefaultThresholdIsInfo | src/core/logger.js:21-24 | under the default logger, exactly the debug messages are dropped |
| Logging.ThresholdMonotone | src/core/logger.js:46-49 | raising the threshold never makes a suppressed message appear |
| Logging.EmittedLineShape | src/core/logger.js:51-57 | an emitted line is `[timestamp] ` followed by `[LEVEL] message`, with the level name upper-cased |
| Logging.UpperNames | src/core/logger.js:52 | the four labels are DEBUG, INFO, WARN and ERROR |
| FrameCodec.XorTwice | dist/backend/proxyServer.js:197-201 | XOR with the same key byte twice gives back the byte |
| FrameCodec.BigEndian | dist/backend/proxyServer.js:182-187 | a `w`-byte big-endian field reads as a number below 256^w |
| FrameCodec.BigEndianRoundTrip | dist/backend/proxyServer.js:182-187 | reading back a number written as a `w`-byte big-endian field gives the number |
| FrameCodec.ByteAt | dist/backend/proxyServer.js:175-176 | a byte past the end of the buffer reads as 0, which is what `undefined & mask` gives |
| FrameCodec.Slice | dist/backend/proxyServer.js:196 | `buffer.slice(start, end)` is clamped to the bytes present and is empty past the end |
| FrameCodec.Opcode | dist/backend/proxyServer.js:177 | the opcode is the low four bits of the first byte |
| FrameCodec.PayloadLength | dist/backend/proxyServer.js:179-188 | the 7-bit length is used exactly when it is below 126, with offset 2. Marker 126 selects the 16-bit big-endian field and offset 4, and marker 127 the 64-bit field and offset 10; a non-minimal field is read as it stands. Reading fails exactly when that field runs past the end, and then with a RangeError |
| FrameCodec.Unmask | dist/backend/proxyServer.js:197-201 | unmasking keeps the payload length |
| FrameCodec.DecodeAfterLength | dist/backend/proxyServer.js:190-203 | after the length: a masked frame's payload is the clamped slice after the 4 key bytes XORed with `key[i % 4]`; an unmasked frame's payload is the clamped slice at the offset |
| FrameCodec.DecodeFrame | dist/backend/proxyServer.js:174-204 | specified by FrameCodec.DecodeFrameOutcome and FrameCodec.DecodeAfterLength: the opcode, the length field, the optional key, then the clamped and unmasked payload |
| FrameCodec.DecodeFrameOutcome | dist/backend/proxyServer.js:174-204 | decoding throws exactly when reading the length field does, and then with a RangeError. Otherwise the opcode is the low nibble of the first byte and the payload holds at most the announced length |
| FrameCodec.EncodeFrame | dist/backend/proxyServer.js:206-226 | the frame is a header, then the payload unchanged at the end |
| FrameCodec.EncodeHeaderShape | dist/backend/proxyServer.js:206-226 | the first byte is always 0x81 and the mask bit is never set. The header is 2 bytes with the length inline below 126; 4 bytes with 126 and a 16-bit big-endian length below 65536; otherwise 10 bytes with 127 and a 64-bit big-endian length |
| FrameCodec.EncodeBoundaryLengths | dist/backend/proxyServer.js:211-225 | frames of 0, 125, 126, 65535 and 65536 bytes take 2, 127, 130, 65539 and 65546 bytes |
| FrameCodec.DecodeLengthOfField | dist/backend/proxyServer.js:177-188 | the decoder reads back the length, the mask bit and the opcode that a length field was written with |
| FrameCodec.DecodeEncodeRoundTrip | dist/backend/proxyServer.js:174-226 | an encoded frame, followed by any further bytes, decodes to opcode 1 and exactly the original payload |
| FrameCodec.DecodeEncode | dist/backend/proxyServer.js:174-226 | decoding an encoded frame gives opcode 1 and exactly the original payload, for every length |
| FrameCodec.DecodeTruncated | dist/backend/proxyServer.js:196 | a frame cut short k bytes into its payload decodes to the first k payload bytes: truncation is silent |
| FrameCodec.UnmaskMask | dist/backend/proxyServer.js:197-201 | unmasking a masked payload with the same 4-byte key recovers it |
| FrameCodec.DecodeMaskedFrame | dist/backend/proxyServer.js:190-201 | a masked frame decodes to its opcode, and payload byte i is wire byte i XOR `key[i % 4]` |
| FrameCodec.DecodeClientFrame | dist/backend/proxyServer.js:190-201 | a client-masked text frame decodes to opcode 1 and the original payload |
| FrameCodec.MaskedPayloadBytes | dist/backend/proxyServer.js:196-201 | a masked frame's decoded payload is no longer than the declared length, and lies within the buffer after the key |
| FrameCodec.UnmaskInPlace | dist/backend/proxyServer.js:197-201 | the XOR loop turns the array range into its unmasked form and leaves every byte outside it unchanged |
| FrameCodec.PayloadWindow | dist/backend/proxyServer.js:190-196 | the payload's slice starts past the length field and any key, ends no later than the buffer, and is never reversed |
| FrameCodec.DecodeInPlace | dist/backend/proxyServer.js:174-204 | the array decoder returns the error and leaves the array as it was, or the opcode and a view over the array whose bytes are the decoded payload. The view starts after the length field and the key, and is cut at the end of the buffer. The bytes in the view are changed, because the slice shares its memory. Every byte outside it is unchanged |
| Json.ConvertibleExamples | src/core/config.js:40 | `String()` throws on an object with its own `toString` member, and on an array holding one at any depth. It does not throw on an object whose `toString` member sits in a nested object |
| Handshake.LowerChar | dist/backend/proxyServer.js:76 | `toLowerCase` maps each ASCII capital to the lower-case letter 32 code points above it, and the Kelvin sign U+212A to 'k' |
| Handshake.Lower | dist/backend/proxyServer.js:76 | the modelled lower-casing maps character by character and keeps the length (see Left out for the characters it leaves as they are) |
| Handshake.Latin1 | dist/backend/proxyServer.js:171 | the `'binary'` encoding hashes one byte per character |
| Handshake.AcceptValue | dist/backend/proxyServer.js:171 | specified by Handshake.DecideSpec: the accept value is the given digest (SHA-1, then base64) of the Latin-1 bytes of the key followed by the GUID 258EAFA5-E914-47DA-95CA-C5AB0DC85B11 of section 1.3 of RFC 6455 |
| Handshake.Decide | dist/backend/proxyServer.js:75-97 | specified by Handshake.DecideSpec |
| Handshake.DecideSpec | dist/backend/proxyServer.js:75-97 | a request is accepted if and only if it is a GET whose Upgrade header lower-cases to "websocket" and whose key is a single non-empty string; the reply is the 101 response with the accept value of that key |
| Handshake.SwitchingProtocolsInjective | dist/backend/proxyServer.js:89-97 | two 101 responses are equal exactly when their accept values are |
| Handshake.SwitchingProtocolsShape | dist/backend/proxyServer.js:90-97 | the 101 response starts with its status line and ends with a blank line |
| Handshake.VersionAndOriginIgnored | dist/backend/proxyServer.js:75-88 | the Sec-WebSocket-Version and Origin headers do not affect the decision |
| Handshake.UpgradeHeaderExamples | dist/backend/proxyServer.js:76 | any capitalisation of "websocket" passes, including the Kelvin sign for k. A token list such as "websocket, h2c" fails |
| Config.AssertString | src/core/config.js:7-11 | succeeds exactly on a string that is not blank after trimming, and otherwise fails with the given message |
| Config.AssertNumber | src/core/config.js:13-17 | succeeds exactly on a number that is not NaN, and otherwise fails with the given message |
| Config.CheckRequired | src/core/config.js:20-24 | succeeds exactly when all five required fields are non-blank strings, and then returns them |
| Config.Assemble | src/core/config.js:33-43 | the output has as many capabilities as the input, and no `webBased` |
| Config.NormalizeAdapter | src/core/config.js:19-44 | the corrected normalisation fails exactly when the code as written fails, with the same error. Otherwise it differs only in mapping an empty health endpoint to undefined |
| Config.NormalizeAdapterAsWritten | src/core/config.js:19-44 | specified by the contract of Config.NormalizeAdapter (the same failures with the same errors, and the same descriptor except for an empty health endpoint) and by Config.AsWrittenNotIdempotent |
| Config.NormalizeAdapterSpec | src/core/config.js:19-44 | passes exactly for a non-null value with the five strings, non-empty capabilities and a positive-integer or absent `timeoutMs`, when every value that `String()` or `Number()` converts has a primitive form. The output copies each string and stringifies each capability. A falsy health endpoint becomes undefined, and a truthy one becomes its string form. Only object headers are kept, and `timeoutMs` is absent or the converted number. `webBased` is dropped |
| Config.FirstInvalidRequiredFieldWins | src/core/config.js:20-24 | the first required field that fails names the error, whatever later fields hold |
| Config.CapabilitiesThenTimeout | src/core/config.js:25-43 | with the strings valid, the order is: bad capabilities are reported; then `Number(timeoutMs)` throws a TypeError on a value without a primitive form; then a bad `timeoutMs` is reported; last, the literal's `String()` of the health endpoint or a capability throws |
| Config.NormalizeAdapters | src/core/config.js:50 | the mapped list has the input's length |
| Config.NormalizeAdaptersAt | src/core/config.js:50 | the i-th normalised adapter is the normalisation of the i-th element |
| Config.FirstAdapterErrorSurfaces | src/core/config.js:50 | the map fails with the error of its first failing element |
| Config.MapUntilThrow | src/core/config.js:50 | a `map` whose callback may throw has, when it completes, one result per element |
| Config.MapUntilThrowAt | src/core/config.js:50 | when the map completes, its i-th result is the callback's result on the i-th element |
| Config.MapUntilThrowFirstFailure | src/core/config.js:50 | the map throws the error of the first element whose callback throws |
| Config.AdapterListEmptyIff | src/core/config.js:50 | the adapter list is empty exactly when `adapters` is missing, is not an array, or is an empty array |
| Config.AdapterList | src/core/config.js:50 | specified by Config.AdapterListEmptyIff and Config.ConfigurationErrorOrder |
| Config.NormalizeConfiguration | src/core/config.js:46-69 | specified by Config.ConfigurationErrorOrder, Config.ProxyErrorOrder, Config.NormalizedConfigurationIsWellFormed and Config.NormalizeConfigurationIdempotent |
| Config.ConfigurationErrorOrder | src/core/config.js:46-56 | a non-object fails first, then an adapter error, then an empty adapter list, then a missing or non-object proxy, each with its message |
| Config.ProxyErrorOrder | src/core/config.js:57-68 | the four conversions come first, and one of a value without a primitive form throws a TypeError. Then port, heartbeat interval and grace period must be numbers, in that order; only then is the host's string form checked for blankness. Otherwise the result holds the adapters and the converted proxy |
| Config.MissingHostBecomesUndefined | src/core/config.js:59 | a proxy without a host, whose three numbers convert, passes with the host "undefined" |
| Config.ValidateAdapter | src/core/config.js:92-94 | a typed descriptor validates exactly when it is acceptable, and then comes back in canonical, well-formed form |
| Config.AdapterToJson | src/core/config.js:88 | a descriptor is written as a JSON object |
| Config.AdaptersToJson | src/core/config.js:88 | the written adapter list has one element per adapter |
| Config.AdapterToJsonFields | src/core/config.js:88 | each field of a written descriptor is read back under its own name |
| Config.WellFormedAdapterRoundTrip | src/core/config.js:19-44 | a descriptor in normal form, written and normalised, is itself |
| Config.AdapterRoundTrip | src/core/config.js:19-44 | a written descriptor normalises exactly when it is acceptable, and then to its canonical form |
| Config.NormalizedAdapterIsWellFormed | src/core/config.js:19-44 | whatever normalisation returns is acceptable and canonical |
| Config.NormalizeAdapterIdempotent | src/core/config.js:19-44 | normalising a normalised descriptor returns it unchanged |
| Config.NormalizeWellFormedAdapters | src/core/config.js:50 | well-formed adapters, written and mapped back, are unchanged |
| Config.NormalizedConfigurationIsWellFormed | src/core/config.js:46-69 | a normalised configuration has adapters, a non-blank host, and only well-formed adapters |
| Config.ConfigurationToJsonFields | src/core/config.js:88 | the written configuration carries its adapters and its proxy fields under their names |
| Config.WellFormedConfigurationRoundTrip | src/core/config.js:46-69 | a well-formed configuration, written and normalised, is itself |
| Config.NormalizeConfigurationIdempotent | src/core/config.js:86-88 | re-validating in `save` returns an equal configuration |
| Config.AsWrittenNotIdempotent | src/core/config.js:38 | as written, an empty-array health endpoint normalises to "", and normalising the result again gives a different descriptor |
| Registry.Insert | dist/adapters/adapterRegistry.js:35 | `set` keeps the table consistent and stores the adapter under its id |
| Registry.InitializeAll | dist/adapters/adapterRegistry.js:25-38 | initialisation keeps the table consistent: unique keys in order, and each entry stored under its own id |
| Registry.SomeInitializesCons | dist/adapters/adapterRegistry.js:27-36 | an id is initialised by a list exactly when its head or its tail initialises it |
| Registry.InitializeKeys | dist/adapters/adapterRegistry.js:25-38 | afterwards, the keys are the earlier keys plus the ids whose adapter initialised. Nothing inserted is rolled back when another adapter fails |
| Registry.InitializeKeeps | dist/adapters/adapterRegistry.js:34-35 | a stored entry stays as it is while no later configuration with its id initialises, because `set` follows only a resolved `initialize` |
| Registry.InitializeStoresBuilt | dist/adapters/adapterRegistry.js:27-35 | the adapter stored under an id is the one built, with the kind the selection rule picks, for the last configuration with that id whose adapter initialised |
| Registry.InitializeFromEmptyStores | dist/adapters/adapterRegistry.js:25-38 | from an empty registry, with distinct ids and every adapter initialising, each configuration's id maps to the adapter built for it |
| Registry.InitializeError | dist/adapters/adapterRegistry.js:26-37 | `initialize` fails with the first error among its adapters' `initialize` calls, and succeeds when none fails |
| Registry.InitializeFromEmpty | dist/adapters/adapterRegistry.js:25-38 | when every adapter initialises, the call succeeds and the keys are exactly the configured ids, one entry each |
| Registry.InitializedIds | dist/adapters/adapterRegistry.js:25-38 | from an empty table, with every adapter initialising, the keys are exactly the configured ids |
| Registry.KindAfterNormalisation | dist/adapters/adapterRegistry.js:29-33 | for a configuration without `webBased`, the web adapter is chosen exactly when the completion endpoint starts with "http" |
| Registry.SelectKind | dist/adapters/adapterRegistry.js:29 | specified by Registry.KindAfterNormalisation and Registry.InitializeStoresBuilt |
| Registry.FirstErrorSpec | dist/adapters/adapterRegistry.js:53-54 | the combined outcome is None exactly when every call resolves; otherwise it is the error of the first adapter in list order that rejects |
| Registry.FirstError | dist/adapters/adapterRegistry.js:54 | specified by Registry.FirstErrorSpec and Registry.FirstErrorSnoc |
| Registry.AdapterRegistry.constructor | dist/adapters/adapterRegistry.js:20-23 | a new registry holds its configurations and no adapters |
| Registry.AdapterRegistry.Initialize | dist/adapters/adapterRegistry.js:25-38 | the loop leaves the table and returns the error that the sequential specification gives |
| Registry.AdapterRegistry.Get | dist/adapters/adapterRegistry.js:41-47 | succeeds exactly when the id is a key, with the stored adapter; otherwise fails with "Adapter with id <id> is not registered". It changes nothing |
| Registry.AdapterRegistry.List | dist/adapters/adapterRegistry.js:49-51 | one element per entry, in insertion order, and every stored adapter is listed. It is a value, so changing it cannot change the registry |
| Registry.AdapterRegistry.Dispose | dist/adapters/adapterRegistry.js:53-56 | every listed adapter's `dispose` is called, in order, and the error is the first one among them. On success the map is empty, so every later `Get` fails; on failure it is unchanged |
| Registry.NoDuplicatesCardinality | dist/adapters/adapterRegistry.js:49-51 | an order without duplicates over exactly the key set has the key count as its length |
| Registry.DisposeEach | dist/adapters/adapterRegistry.js:54 | the loop calls every adapter and returns the first error |
| Registry.FirstErrorSnoc | dist/adapters/adapterRegistry.js:54 | appending one adapter changes the first error only if none occurred before |
| HttpAdapter.StripTrailingSlash | dist/adapters/httpBrowserAdapter.js:18 | one trailing '/' is removed, and a URL without one is unchanged |
| HttpAdapter.StripsAtMostOne | dist/adapters/httpBrowserAdapter.js:18 | of two trailing slashes, only one is removed |
| HttpAdapter.IndexedKeys | dist/adapters/httpBrowserAdapter.js:68 | spreading an array or a string gives exactly the index names as keys |
| HttpAdapter.IndexedValues | dist/adapters/httpBrowserAdapter.js:68 | the member under each index name is the element at that index |
| HttpAdapter.IndexedAt | dist/adapters/httpBrowserAdapter.js:68 | the member under index name i is element i |
| HttpAdapter.IndexNamesNext | dist/adapters/httpBrowserAdapter.js:68 | the index names of n+1 elements are those of n plus the decimal spelling of n |
| HttpAdapter.DistinctIndexNames | dist/adapters/httpBrowserAdapter.js:68 | distinct indices have distinct names |
| HttpAdapter.PromptHeadersSpec | dist/adapters/httpBrowserAdapter.js:68 | the request headers are the configured members with their values, plus `content-type: application/json`. A configured header of the same name wins |
| HttpAdapter.PromptHeaders | dist/adapters/httpBrowserAdapter.js:68 | specified by HttpAdapter.PromptHeadersSpec and HttpAdapter.ObjectHeadersSpread |
| HttpAdapter.ObjectHeadersSpread | dist/adapters/httpBrowserAdapter.js:68 | configured object headers are copied member for member |
| HttpAdapter.PromptBodySpec | dist/adapters/httpBrowserAdapter.js:53-57 | the body holds exactly `conversation_id`, `prompt` and `context`, copied from the prompt when given |
| HttpAdapter.PromptBody | dist/adapters/httpBrowserAdapter.js:53-57 | specified by HttpAdapter.PromptBodySpec |
| HttpAdapter.StatusMessageInjective | dist/adapters/httpBrowserAdapter.js:73-76 | for one adapter, the error message determines both the status and the response text |
| HttpAdapter.StatusMessage | dist/adapters/httpBrowserAdapter.js:73-76 | specified by HttpAdapter.StatusMessageInjective |
| HttpAdapter.DigitsThenColon | dist/adapters/httpBrowserAdapter.js:75 | a decimal status followed by ": " and a text splits in one way only |
| HttpAdapter.ResponseFromSpec | dist/adapters/httpBrowserAdapter.js:78-88 | the mapping fails only on `null`. Otherwise `id` and `text` are copied, `prompt_tokens` and `completion_tokens` become the usage counts, and the latency is the measured one |
| HttpAdapter.ResponseFrom | dist/adapters/httpBrowserAdapter.js:78-88 | specified by HttpAdapter.ResponseFromSpec and HttpAdapter.ResponseFromObject |
| HttpAdapter.ResponseFromObject | dist/adapters/httpBrowserAdapter.js:78-88 | a provider object with the four members becomes the response carrying those values |
| HttpAdapter.HttpBrowserAdapter.constructor | dist/adapters/httpBrowserAdapter.js:13-24 | the public fields copy the configuration. One trailing slash leaves the base URL, missing or null headers become `{}`, and a missing timeout becomes 15000 |
| HttpAdapter.HttpBrowserAdapter.Initialize | dist/adapters/httpBrowserAdapter.js:26-28 | it only logs: one info line "Initialized HTTP adapter <displayName>", emitted unless the threshold is above info |
| HttpAdapter.HttpBrowserAdapter.Dispose | dist/adapters/httpBrowserAdapter.js:96-98 | it only logs: one info line "Disposing adapter <id>", emitted unless the threshold is above info |
| HttpAdapter.HttpBrowserAdapter.IsHealthy | dist/adapters/httpBrowserAdapter.js:30-49 | with no or an empty health endpoint, it answers true with no request. Otherwise it makes one GET of base URL plus endpoint, and answers true exactly when fetch resolves with an ok status. It never fails |
| HttpAdapter.HttpBrowserAdapter.SendPrompt | dist/adapters/httpBrowserAdapter.js:52-94 | it makes one POST of the prompt body and merged headers to base URL plus completion endpoint. A non-ok status fails with the message naming the adapter, the status and the text; every fetch, `text()` and `json()` error is passed on unchanged; otherwise the result is the mapped response |
| HttpAdapter.InfoLine | src/core/logger.js:46-57 | an info line is emitted unless the threshold is above info, and it ends with `] [INFO] message` |
| Proxy.TextFrameDecodes | dist/backend/proxyServer.js:206-226 | every frame the server sends decodes as a text frame holding the text's bytes |
| Proxy.Lookup | dist/backend/proxyServer.js:134 | the lookup succeeds exactly when `adapterId` is a registered string key. Any other value, undefined included, fails with the message naming its string form, or with a TypeError when building that message meets a value without a primitive form |
| Proxy.RespondSpec | dist/backend/proxyServer.js:133-148 | a reply exists exactly when the payload parses to a non-null value, names a registered adapter, and the dispatch succeeds. The reply then carries that adapter's id and response |
| Proxy.Respond | dist/backend/proxyServer.js:133-148 | specified by Proxy.RespondSpec |
| Proxy.ReplyMessageShape | dist/backend/proxyServer.js:141-147 | the reply message has type "response" and data holding the adapter id and the response |
| Proxy.ReactByOpcode | dist/backend/proxyServer.js:121-131 | for a decodable frame: opcode 8 closes, an opcode other than 1 and 8 is ignored, and only opcode 1 can be answered |
| Proxy.React | dist/backend/proxyServer.js:121-148 | specified by Proxy.ReactByOpcode and Proxy.ReactToClientFrame |
| Proxy.ReactToClientFrame | dist/backend/proxyServer.js:121-148 | a client-masked text frame is answered from its unmasked payload |
| Proxy.HeartbeatMessage | dist/backend/proxyServer.js:151-163 | the heartbeat has type "heartbeat", the time, and one summary per listed adapter, in list order |
| Proxy.SummaryFields | dist/backend/proxyServer.js:156-161 | a summary holds exactly id, displayName, provider and capabilities |
| Proxy.Summary | dist/backend/proxyServer.js:156-161 | specified by Proxy.SummaryFields |
| Proxy.AddressOf | dist/backend/proxyServer.js:43-50 | undefined exactly for a null or pipe address; otherwise the bound port |
| Proxy.AddressHost | dist/backend/proxyServer.js:48 | the host "::" is reported as 127.0.0.1, and every other host as bound |
| Proxy.WriteToAll | dist/backend/proxyServer.js:165-167 | the loop over the set writes the one frame to each socket, in set order |
| Proxy.ProxyServer.constructor | dist/backend/proxyServer.js:14-19 | a new server has no clients, no heartbeat and no address |
| Proxy.ProxyServer.Start | dist/backend/proxyServer.js:21-41 | the registry is initialised first. On failure nothing else changes; on success the clients are emptied, the server is bound to the IP address it listens on, and the heartbeat is armed |
| Proxy.ProxyServer.GetAddress | dist/backend/proxyServer.js:43-50 | undefined exactly when the server has no network address |
| Proxy.ProxyServer.HandleUpgrade | dist/backend/proxyServer.js:75-99 | a refused request gets the 400 text and a destroy, and the set is unchanged. An accepted one gets the 101 response and its socket joins the set. The started flag, the heartbeat and the address are unchanged |
| Proxy.ProxyServer.Forget | dist/backend/proxyServer.js:110-118 | a socket's close or error event removes only that socket and writes nothing. The started flag, the heartbeat and the address are unchanged |
| Proxy.ProxyServer.HandleData | dist/backend/proxyServer.js:102-107 | the reaction is that of the frame's bytes. A close ends and removes the socket; an ignored frame changes nothing; a reply is one write, to that socket only; a failure destroys and removes only that socket. The started flag, the heartbeat and the address are unchanged. An undecodable buffer is left as it was. After a decoded one, the payload window holds the unmasked payload and every other byte is unchanged |
| Proxy.ProxyServer.BroadcastHeartbeat | dist/backend/proxyServer.js:151-168 | one frame built from the registry list taken now is written to every client in the set. The set, the started flag, the heartbeat and the address are unchanged |
| Proxy.ProxyServer.Stop | dist/backend/proxyServer.js:52-73 | the interval is cleared, every client destroyed and the set emptied; then the server closes and the registry is disposed, in that order. When not listening it fails with "Server is not running." and the registry is untouched. The dispose error is the first adapter error, and the registry is cleared exactly when there is none. Afterwards the server has no address, and the started flag and the heartbeat flag are as before |
| Proxy.StopDestroysEveryClient | dist/backend/proxyServer.js:57-60 | every socket that was in the set has a Destroyed event after `stop` |

## Left out

- Sockets, the HTTP server and event wiring are not modelled. A socket is an id, the
  server's effects are trace events, and each listener of `#handleUpgrade` is a method
  the host calls.
- Connection ids from `randomUUID`, and every log call inside the proxy and the
  registry, are left out. They affect no state. The HTTP adapter's `initialize` and
  `dispose` lines are modelled.
- SHA-1 with base64, UTF-8 encoding, `JSON.parse` and `JSON.stringify` are functions
  given from outside. The example key of section 1.3 of RFC 6455 is therefore not
  stated.
- 64-bit lengths above 2^53, which `Number(...)` rounds at
  `dist/backend/proxyServer.js:186`, are read exactly.
- FIN and RSV bits are ignored, as in the code. No close frame is sent in reply, as in
  the code.
- The asynchronous interleaving of `#handleFrame` is left out. A data event is handled
  to completion, so a second event cannot overtake an awaited `sendPrompt`.
- The `.catch` of the upgrade listener is left out, because the modelled check cannot
  throw.
- Proxy.ProxyServer.Start requires the host to give it the IP address that `listen`
  bound. A failing `listen`, such as an address in use, emits an `error` event that no
  listener handles, so `start` never resolves; that path is not modelled.
- Proxy.ProxyServer.Start requires a server that has not started. A second `start`
  would add a second upgrade listener, and Node refuses a second `listen`; neither is
  modelled.
- Timers are left out: `setInterval`, `clearInterval` and the abort timeouts.
  `timeoutMs` is only carried in the request given to `fetch`. `Date.now()` and
  `performance.now()` are arguments.
- `Promise.all` concurrency in the registry is modelled sequentially:
  - Registry.AdapterRegistry.Initialize tries each configuration in order and reports
    the first error in configuration order. The code reports the first rejection in
    time.
  - Registry.AdapterRegistry.Dispose does the same for the dispose calls.
  - Registry.InitializeStoresBuilt: when two configurations share an id and both
    initialise, the model stores the later one in configuration order. The code keeps
    the one whose `initialize` resolves last. With distinct ids the two agree.
- The web adapter class is not part of this model. Its `initialize` and `dispose`
  outcomes are functions given from outside. The HTTP adapter's never fail.
- `isHealthy`'s warning and `sendPrompt`'s debug and error log lines are left out.
- `fetch` itself is not modelled: how it merges header names case-insensitively, how it
  serialises the body, and its abort.
- `ConfigLoader.load` and `save` are file I/O. Only the re-validation in `save` is
  modelled, as Config.NormalizeConfigurationIdempotent.
- JSON objects are maps, so the order of members is not modelled.
- Json.JNumber and Types.ProxyOptions hold JavaScript numbers as exact reals. There is
  no Infinity, no -0 and no rounding to doubles. `assertNumber` accepts Infinity, which
  `JSON.parse` gives for `1e999` and `Number` gives for the string "Infinity". Such a
  configuration is outside the model.
- Config.WellFormedConfigurationRoundTrip covers finite proxy numbers only. A proxy
  number that is Infinity passes `normalizeConfiguration`, but `save`'s `JSON.stringify`
  writes it as `null`, and normalising that again gives `Number(null)`, which is 0. The
  written round trip then does not return the configuration, and the model does not
  express that case.
- Config.NormalizeConfigurationIdempotent has the same limit: it is stated for the
  configurations whose proxy numbers are finite, because those are the only numbers
  the model has.
- Handshake.LowerChar and Handshake.Lower model `toLowerCase` only on the characters
  whose lower case is an ASCII letter: the ASCII capitals and the Kelvin sign. Every
  other character is left as it is. The engine lower-cases many of them ('À' becomes
  'à'), and some grow ('İ' becomes two code units), so the engine does not always keep
  the length. The comparison with "websocket" comes out the same either way, because
  only characters whose lower case is an ASCII letter can match it.
- Registry.SelectKind takes `completionEndpoint` as a string, as the configuration
  type declares it (src/core/types.js:36) and as normalisation guarantees. The `?.` of
  `config.completionEndpoint?.startsWith` (dist/adapters/adapterRegistry.js:29), under
  which a missing endpoint selects the HTTP adapter, is a case the model cannot express.
- The `Repeated` case of the header value stands for an array-valued
  `sec-websocket-key`, which the code refuses (dist/backend/proxyServer.js:82-87). Node
  joins a repeated `Sec-WebSocket-Key` header into one string separated by ", ", so
  under Node that branch is rarely or never reached: such a request arrives as one
  `Single` value and is judged, and answered, as that one joined key. How Node folds
  headers is not modelled; the host supplies the header value.
- `String()` and `Number()` of numbers and strings are functions given from outside.
  That covers the shortest decimal spelling and the string-to-number parse. The
  TypeError they throw on a value without a primitive form is modelled, as `Json.Convertible`.
- Config.NormalizeAdapter: the rest of the model uses the corrected normalisation
  described under Findings. The code as written is Config.NormalizeAdapterAsWritten.
- The test files, the build and lint scripts, the VS Code extension and the control
  panel are not part of this model.

## Findings

| source | as written | input that shows it | evidently intended | confidence | as-written member | corrected member |
|---|---|---|---|---|---|---|
| src/core/config.js:38 | `raw.healthEndpoint ? String(raw.healthEndpoint) : undefined` keeps any truthy value, even when its string form is empty | an adapter whose `healthEndpoint` is `[]`: it normalises to `""`, and normalising that result again (as `save` at lines 86-88 does) turns it into `undefined` | an endpoint whose string form is empty becomes `undefined`, so normalisation is idempotent | not executed | Config.AsWrittenNotIdempotent | Config.NormalizeAdapterIdempotent |
