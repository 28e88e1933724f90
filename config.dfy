/** The configuration validator of src/core/config.js: guard chains over a parsed JSON
    value that either throw the first failed check's error or return the normalised
    descriptor. The file reading and writing of `ConfigLoader` is not modelled. */
module Config {
  import opened Wrappers
  import opened Json
  import opened Text
  import opened Types

  /** `assertString(value, message)`: a string that still has a character once trimmed. */
  function AssertString(value: Option<Json>, message: string): (r: Result<string, JsError>)
    ensures r.Success? ==> value == Some(JString(r.value)) && !IsBlank(r.value)
    ensures r.Failure? ==> r.error == Error(message)
    ensures r.Failure? <==> !(value.Some? && value.value.JString?) || IsBlank(value.value.s)
  {
    TrimEmptyIffBlank(if value.Some? && value.value.JString? then value.value.s else "");
    match value
    case Some(JString(s)) => if Trim(s) == "" then Failure(Error(message)) else Success(s)
    case _ => Failure(Error(message))
  }

  /** `assertNumber(value, message)` applied to a `Number(...)` result, where `None` is `NaN`. */
  function AssertNumber(value: Option<real>, message: string): (r: Result<real, JsError>)
    ensures r.Success? <==> value.Some?
    ensures r.Success? ==> r.value == value.value
    ensures r.Failure? ==> r.error == Error(message)
  {
    match value
    case Some(n) => Success(n)
    case None => Failure(Error(message))
  }

  /** The five required string fields, in the order they are checked. */
  const RequiredFields: seq<string> := ["id", "displayName", "provider", "baseUrl", "completionEndpoint"]
  const RequiredMessages: seq<string> := [
    "Adapter id is required",
    "Adapter displayName is required",
    "Adapter provider is required",
    "Adapter baseUrl is required",
    "Adapter completionEndpoint is required"]
  const CapabilitiesMessage := "Adapter capabilities must be a non-empty array"
  const TimeoutMessage := "Adapter timeoutMs must be a positive integer when specified"

  /** The check `assertString` makes, as a predicate. */
  predicate IsRequiredString(v: Option<Json>) {
    v.Some? && v.value.JString? && !IsBlank(v.value.s)
  }

  predicate IsNonEmptyArray(v: Option<Json>) {
    v.Some? && v.value.JArray? && |v.value.items| > 0
  }

  /** `Number(raw.timeoutMs)` unless it is absent; the outer `None` is `undefined`. */
  function ConvertedTimeout(raw: Json, co: Coercions): Option<Option<real>> {
    var t := Property(raw, "timeoutMs");
    if t.None? then None else Some(ToJsNumber(t, co))
  }

  predicate IsPositiveInteger(x: Option<real>) {
    x.Some? && IsInteger(x.value) && x.value > 0.0
  }

  /** `raw.capabilities.map((capability) => String(capability))`. */
  function StringifyAll(items: seq<Json>, co: Coercions): (r: seq<string>)
    ensures |r| == |items|
  {
    seq(|items|, i requires 0 <= i < |items| => ToJsString(items[i], co))
  }

  /** The five required strings, once `assertString` has accepted each of them. */
  datatype RequiredStrings = RequiredStrings(
    id: string, displayName: string, provider: string, baseUrl: string, completionEndpoint: string)

  /** All five required fields pass `assertString`. */
  predicate AllRequired(raw: Json) {
    && IsRequiredString(Property(raw, "id"))
    && IsRequiredString(Property(raw, "displayName"))
    && IsRequiredString(Property(raw, "provider"))
    && IsRequiredString(Property(raw, "baseUrl"))
    && IsRequiredString(Property(raw, "completionEndpoint"))
  }

  /** The five `assertString` calls of src/core/config.js:20-24, in their order: the
      first field that fails throws its message. */
  function CheckRequired(raw: Json): (r: Result<RequiredStrings, JsError>)
    ensures r.Success? <==> AllRequired(raw)
    ensures r.Success? ==>
      && Property(raw, "id") == Some(JString(r.value.id))
      && Property(raw, "displayName") == Some(JString(r.value.displayName))
      && Property(raw, "provider") == Some(JString(r.value.provider))
      && Property(raw, "baseUrl") == Some(JString(r.value.baseUrl))
      && Property(raw, "completionEndpoint") == Some(JString(r.value.completionEndpoint))
  {
    var id := Property(raw, "id");
    var displayName := Property(raw, "displayName");
    var provider := Property(raw, "provider");
    var baseUrl := Property(raw, "baseUrl");
    var completionEndpoint := Property(raw, "completionEndpoint");
    if !IsRequiredString(id) then Failure(Error(RequiredMessages[0]))
    else if !IsRequiredString(displayName) then Failure(Error(RequiredMessages[1]))
    else if !IsRequiredString(provider) then Failure(Error(RequiredMessages[2]))
    else if !IsRequiredString(baseUrl) then Failure(Error(RequiredMessages[3]))
    else if !IsRequiredString(completionEndpoint) then Failure(Error(RequiredMessages[4]))
    else Success(RequiredStrings(id.value.s, displayName.value.s, provider.value.s, baseUrl.value.s,
      completionEndpoint.value.s))
  }

  /** Whether the optional `timeoutMs` passes the check of src/core/config.js:29-32. */
  predicate TimeoutAccepted(raw: Json, co: Coercions) {
    var timeout := ConvertedTimeout(raw, co);
    timeout.Some? ==> IsPositiveInteger(timeout.value)
  }

  /** The conversions of the object literal of src/core/config.js:33-43 reach a primitive:
      `String(raw.healthEndpoint)` when that is truthy, and `String` of each capability.
      The five required fields are strings already. */
  predicate FieldsConvertible(raw: Json) {
    && (Truthy(Property(raw, "healthEndpoint")) ==> ConvertibleOpt(Property(raw, "healthEndpoint")))
    && ConvertibleOpt(Property(raw, "capabilities"))
  }

  /** The object literal of src/core/config.js:33-43, once every check has passed. */
  function Assemble(raw: Json, co: Coercions, req: RequiredStrings): (a: AdapterConfiguration)
    requires IsNonEmptyArray(Property(raw, "capabilities")) && TimeoutAccepted(raw, co)
    ensures |a.capabilities| == |Property(raw, "capabilities").value.items| > 0
    ensures a.webBased == None
  {
    var health := Property(raw, "healthEndpoint");
    var headers := Property(raw, "headers");
    var timeout := ConvertedTimeout(raw, co);
    AdapterConfiguration(
      id := req.id,
      displayName := req.displayName,
      provider := req.provider,
      baseUrl := req.baseUrl,
      healthEndpoint := if Truthy(health) then Some(ToJsStringOpt(health, co)) else None,
      completionEndpoint := req.completionEndpoint,
      capabilities := StringifyAll(Property(raw, "capabilities").value.items, co),
      headers := if Truthy(headers) && IsObjectType(headers) then headers else None,
      timeoutMs := if timeout.Some? then Some(timeout.value.value.Floor) else None,
      webBased := None)
  }

  /** `normalizeAdapter(raw)` exactly as src/core/config.js:19-44 writes it. A `null`
      element throws the engine's TypeError when its `id` is read. */
  function NormalizeAdapterAsWritten(raw: Json, co: Coercions): Result<AdapterConfiguration, JsError> {
    if raw.JNull? then Failure(TypeError("Cannot read properties of null (reading 'id')"))
    else
      var req :- CheckRequired(raw);
      if !IsNonEmptyArray(Property(raw, "capabilities")) then Failure(Error(CapabilitiesMessage))
      else if !ConvertibleOpt(Property(raw, "timeoutMs")) then Failure(ToPrimitiveError)
      else if !TimeoutAccepted(raw, co) then Failure(Error(TimeoutMessage))
      else if !FieldsConvertible(raw) then Failure(ToPrimitiveError)
      else Success(Assemble(raw, co, req))
  }

  /** `normalizeAdapter` with the one correction this model makes: a health endpoint
      whose string form is empty becomes `undefined`, as a falsy one already does. */
  function NormalizeAdapter(raw: Json, co: Coercions): (r: Result<AdapterConfiguration, JsError>)
    ensures NormalizeAdapterAsWritten(raw, co).Failure? ==> r == NormalizeAdapterAsWritten(raw, co)
    ensures r.Success? <==> NormalizeAdapterAsWritten(raw, co).Success?
    ensures r.Success? ==>
      var a := NormalizeAdapterAsWritten(raw, co).value;
      r.value == a.(healthEndpoint := if a.healthEndpoint == Some("") then None else a.healthEndpoint)
  {
    match NormalizeAdapterAsWritten(raw, co)
    case Failure(e) => Failure(e)
    case Success(a) =>
      Success(if a.healthEndpoint == Some("") then a.(healthEndpoint := None) else a)
  }

  /** `items.map(f)` for an `f` that may throw: the first element that throws ends the map. */
  function MapUntilThrow<T, U>(items: seq<T>, f: T -> Result<U, JsError>): (r: Result<seq<U>, JsError>)
    ensures r.Success? ==> |r.value| == |items|
  {
    if items == [] then Success([])
    else match (f(items[0]), MapUntilThrow(items[1..], f))
      case (Failure(e), _) => Failure(e)
      case (_, Failure(e)) => Failure(e)
      case (Success(first), Success(rest)) => Success([first] + rest)
  }

  /** When the map succeeds, its i-th result is `f` of the i-th element. */
  lemma {:induction false} MapUntilThrowAt<T, U>(items: seq<T>, f: T -> Result<U, JsError>, i: nat)
    requires i < |items| && MapUntilThrow(items, f).Success?
    ensures f(items[i]) == Success(MapUntilThrow(items, f).value[i])
    decreases i
  {
    if i > 0 {
      MapUntilThrowAt(items[1..], f, i - 1);
    }
  }

  /** The map throws the error of its first failing element. */
  lemma {:induction false} MapUntilThrowFirstFailure<T, U>(items: seq<T>, f: T -> Result<U, JsError>, i: nat)
    requires i < |items|
    requires forall j :: 0 <= j < i ==> f(items[j]).Success?
    requires f(items[i]).Failure?
    ensures MapUntilThrow(items, f) == Failure(f(items[i]).error)
    decreases i
  {
    if i > 0 {
      assert f(items[0]).Success?;
      assert forall j :: 0 <= j < i - 1 ==> items[1..][j] == items[j + 1];
      MapUntilThrowFirstFailure(items[1..], f, i - 1);
    }
  }

  /** `raw.adapters.map(normalizeAdapter)`. */
  function NormalizeAdapters(items: seq<Json>, co: Coercions): (r: Result<seq<AdapterConfiguration>, JsError>)
    ensures r.Success? ==> |r.value| == |items|
  {
    MapUntilThrow(items, x => NormalizeAdapter(x, co))
  }

  /** When the map succeeds, its i-th result is the normalisation of the i-th element. */
  lemma NormalizeAdaptersAt(items: seq<Json>, co: Coercions, i: nat)
    requires i < |items| && NormalizeAdapters(items, co).Success?
    ensures NormalizeAdapter(items[i], co) == Success(NormalizeAdapters(items, co).value[i])
  {
    MapUntilThrowAt(items, x => NormalizeAdapter(x, co), i);
  }

  const ObjectMessage := "Configuration must be an object"
  const AdaptersMessage := "At least one adapter configuration is required"
  const ProxyMessage := "Proxy configuration is required"
  const PortMessage := "Proxy port must be a number"
  const HeartbeatMessage := "Proxy heartbeatIntervalMs must be a number"
  const GraceMessage := "Proxy shutdownGracePeriodMs must be a number"
  const HostMessage := "Proxy host is required"

  /** The four conversions of src/core/config.js:57-62 reach a primitive. */
  predicate ProxyConvertible(p: Json) {
    && ConvertibleOpt(Property(p, "port"))
    && ConvertibleOpt(Property(p, "host"))
    && ConvertibleOpt(Property(p, "heartbeatIntervalMs"))
    && ConvertibleOpt(Property(p, "shutdownGracePeriodMs"))
  }

  /** `!raw || typeof raw !== 'object'` is false: a non-null object or an array. */
  predicate IsObject(v: Option<Json>) {
    Truthy(v) && IsObjectType(v)
  }

  /** The adapters of `raw`: `[]` unless `raw.adapters` is an array. */
  function AdapterList(raw: Json, co: Coercions): Result<seq<AdapterConfiguration>, JsError> {
    var list := Property(raw, "adapters");
    if list.Some? && list.value.JArray? then NormalizeAdapters(list.value.items, co) else Success([])
  }

  /** `normalizeConfiguration(raw)` (src/core/config.js:46-69), with the corrected
      adapter normalisation. */
  function NormalizeConfiguration(raw: Json, co: Coercions): Result<DevConConfiguration, JsError> {
    if !IsObject(Some(raw)) then Failure(Error(ObjectMessage))
    else
      var adapters :- AdapterList(raw, co);
      if adapters == [] then Failure(Error(AdaptersMessage))
      else
        var proxy := Property(raw, "proxy");
        if !IsObject(proxy) then Failure(Error(ProxyMessage))
        else
          var p := proxy.value;
          if !ProxyConvertible(p) then Failure(ToPrimitiveError)
          else
            var host := ToJsStringOpt(Property(p, "host"), co);
            var port :- AssertNumber(ToJsNumber(Property(p, "port"), co), PortMessage);
            var heartbeat :- AssertNumber(ToJsNumber(Property(p, "heartbeatIntervalMs"), co), HeartbeatMessage);
            var grace :- AssertNumber(ToJsNumber(Property(p, "shutdownGracePeriodMs"), co), GraceMessage);
            var checkedHost :- AssertString(Some(JString(host)), HostMessage);
            Success(DevConConfiguration(adapters, ProxyOptions(port, checkedHost, heartbeat, grace)))
  }

  /** `ConfigLoader.validateAdapter(config)` (src/core/config.js:91-94) on a typed descriptor. */
  function ValidateAdapter(config: AdapterConfiguration, co: Coercions): (r: Result<AdapterConfiguration, JsError>)
    ensures r.Success? <==> Acceptable(config)
    ensures r.Success? ==> r.value == Canonical(config)
    ensures r.Success? ==> WellFormed(r.value)
  {
    AdapterRoundTrip(config, co);
    NormalizeAdapter(AdapterToJson(config), co)
  }

  // ---------------------------------------------------------------------------
  // Descriptors back to JSON, as `JSON.stringify` in `save` writes them.

  function AdapterToJson(a: AdapterConfiguration): (j: Json)
    ensures j.JObject?
  {
    var required := map[
      "id" := JString(a.id),
      "displayName" := JString(a.displayName),
      "provider" := JString(a.provider),
      "baseUrl" := JString(a.baseUrl),
      "completionEndpoint" := JString(a.completionEndpoint),
      "capabilities" := JArray(seq(|a.capabilities|, i requires 0 <= i < |a.capabilities| => JString(a.capabilities[i])))];
    var withHealth := Put(required, "healthEndpoint", if a.healthEndpoint.Some? then Some(JString(a.healthEndpoint.value)) else None);
    var withHeaders := Put(withHealth, "headers", a.headers);
    var withTimeout := Put(withHeaders, "timeoutMs", if a.timeoutMs.Some? then Some(JNumber(a.timeoutMs.value as real)) else None);
    JObject(Put(withTimeout, "webBased", if a.webBased.Some? then Some(JBool(a.webBased.value)) else None))
  }

  function ProxyToJson(p: ProxyOptions): Json {
    JObject(map[
      "port" := JNumber(p.port),
      "host" := JString(p.host),
      "heartbeatIntervalMs" := JNumber(p.heartbeatIntervalMs),
      "shutdownGracePeriodMs" := JNumber(p.shutdownGracePeriodMs)])
  }

  function AdaptersToJson(adapters: seq<AdapterConfiguration>): (items: seq<Json>)
    ensures |items| == |adapters|
  {
    if adapters == [] then [] else [AdapterToJson(adapters[0])] + AdaptersToJson(adapters[1..])
  }

  function ConfigurationToJson(c: DevConConfiguration): Json {
    JObject(map[
      "adapters" := JArray(AdaptersToJson(c.adapters)),
      "proxy" := ProxyToJson(c.proxy)])
  }

  // ---------------------------------------------------------------------------
  // What a typed descriptor must satisfy to pass, and what passing makes of it.

  /** The checks of `normalizeAdapter` that a typed descriptor can fail. */
  predicate Acceptable(a: AdapterConfiguration) {
    && !IsBlank(a.id) && !IsBlank(a.displayName) && !IsBlank(a.provider)
    && !IsBlank(a.baseUrl) && !IsBlank(a.completionEndpoint)
    && |a.capabilities| > 0
    && (a.timeoutMs.Some? ==> a.timeoutMs.value > 0)
  }

  /** What normalisation keeps of an acceptable typed descriptor: an empty health
      endpoint and headers that are not an object are dropped, and so is `webBased`. */
  function Canonical(a: AdapterConfiguration): AdapterConfiguration {
    a.(healthEndpoint := if a.healthEndpoint == Some("") then None else a.healthEndpoint,
       headers := if IsObject(a.headers) then a.headers else None,
       webBased := None)
  }

  /** A descriptor in the normal form that normalisation produces. */
  predicate WellFormed(a: AdapterConfiguration) {
    Acceptable(a) && Canonical(a) == a
  }

  predicate WellFormedProxy(p: ProxyOptions) {
    !IsBlank(p.host)
  }

  predicate WellFormedConfiguration(c: DevConConfiguration) {
    |c.adapters| > 0 && WellFormedProxy(c.proxy)
    && forall i :: 0 <= i < |c.adapters| ==> WellFormed(c.adapters[i])
  }

  /** The members of a written descriptor carry its fields. */
  lemma AdapterToJsonNames(a: AdapterConfiguration)
    ensures var j := AdapterToJson(a);
      && Property(j, "id") == Some(JString(a.id))
      && Property(j, "displayName") == Some(JString(a.displayName))
      && Property(j, "provider") == Some(JString(a.provider))
  {
  }

  lemma AdapterToJsonEndpoints(a: AdapterConfiguration)
    ensures var j := AdapterToJson(a);
      && Property(j, "baseUrl") == Some(JString(a.baseUrl))
      && Property(j, "completionEndpoint") == Some(JString(a.completionEndpoint))
      && Property(j, "capabilities") == Some(JArray(seq(|a.capabilities|, i requires 0 <= i < |a.capabilities| => JString(a.capabilities[i]))))
  {
  }

  lemma AdapterToJsonOptionalFields(a: AdapterConfiguration)
    ensures var j := AdapterToJson(a);
      && Property(j, "headers") == a.headers
      && Property(j, "healthEndpoint") == (if a.healthEndpoint.Some? then Some(JString(a.healthEndpoint.value)) else None)
      && Property(j, "timeoutMs") == (if a.timeoutMs.Some? then Some(JNumber(a.timeoutMs.value as real)) else None)
  {
  }

  lemma AdapterToJsonFields(a: AdapterConfiguration)
    ensures var j := AdapterToJson(a);
      && Property(j, "id") == Some(JString(a.id))
      && Property(j, "displayName") == Some(JString(a.displayName))
      && Property(j, "provider") == Some(JString(a.provider))
      && Property(j, "baseUrl") == Some(JString(a.baseUrl))
      && Property(j, "completionEndpoint") == Some(JString(a.completionEndpoint))
      && Property(j, "headers") == a.headers
      && Property(j, "healthEndpoint") == (if a.healthEndpoint.Some? then Some(JString(a.healthEndpoint.value)) else None)
      && Property(j, "timeoutMs") == (if a.timeoutMs.Some? then Some(JNumber(a.timeoutMs.value as real)) else None)
      && Property(j, "capabilities") == Some(JArray(seq(|a.capabilities|, i requires 0 <= i < |a.capabilities| => JString(a.capabilities[i]))))
  {
    AdapterToJsonNames(a);
    AdapterToJsonEndpoints(a);
    AdapterToJsonOptionalFields(a);
  }

  lemma RoundTripRequired(a: AdapterConfiguration)
    ensures AllRequired(AdapterToJson(a)) <==>
      !IsBlank(a.id) && !IsBlank(a.displayName) && !IsBlank(a.provider) && !IsBlank(a.baseUrl) && !IsBlank(a.completionEndpoint)
  {
    AdapterToJsonFields(a);
  }

  lemma RoundTripTimeout(a: AdapterConfiguration, co: Coercions)
    ensures TimeoutAccepted(AdapterToJson(a), co) <==> (a.timeoutMs.Some? ==> a.timeoutMs.value > 0)
    ensures ConvertedTimeout(AdapterToJson(a), co) == (if a.timeoutMs.Some? then Some(Some(a.timeoutMs.value as real)) else None)
    ensures ConvertibleOpt(Property(AdapterToJson(a), "timeoutMs"))
  {
    AdapterToJsonFields(a);
  }

  lemma RoundTripAssemble(a: AdapterConfiguration, co: Coercions)
    requires Acceptable(a)
    ensures IsNonEmptyArray(Property(AdapterToJson(a), "capabilities")) && TimeoutAccepted(AdapterToJson(a), co)
    ensures FieldsConvertible(AdapterToJson(a))
    ensures Assemble(AdapterToJson(a), co, RequiredStrings(a.id, a.displayName, a.provider, a.baseUrl, a.completionEndpoint))
      == Canonical(a).(healthEndpoint := if a.healthEndpoint.Some? && a.healthEndpoint.value != "" then a.healthEndpoint else None)
  {
    var j := AdapterToJson(a);
    AdapterToJsonFields(a);
    RoundTripTimeout(a, co);
    var caps := seq(|a.capabilities|, i requires 0 <= i < |a.capabilities| => JString(a.capabilities[i]));
    assert StringifyAll(caps, co) == a.capabilities;
    assert forall i :: 0 <= i < |caps| ==> Convertible(caps[i]);
  }

  /** A typed descriptor written out and read back passes exactly when it is acceptable,
      and then comes back as its canonical form. */
  lemma AdapterRoundTrip(a: AdapterConfiguration, co: Coercions)
    ensures NormalizeAdapter(AdapterToJson(a), co).Success? <==> Acceptable(a)
    ensures Acceptable(a) ==> NormalizeAdapter(AdapterToJson(a), co) == Success(Canonical(a))
  {
    var j := AdapterToJson(a);
    AdapterToJsonFields(a);
    RoundTripRequired(a);
    RoundTripTimeout(a, co);
    if Acceptable(a) {
      RoundTripAssemble(a, co);
      assert CheckRequired(j) == Success(RequiredStrings(a.id, a.displayName, a.provider, a.baseUrl, a.completionEndpoint));
    }
  }

  /** A descriptor in normal form, written out and read back, is itself. */
  lemma WellFormedAdapterRoundTrip(a: AdapterConfiguration, co: Coercions)
    requires WellFormed(a)
    ensures NormalizeAdapter(AdapterToJson(a), co) == Success(a)
  {
    AdapterRoundTrip(a, co);
  }

  /** Whatever `normalizeAdapter` returns is in normal form. */
  lemma NormalizedAdapterIsWellFormed(raw: Json, co: Coercions)
    requires NormalizeAdapter(raw, co).Success?
    ensures WellFormed(NormalizeAdapter(raw, co).value)
  {
  }

  /** Re-validating a normalised descriptor returns it unchanged. */
  lemma NormalizeAdapterIdempotent(raw: Json, co: Coercions)
    requires NormalizeAdapter(raw, co).Success?
    ensures var a := NormalizeAdapter(raw, co).value;
      NormalizeAdapter(AdapterToJson(a), co) == Success(a)
  {
    var a := NormalizeAdapter(raw, co).value;
    NormalizedAdapterIsWellFormed(raw, co);
    AdapterRoundTrip(a, co);
  }

  // ---------------------------------------------------------------------------
  // What normalizeAdapter checks, in which order, and what it returns.

  /** The descriptor passes exactly when it is not `null`, the five strings are present
      and not blank, the capabilities form a non-empty array, a given `timeoutMs`
      converts to a positive integer and every value the literal converts reaches a
      primitive; the result then copies each field as stated. */
  lemma NormalizeAdapterSpec(raw: Json, co: Coercions)
    ensures NormalizeAdapterAsWritten(raw, co).Success? <==>
      && !raw.JNull? && AllRequired(raw) && IsNonEmptyArray(Property(raw, "capabilities"))
      && ConvertibleOpt(Property(raw, "timeoutMs")) && TimeoutAccepted(raw, co) && FieldsConvertible(raw)
    ensures NormalizeAdapterAsWritten(raw, co).Success? ==>
      var a := NormalizeAdapterAsWritten(raw, co).value;
      var items := Property(raw, "capabilities").value.items;
      && Property(raw, "id") == Some(JString(a.id))
      && Property(raw, "displayName") == Some(JString(a.displayName))
      && Property(raw, "provider") == Some(JString(a.provider))
      && Property(raw, "baseUrl") == Some(JString(a.baseUrl))
      && Property(raw, "completionEndpoint") == Some(JString(a.completionEndpoint))
      && |a.capabilities| == |items|
      && (forall i :: 0 <= i < |items| ==> a.capabilities[i] == ToJsString(items[i], co))
      && (a.healthEndpoint.None? <==> !Truthy(Property(raw, "healthEndpoint")))
      && (a.healthEndpoint.Some? ==> a.healthEndpoint.value == ToJsStringOpt(Property(raw, "healthEndpoint"), co))
      && (a.headers.Some? <==> IsObject(Property(raw, "headers")))
      && (a.headers.Some? ==> a.headers == Property(raw, "headers"))
      && (a.timeoutMs.None? <==> Property(raw, "timeoutMs").None?)
      && (a.timeoutMs.Some? ==>
            a.timeoutMs.value > 0 && ToJsNumber(Property(raw, "timeoutMs"), co) == Some(a.timeoutMs.value as real))
      && a.webBased == None
  {
    if NormalizeAdapterAsWritten(raw, co).Success? {
      var t := ToJsNumber(Property(raw, "timeoutMs"), co);
      if Property(raw, "timeoutMs").Some? {
        assert t.Some? && IsInteger(t.value);
        assert t.value.Floor as real == t.value;
      }
    }
  }

  /** The first required field that fails `assertString` names the error, whatever
      the fields after it hold. */
  lemma FirstInvalidRequiredFieldWins(raw: Json, co: Coercions, k: nat)
    requires !raw.JNull? && k < 5
    requires forall j :: 0 <= j < k ==> IsRequiredString(Property(raw, RequiredFields[j]))
    requires !IsRequiredString(Property(raw, RequiredFields[k]))
    ensures NormalizeAdapterAsWritten(raw, co) == Failure(Error(RequiredMessages[k]))
    ensures NormalizeAdapter(raw, co) == Failure(Error(RequiredMessages[k]))
  {
    var fields := RequiredFields;
    assert fields[0] == "id" && fields[1] == "displayName" && fields[2] == "provider";
    assert fields[3] == "baseUrl" && fields[4] == "completionEndpoint";
    if k == 0 {
    } else if k == 1 {
      assert IsRequiredString(Property(raw, fields[0]));
    } else if k == 2 {
      assert IsRequiredString(Property(raw, fields[0])) && IsRequiredString(Property(raw, fields[1]));
    } else if k == 3 {
      assert IsRequiredString(Property(raw, fields[0])) && IsRequiredString(Property(raw, fields[1]));
      assert IsRequiredString(Property(raw, fields[2]));
    } else {
      assert IsRequiredString(Property(raw, fields[0])) && IsRequiredString(Property(raw, fields[1]));
      assert IsRequiredString(Property(raw, fields[2])) && IsRequiredString(Property(raw, fields[3]));
    }
  }

  /** With the five strings valid, missing or empty capabilities are reported next;
      then `Number(raw.timeoutMs)` may throw, then a bad `timeoutMs` is reported, and
      last the conversions of the object literal may throw. */
  lemma CapabilitiesThenTimeout(raw: Json, co: Coercions)
    requires !raw.JNull? && AllRequired(raw)
    ensures !IsNonEmptyArray(Property(raw, "capabilities")) ==>
      NormalizeAdapter(raw, co) == Failure(Error(CapabilitiesMessage))
    ensures IsNonEmptyArray(Property(raw, "capabilities")) && !ConvertibleOpt(Property(raw, "timeoutMs")) ==>
      NormalizeAdapter(raw, co) == Failure(ToPrimitiveError)
    ensures (IsNonEmptyArray(Property(raw, "capabilities")) && ConvertibleOpt(Property(raw, "timeoutMs"))
      && !TimeoutAccepted(raw, co)) ==>
      NormalizeAdapter(raw, co) == Failure(Error(TimeoutMessage))
    ensures (IsNonEmptyArray(Property(raw, "capabilities")) && ConvertibleOpt(Property(raw, "timeoutMs"))
      && TimeoutAccepted(raw, co) && !FieldsConvertible(raw)) ==>
      NormalizeAdapter(raw, co) == Failure(ToPrimitiveError)
  {
  }

  /** `raw.adapters.map(normalizeAdapter)` throws the error of its first failing element. */
  lemma FirstAdapterErrorSurfaces(items: seq<Json>, co: Coercions, i: nat)
    requires i < |items|
    requires forall j :: 0 <= j < i ==> NormalizeAdapter(items[j], co).Success?
    requires NormalizeAdapter(items[i], co).Failure?
    ensures NormalizeAdapters(items, co) == Failure(NormalizeAdapter(items[i], co).error)
  {
    MapUntilThrowFirstFailure(items, x => NormalizeAdapter(x, co), i);
  }

  // ---------------------------------------------------------------------------
  // What normalizeConfiguration checks, and in which order.

  /** The adapter list is empty exactly when `adapters` is missing, is not an array, or
      is an empty array; a failing element is reported instead otherwise. */
  lemma AdapterListEmptyIff(raw: Json, co: Coercions)
    ensures AdapterList(raw, co) == Success([]) <==>
      !(Property(raw, "adapters").Some? && Property(raw, "adapters").value.JArray?)
      || Property(raw, "adapters").value.items == []
  {
    var list := Property(raw, "adapters");
    if list.Some? && list.value.JArray? && list.value.items != [] {
      var r := NormalizeAdapters(list.value.items, co);
      assert r.Success? ==> |r.value| == |list.value.items|;
    }
  }

  /** The checks before the proxy: not an object, then no adapters, then the first
      failing adapter, then a missing proxy object, each ends normalisation with its error. */
  lemma ConfigurationErrorOrder(raw: Json, co: Coercions)
    ensures !IsObject(Some(raw)) ==> NormalizeConfiguration(raw, co) == Failure(Error(ObjectMessage))
    ensures IsObject(Some(raw)) && AdapterList(raw, co).Failure? ==>
      NormalizeConfiguration(raw, co) == Failure(AdapterList(raw, co).error)
    ensures IsObject(Some(raw)) && AdapterList(raw, co) == Success([]) ==>
      NormalizeConfiguration(raw, co) == Failure(Error(AdaptersMessage))
    ensures (IsObject(Some(raw)) && AdapterList(raw, co).Success? && AdapterList(raw, co).value != []
      && !IsObject(Property(raw, "proxy"))) ==>
      NormalizeConfiguration(raw, co) == Failure(Error(ProxyMessage))
  {
  }

  /** The proxy object's checks: the four conversions come first and throw when one of
      them cannot reach a primitive; then port, heartbeat interval and grace period must
      be numbers, in that order, and only then is the host's string form tested. */
  lemma ProxyErrorOrder(raw: Json, co: Coercions)
    requires IsObject(Some(raw)) && AdapterList(raw, co).Success? && AdapterList(raw, co).value != []
    requires IsObject(Property(raw, "proxy"))
    ensures var p := Property(raw, "proxy").value;
      var port := ToJsNumber(Property(p, "port"), co);
      var heartbeat := ToJsNumber(Property(p, "heartbeatIntervalMs"), co);
      var grace := ToJsNumber(Property(p, "shutdownGracePeriodMs"), co);
      var host := ToJsStringOpt(Property(p, "host"), co);
      && (!ProxyConvertible(p) ==> NormalizeConfiguration(raw, co) == Failure(ToPrimitiveError))
      && (ProxyConvertible(p) && port.None? ==> NormalizeConfiguration(raw, co) == Failure(Error(PortMessage)))
      && (ProxyConvertible(p) && port.Some? && heartbeat.None? ==>
            NormalizeConfiguration(raw, co) == Failure(Error(HeartbeatMessage)))
      && (ProxyConvertible(p) && port.Some? && heartbeat.Some? && grace.None? ==>
            NormalizeConfiguration(raw, co) == Failure(Error(GraceMessage)))
      && (ProxyConvertible(p) && port.Some? && heartbeat.Some? && grace.Some? && IsBlank(host) ==>
            NormalizeConfiguration(raw, co) == Failure(Error(HostMessage)))
      && (ProxyConvertible(p) && port.Some? && heartbeat.Some? && grace.Some? && !IsBlank(host) ==>
            NormalizeConfiguration(raw, co) == Success(DevConConfiguration(AdapterList(raw, co).value,
              ProxyOptions(port.value, host, heartbeat.value, grace.value))))
  {
  }

  /** A proxy object without `host` passes the host check: `String(undefined)` is the
      non-blank string "undefined". */
  lemma MissingHostBecomesUndefined(raw: Json, co: Coercions)
    requires IsObject(Some(raw)) && AdapterList(raw, co).Success? && AdapterList(raw, co).value != []
    requires IsObject(Property(raw, "proxy"))
    requires var p := Property(raw, "proxy").value;
      && Property(p, "host").None?
      && ProxyConvertible(p)
      && ToJsNumber(Property(p, "port"), co).Some?
      && ToJsNumber(Property(p, "heartbeatIntervalMs"), co).Some?
      && ToJsNumber(Property(p, "shutdownGracePeriodMs"), co).Some?
    ensures NormalizeConfiguration(raw, co).Success?
    ensures NormalizeConfiguration(raw, co).value.proxy.host == "undefined"
  {
    ProxyErrorOrder(raw, co);
  }

  // ---------------------------------------------------------------------------
  // Re-validation in `save`: normalising a normalised configuration changes nothing.

  /** Adapters in normal form, written out and mapped through normalisation, come back
      unchanged. */
  lemma {:induction false} NormalizeWellFormedAdapters(adapters: seq<AdapterConfiguration>, co: Coercions)
    requires forall i :: 0 <= i < |adapters| ==> WellFormed(adapters[i])
    ensures NormalizeAdapters(AdaptersToJson(adapters), co) == Success(adapters)
    decreases |adapters|
  {
    if adapters != [] {
      var items := AdaptersToJson(adapters);
      var rest := adapters[1..];
      assert items[0] == AdapterToJson(adapters[0]);
      assert items[1..] == AdaptersToJson(rest);
      WellFormedAdapterRoundTrip(adapters[0], co);
      assert forall i :: 0 <= i < |rest| ==> rest[i] == adapters[i + 1];
      NormalizeWellFormedAdapters(rest, co);
      assert items != [] && items[1..] == AdaptersToJson(rest);
      assert [adapters[0]] + rest == adapters;
    }
  }

  /** Whatever normalisation returns is in normal form. */
  lemma NormalizedConfigurationIsWellFormed(raw: Json, co: Coercions)
    requires NormalizeConfiguration(raw, co).Success?
    ensures WellFormedConfiguration(NormalizeConfiguration(raw, co).value)
  {
    var c := NormalizeConfiguration(raw, co).value;
    var items := Property(raw, "adapters").value.items;
    assert NormalizeAdapters(items, co) == Success(c.adapters);
    forall i | 0 <= i < |c.adapters| ensures WellFormed(c.adapters[i]) {
      NormalizeAdaptersAt(items, co, i);
      NormalizedAdapterIsWellFormed(items[i], co);
    }
  }

  /** The two properties of the written configuration, and the host of its proxy. */
  lemma ConfigurationToJsonFields(c: DevConConfiguration)
    ensures Property(ConfigurationToJson(c), "adapters") == Some(JArray(AdaptersToJson(c.adapters)))
    ensures Property(ConfigurationToJson(c), "proxy") == Some(ProxyToJson(c.proxy))
    ensures IsObject(Some(ConfigurationToJson(c))) && IsObject(Some(ProxyToJson(c.proxy)))
    ensures var p := ProxyToJson(c.proxy);
      && Property(p, "host") == Some(JString(c.proxy.host))
      && Property(p, "port") == Some(JNumber(c.proxy.port))
      && Property(p, "heartbeatIntervalMs") == Some(JNumber(c.proxy.heartbeatIntervalMs))
      && Property(p, "shutdownGracePeriodMs") == Some(JNumber(c.proxy.shutdownGracePeriodMs))
    ensures ProxyConvertible(ProxyToJson(c.proxy))
  {
  }

  /** A configuration in normal form written out and read back is itself. */
  lemma WellFormedConfigurationRoundTrip(c: DevConConfiguration, co: Coercions)
    requires WellFormedConfiguration(c)
    ensures NormalizeConfiguration(ConfigurationToJson(c), co) == Success(c)
  {
    var j := ConfigurationToJson(c);
    NormalizeWellFormedAdapters(c.adapters, co);
    ConfigurationToJsonFields(c);
    assert AdapterList(j, co) == Success(c.adapters);
    ProxyErrorOrder(j, co);
  }

  /** `save` re-validates what it is given: on a configuration that `load` produced,
      the second normalisation returns an equal configuration. */
  lemma NormalizeConfigurationIdempotent(raw: Json, co: Coercions)
    requires NormalizeConfiguration(raw, co).Success?
    ensures var c := NormalizeConfiguration(raw, co).value;
      NormalizeConfiguration(ConfigurationToJson(c), co) == Success(c)
  {
    NormalizedConfigurationIsWellFormed(raw, co);
    WellFormedConfigurationRoundTrip(NormalizeConfiguration(raw, co).value, co);
  }

  // ---------------------------------------------------------------------------
  // The code as written is not idempotent.

  /** A descriptor whose `healthEndpoint` is an empty array: `[]` is truthy, so the
      endpoint is kept, but `String([])` is the empty string. As written, normalising it yields the endpoint "", and normalising
      the result again turns it into `undefined`: the second pass is not the identity. */
  lemma AsWrittenNotIdempotent(raw: Json, co: Coercions)
    requires raw == JObject(map[
      "id" := JString("a"), "displayName" := JString("a"), "provider" := JString("a"),
      "baseUrl" := JString("a"), "completionEndpoint" := JString("a"),
      "capabilities" := JArray([JString("chat")]), "healthEndpoint" := JArray([])])
    ensures var first := NormalizeAdapterAsWritten(raw, co);
      && first.Success?
      && first.value.healthEndpoint == Some("")
      && NormalizeAdapterAsWritten(AdapterToJson(first.value), co).Success?
      && NormalizeAdapterAsWritten(AdapterToJson(first.value), co) != first
  {
    assert !IsBlank("a");
    assert AllRequired(raw);
    assert ToJsString(JArray([]), co) == "";
    var a := NormalizeAdapterAsWritten(raw, co).value;
    assert a.healthEndpoint == Some("");
    AdapterToJsonFields(a);
    RoundTripRequired(a);
    RoundTripTimeout(a, co);
    RoundTripAssemble(a, co);
    var second := NormalizeAdapterAsWritten(AdapterToJson(a), co);
    assert second.Success? && second.value.healthEndpoint == None;
  }
}
