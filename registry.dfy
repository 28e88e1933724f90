/** The adapter registry of dist/adapters/adapterRegistry.js: one adapter per configured
    id in a `Map` that `initialize` fills and `dispose` empties. An adapter is its kind
    and its configuration; what each kind's `initialize` and `dispose` do is given from
    outside, except that the HTTP adapter's never fail. */
module Registry {
  import opened Wrappers
  import opened Json
  import opened Text
  import opened Types

  datatype AdapterKind = WebAdapter | HttpAdapter

  /** The class `initialize` instantiates for a configuration. */
  function SelectKind(config: AdapterConfiguration): AdapterKind {
    if config.webBased == Some(true) || StartsWith(config.completionEndpoint, "http") then WebAdapter
    else HttpAdapter
  }

  /** An adapter object. Both classes copy `id`, `displayName`, `provider` and
      `capabilities` from the configuration they are built from. */
  datatype Adapter = Adapter(kind: AdapterKind, config: AdapterConfiguration) {
    function Id(): string { config.id }
  }

  /** What awaiting `adapter.initialize()` (or `dispose()`) gives: `None` when it
      resolves. The HTTP adapter's only logs; the web adapter's comes from outside. */
  function Outcome(adapter: Adapter, web: AdapterConfiguration -> Option<JsError>): Option<JsError> {
    if adapter.kind == HttpAdapter then None else web(adapter.config)
  }

  /** The contents of the `Map` and the order in which its keys were first set. */
  datatype Table = Table(entries: map<string, Adapter>, order: seq<string>)

  ghost predicate TableValid(t: Table) {
    && NoDuplicates(t.order)
    && (forall k :: k in t.entries <==> k in t.order)
    && (forall k :: k in t.entries ==> t.entries[k].Id() == k)
  }

  /** `map.set(adapter.id, adapter)`: a key already present keeps its place. */
  function Insert(t: Table, adapter: Adapter): (r: Table)
    requires TableValid(t)
    ensures TableValid(r)
    ensures r.entries == t.entries[adapter.Id() := adapter]
  {
    Table(t.entries[adapter.Id() := adapter], Add(t.order, adapter.Id()))
  }

  /** `initialize` run one configuration after another: each adapter whose `initialize`
      resolves is inserted, every configuration is tried, and the first error, if any,
      is what the call rejects with. */
  function InitializeAll(t: Table, configs: seq<AdapterConfiguration>, webInit: AdapterConfiguration -> Option<JsError>)
    : (r: (Table, Option<JsError>))
    requires TableValid(t)
    ensures TableValid(r.0)
    decreases |configs|
  {
    if configs == [] then (t, None)
    else
      var adapter := Adapter(SelectKind(configs[0]), configs[0]);
      var error := Outcome(adapter, webInit);
      var next := if error.None? then Insert(t, adapter) else t;
      var (last, laterError) := InitializeAll(next, configs[1..], webInit);
      (last, if error.Some? then error else laterError)
  }

  /** Whether the configuration's adapter initialises. */
  predicate Initializes(config: AdapterConfiguration, webInit: AdapterConfiguration -> Option<JsError>) {
    Outcome(Adapter(SelectKind(config), config), webInit).None?
  }

  /** Some configuration with id `k` has an adapter that initialises. */
  ghost predicate SomeInitializes(configs: seq<AdapterConfiguration>, k: string, webInit: AdapterConfiguration -> Option<JsError>) {
    exists i :: 0 <= i < |configs| && configs[i].id == k && Initializes(configs[i], webInit)
  }

  lemma SomeInitializesCons(configs: seq<AdapterConfiguration>, k: string, webInit: AdapterConfiguration -> Option<JsError>)
    requires configs != []
    ensures SomeInitializes(configs, k, webInit) <==>
      (configs[0].id == k && Initializes(configs[0], webInit)) || SomeInitializes(configs[1..], k, webInit)
  {
    if SomeInitializes(configs, k, webInit) {
      var i :| 0 <= i < |configs| && configs[i].id == k && Initializes(configs[i], webInit);
      if i > 0 {
        assert configs[1..][i - 1] == configs[i];
      }
    }
    if SomeInitializes(configs[1..], k, webInit) {
      var i :| 0 <= i < |configs| - 1 && configs[1..][i].id == k && Initializes(configs[1..][i], webInit);
      assert configs[i + 1] == configs[1..][i];
    }
  }

  /** After `initialize`, the keys are the old ones and the ids of the configurations
      whose adapter initialised; nothing inserted is taken out again when another fails. */
  lemma {:induction false} InitializeKeys(t: Table, configs: seq<AdapterConfiguration>, webInit: AdapterConfiguration -> Option<JsError>)
    requires TableValid(t)
    ensures var last := InitializeAll(t, configs, webInit).0;
      forall k :: k in last.entries <==> k in t.entries || SomeInitializes(configs, k, webInit)
    decreases |configs|
  {
    if configs != [] {
      var adapter := Adapter(SelectKind(configs[0]), configs[0]);
      var next := if Outcome(adapter, webInit).None? then Insert(t, adapter) else t;
      InitializeKeys(next, configs[1..], webInit);
      forall k {
        SomeInitializesCons(configs, k, webInit);
      }
    }
  }

  /** The adapter `initialize` builds for each configuration, in order. */
  function Build(configs: seq<AdapterConfiguration>): (r: seq<Adapter>)
    ensures |r| == |configs|
  {
    seq(|configs|, i requires 0 <= i < |configs| => Adapter(SelectKind(configs[i]), configs[i]))
  }

  /** `initialize` rejects with the first error among its adapters' `initialize` calls,
      the same rule as `dispose` (see `FirstErrorSpec`). */
  lemma {:induction false} InitializeError(t: Table, configs: seq<AdapterConfiguration>, webInit: AdapterConfiguration -> Option<JsError>)
    requires TableValid(t)
    ensures InitializeAll(t, configs, webInit).1 == FirstError(Build(configs), webInit)
    decreases |configs|
  {
    if configs != [] {
      var adapter := Adapter(SelectKind(configs[0]), configs[0]);
      var next := if Outcome(adapter, webInit).None? then Insert(t, adapter) else t;
      InitializeError(next, configs[1..], webInit);
      assert Build(configs)[1..] == Build(configs[1..]);
    }
  }

  /** An entry stays as it is while no later configuration with its id initialises:
      `map.set` is only called for an adapter that initialised. */
  lemma {:induction false} InitializeKeeps(t: Table, configs: seq<AdapterConfiguration>, webInit: AdapterConfiguration -> Option<JsError>, k: string)
    requires TableValid(t) && k in t.entries
    requires forall j :: 0 <= j < |configs| && configs[j].id == k ==> !Initializes(configs[j], webInit)
    ensures var last := InitializeAll(t, configs, webInit).0;
      k in last.entries && last.entries[k] == t.entries[k]
    decreases |configs|
  {
    if configs != [] {
      var adapter := Adapter(SelectKind(configs[0]), configs[0]);
      var next := if Outcome(adapter, webInit).None? then Insert(t, adapter) else t;
      assert next.entries[k] == t.entries[k];
      assert forall j :: 0 <= j < |configs| - 1 ==> configs[1..][j] == configs[j + 1];
      InitializeKeeps(next, configs[1..], webInit, k);
    }
  }

  /** The adapter stored under an id is the one built for the last configuration with that
      id whose adapter initialised: its kind is the one the selection rule picks. */
  lemma {:induction false} InitializeStoresBuilt(t: Table, configs: seq<AdapterConfiguration>, webInit: AdapterConfiguration -> Option<JsError>, i: nat)
    requires TableValid(t) && i < |configs| && Initializes(configs[i], webInit)
    requires forall j :: i < j < |configs| && configs[j].id == configs[i].id ==> !Initializes(configs[j], webInit)
    ensures var last := InitializeAll(t, configs, webInit).0;
      configs[i].id in last.entries && last.entries[configs[i].id] == Build(configs)[i]
    decreases |configs|
  {
    var adapter := Adapter(SelectKind(configs[0]), configs[0]);
    var next := if Outcome(adapter, webInit).None? then Insert(t, adapter) else t;
    assert forall j :: 0 <= j < |configs| - 1 ==> configs[1..][j] == configs[j + 1];
    if i == 0 {
      assert next.entries[adapter.Id()] == adapter;
      InitializeKeeps(next, configs[1..], webInit, configs[0].id);
    } else {
      InitializeStoresBuilt(next, configs[1..], webInit, i - 1);
      assert Build(configs[1..])[i - 1] == Build(configs)[i];
    }
  }

  /** From an empty registry, with distinct ids and every adapter initialising, the i-th
      configuration's id maps to the i-th built adapter. */
  lemma InitializeFromEmptyStores(configs: seq<AdapterConfiguration>, webInit: AdapterConfiguration -> Option<JsError>, i: nat)
    requires i < |configs|
    requires forall j :: 0 <= j < |configs| ==> Initializes(configs[j], webInit)
    requires forall j, l :: 0 <= j < l < |configs| ==> configs[j].id != configs[l].id
    ensures var last := InitializeAll(Table(map[], []), configs, webInit).0;
      configs[i].id in last.entries && last.entries[configs[i].id] == Build(configs)[i]
  {
    assert TableValid(Table(map[], []));
    InitializeStoresBuilt(Table(map[], []), configs, webInit, i);
  }

  /** Initialising an empty registry with every adapter succeeding leaves exactly the
      configured ids, one entry each. */
  lemma InitializeFromEmpty(configs: seq<AdapterConfiguration>, webInit: AdapterConfiguration -> Option<JsError>)
    requires forall i :: 0 <= i < |configs| ==> Initializes(configs[i], webInit)
    ensures InitializeAll(Table(map[], []), configs, webInit).1.None?
    ensures var last := InitializeAll(Table(map[], []), configs, webInit).0;
      && last.entries.Keys == (set i | 0 <= i < |configs| :: configs[i].id)
      && NoDuplicates(last.order)
  {
    var empty := Table(map[], []);
    assert TableValid(empty);
    InitializeError(empty, configs, webInit);
    var built := Build(configs);
    assert forall i :: 0 <= i < |built| ==> Outcome(built[i], webInit).None?;
    FirstErrorSpec(built, webInit);
    InitializedIds(empty, configs, webInit);
  }

  lemma InitializedIds(empty: Table, configs: seq<AdapterConfiguration>, webInit: AdapterConfiguration -> Option<JsError>)
    requires empty == Table(map[], [])
    requires forall i :: 0 <= i < |configs| ==> Initializes(configs[i], webInit)
    ensures InitializeAll(empty, configs, webInit).0.entries.Keys == (set i | 0 <= i < |configs| :: configs[i].id)
  {
    assert TableValid(empty);
    InitializeKeys(empty, configs, webInit);
    var last := InitializeAll(empty, configs, webInit).0;
    var ids := set i | 0 <= i < |configs| :: configs[i].id;
    forall k ensures k in last.entries.Keys <==> k in ids {
      if k in ids {
        var i :| 0 <= i < |configs| && configs[i].id == k;
        assert SomeInitializes(configs, k, webInit);
      }
    }
  }

  /** A configuration that went through the validator has no `webBased`, so the kind
      follows from the completion endpoint alone. */
  lemma KindAfterNormalisation(config: AdapterConfiguration)
    requires config.webBased == None
    ensures SelectKind(config) == WebAdapter <==> StartsWith(config.completionEndpoint, "http")
  {
  }

  /** The first error among the adapters' `dispose` results. */
  function FirstError(adapters: seq<Adapter>, webDispose: AdapterConfiguration -> Option<JsError>): Option<JsError> {
    if adapters == [] then None
    else if Outcome(adapters[0], webDispose).Some? then Outcome(adapters[0], webDispose)
    else FirstError(adapters[1..], webDispose)
  }

  /** `Promise.all` over the `dispose` calls rejects exactly when one of them does, and
      then with the error of the first adapter in list order that rejects. */
  lemma {:induction false} FirstErrorSpec(adapters: seq<Adapter>, webDispose: AdapterConfiguration -> Option<JsError>)
    ensures var r := FirstError(adapters, webDispose);
      && (r.None? <==> forall i :: 0 <= i < |adapters| ==> Outcome(adapters[i], webDispose).None?)
      && (r.Some? ==>
            exists i :: 0 <= i < |adapters| && r == Outcome(adapters[i], webDispose)
              && forall j :: 0 <= j < i ==> Outcome(adapters[j], webDispose).None?)
    decreases |adapters|
  {
    if adapters != [] && Outcome(adapters[0], webDispose).None? {
      FirstErrorSpec(adapters[1..], webDispose);
      forall i | 1 <= i < |adapters| ensures adapters[i] == adapters[1..][i - 1] { }
      var r := FirstError(adapters, webDispose);
      if r.Some? {
        var i :| 0 <= i < |adapters| - 1 && r == Outcome(adapters[1..][i], webDispose)
          && forall j :: 0 <= j < i ==> Outcome(adapters[1..][j], webDispose).None?;
        assert adapters[i + 1] == adapters[1..][i];
        assert forall j :: 0 <= j < i + 1 ==> Outcome(adapters[j], webDispose).None?;
      }
    }
  }

  function NotRegistered(id: string): string {
    "Adapter with id " + id + " is not registered"
  }

  class AdapterRegistry {
    const configurations: seq<AdapterConfiguration>
    var entries: map<string, Adapter>
    var order: seq<string>

    ghost predicate Valid()
      reads this
    {
      TableValid(Table(entries, order))
    }

    constructor(configurations: seq<AdapterConfiguration>)
      ensures this.configurations == configurations
      ensures entries == map[] && order == []
      ensures Valid()
    {
      this.configurations := configurations;
      entries := map[];
      order := [];
    }

    /** `initialize()`, one configuration at a time. */
    method Initialize(webInit: AdapterConfiguration -> Option<JsError>) returns (error: Option<JsError>)
      requires Valid()
      modifies this
      ensures Valid()
      ensures (Table(entries, order), error) == InitializeAll(old(Table(entries, order)), configurations, webInit)
    {
      var i := 0;
      error := None;
      while i < |configurations|
        invariant 0 <= i <= |configurations|
        invariant Valid()
        invariant var (last, rest) := InitializeAll(Table(entries, order), configurations[i..], webInit);
          InitializeAll(old(Table(entries, order)), configurations, webInit)
            == (last, if error.Some? then error else rest)
      {
        var config := configurations[i];
        var adapter := Adapter(SelectKind(config), config);
        var outcome := Outcome(adapter, webInit);
        assert configurations[i..][1..] == configurations[i + 1..];
        if outcome.None? {
          var next := Insert(Table(entries, order), adapter);
          entries := next.entries;
          order := next.order;
        } else if error.None? {
          error := outcome;
        }
        i := i + 1;
      }
    }

    /** `get(id)`: the adapter stored under `id`, or the error naming it. */
    function Get(id: string): (r: Result<Adapter, JsError>)
      reads this
      ensures r.Success? <==> id in entries
      ensures r.Success? ==> r.value == entries[id]
      ensures r.Failure? ==> r.error == Error(NotRegistered(id))
    {
      if id in entries then Success(entries[id]) else Failure(Error(NotRegistered(id)))
    }

    /** `list()`: a fresh sequence of the adapters in insertion order. */
    function List(): (r: seq<Adapter>)
      requires Valid()
      reads this
      ensures |r| == |order| && |r| == |entries|
      ensures forall i :: 0 <= i < |r| ==> r[i] == entries[order[i]]
      ensures forall k :: k in entries ==> entries[k] in r
    {
      NoDuplicatesCardinality(order, entries.Keys);
      var es, os := entries, order;
      seq(|os|, i requires 0 <= i < |os| => es[os[i]])
    }

    /** `dispose()`: every adapter's `dispose` is called; only when all of them resolve
      is the map cleared, otherwise the first error is thrown and the map is kept. */
    method Dispose(webDispose: AdapterConfiguration -> Option<JsError>) returns (error: Option<JsError>, called: seq<Adapter>)
      requires Valid()
      modifies this
      ensures Valid()
      ensures called == old(List())
      ensures error == FirstError(called, webDispose)
      ensures error.None? ==> entries == map[] && order == []
      ensures error.Some? ==> entries == old(entries) && order == old(order)
    {
      var adapters := List();
      error, called := DisposeEach(adapters, webDispose);
      if error.None? {
        entries := map[];
        order := [];
      }
    }
  }

  /** A sequence without duplicates whose elements are exactly a set's has the set's size. */
  lemma {:induction false} NoDuplicatesCardinality(s: seq<string>, keys: set<string>)
    requires NoDuplicates(s) && forall k :: k in keys <==> k in s
    ensures |s| == |keys|
    decreases |s|
  {
    if s != [] {
      var rest := s[1..];
      assert forall k :: k in keys - {s[0]} <==> k in rest by {
        forall k ensures k in keys - {s[0]} <==> k in rest {
          if k in rest {
            var j :| 0 <= j < |rest| && rest[j] == k;
            assert s[j + 1] == k;
          }
          if k in s && k != s[0] {
            var j :| 0 <= j < |s| && s[j] == k;
            assert rest[j - 1] == k;
          }
        }
      }
      assert NoDuplicates(rest) by {
        forall a, b | 0 <= a < b < |rest| ensures rest[a] != rest[b] {
          assert s[a + 1] != s[b + 1];
        }
      }
      NoDuplicatesCardinality(rest, keys - {s[0]});
    }
  }

  /** The `dispose` calls of `Promise.all(adapters.map(...))`: every adapter's is made,
      and the combined outcome is the first error among them. */
  method DisposeEach(adapters: seq<Adapter>, webDispose: AdapterConfiguration -> Option<JsError>)
    returns (error: Option<JsError>, called: seq<Adapter>)
    ensures called == adapters
    ensures error == FirstError(adapters, webDispose)
  {
    called := [];
    error := None;
    var i := 0;
    while i < |adapters|
      invariant 0 <= i <= |adapters|
      invariant called == adapters[..i]
      invariant error == FirstError(called, webDispose)
    {
      FirstErrorSnoc(called, adapters[i], webDispose);
      called := called + [adapters[i]];
      if error.None? {
        error := Outcome(adapters[i], webDispose);
      }
      i := i + 1;
    }
    assert called == adapters;
  }

  lemma FirstErrorSnoc(adapters: seq<Adapter>, last: Adapter, webDispose: AdapterConfiguration -> Option<JsError>)
    ensures FirstError(adapters + [last], webDispose) ==
      if FirstError(adapters, webDispose).Some? then FirstError(adapters, webDispose) else Outcome(last, webDispose)
    decreases |adapters|
  {
    if adapters != [] {
      assert (adapters + [last])[1..] == adapters[1..] + [last];
      FirstErrorSnoc(adapters[1..], last, webDispose);
    }
  }
}
