/** The parts of the gateway configuration the router reads, and its startup validation. */
module RouterConfig {
  import opened Sequences
  import opened Sorting

  datatype Protocol = OpenAiResponses | OpenAiChatCompletions

  datatype Strategy = Direct | Failover | CostOptimised | RoundRobin | LatencyOptimised

  /** `adapterProtocol` is what the provider's adapter class can serve natively, if anything. */
  datatype Provider = Provider(
    name: string, models: set<string>, costPerToken: real, passthrough: bool, adapterProtocol: Option<Protocol>)

  /** `acceptsContext`: names whose adapter class takes Anthropic context management as it is. */
  datatype Config = Config(
    providers: seq<Provider>,
    aliases: map<string, string>,
    routingStrategy: Strategy,
    modelStrategies: map<string, Strategy>,
    cacheEnabled: bool,
    acceptsContext: set<string>,
    alpha: real)
  {
    /** One lookup, never a chain. */
    function ResolveAlias(model: string): string {
      if model in aliases then aliases[model] else model
    }

    /** Names of the providers that list the resolved model, in configuration order. */
    function ProvidersForModel(model: string): seq<string> {
      Serving(providers, ResolveAlias(model))
    }

    function StrategyForModel(model: string): Strategy {
      if model in modelStrategies then modelStrategies[model]
      else if ResolveAlias(model) in modelStrategies then modelStrategies[ResolveAlias(model)]
      else routingStrategy
    }
  }

  /** Provider names are the keys of a dictionary. */
  ghost predicate DistinctNames(providers: seq<Provider>) {
    forall i, j :: 0 <= i < j < |providers| ==> providers[i].name != providers[j].name
  }

  function Serving(providers: seq<Provider>, model: string): seq<string> {
    if providers == [] then []
    else (if model in providers[0].models then [providers[0].name] else []) + Serving(providers[1..], model)
  }

  /** The provider called `name` lists `model`. */
  ghost predicate Serves(providers: seq<Provider>, name: string, model: string) {
    exists i :: 0 <= i < |providers| && providers[i].name == name && model in providers[i].models
  }

  lemma {:induction false} ServingMembers(providers: seq<Provider>, model: string, name: string)
    ensures name in Serving(providers, model) <==> Serves(providers, name, model)
  {
    if providers != [] {
      var rest := providers[1..];
      ServingMembers(rest, model, name);
      if name in Serving(providers, model) {
        if name in Serving(rest, model) {
          var i :| 0 <= i < |rest| && rest[i].name == name && model in rest[i].models;
          assert providers[i + 1] == rest[i];
        } else {
          assert providers[0].name == name;
        }
      }
      if Serves(providers, name, model) {
        var i :| 0 <= i < |providers| && providers[i].name == name && model in providers[i].models;
        if i > 0 { assert rest[i - 1] == providers[i]; }
      }
    }
  }

  lemma {:induction false} ServingDistinct(providers: seq<Provider>, model: string)
    requires DistinctNames(providers)
    ensures NoDuplicates(Serving(providers, model))
  {
    if providers != [] {
      var rest := providers[1..];
      ServingDistinct(rest, model);
      forall i | 0 <= i < |Serving(rest, model)| ensures Serving(rest, model)[i] != providers[0].name {
        ServingMembers(rest, model, Serving(rest, model)[i]);
      }
    }
  }

  /** The provider called `a` stands before the one called `b` in the configuration. */
  ghost predicate ConfiguredBefore(providers: seq<Provider>, a: string, b: string) {
    exists p, q :: 0 <= p < q < |providers| && providers[p].name == a && providers[q].name == b
  }

  /** Providers that list a model come in configuration order. */
  lemma {:induction false} ServingInOrder(providers: seq<Provider>, model: string, i: nat, j: nat)
    requires i < j < |Serving(providers, model)|
    ensures ConfiguredBefore(providers, Serving(providers, model)[i], Serving(providers, model)[j])
  {
    var rest, later := providers[1..], Serving(providers[1..], model);
    var d := |Serving(providers, model)| - |later|;
    if i < d {
      ServingMembers(rest, model, later[j - d]);
      var q :| 0 <= q < |rest| && rest[q].name == later[j - d] && model in rest[q].models;
      assert providers[0].name == Serving(providers, model)[i] && providers[q + 1] == rest[q];
    } else {
      ServingInOrder(rest, model, i - d, j - d);
      var p, q :| 0 <= p < q < |rest| && rest[p].name == later[i - d] && rest[q].name == later[j - d];
      assert providers[p + 1] == rest[p] && providers[q + 1] == rest[q];
    }
  }

  /** A request's own name decides its strategy, then the name it is an alias of, then the default. */
  lemma StrategyLookup(config: Config, model: string)
    ensures var canonical := if model in config.aliases then config.aliases[model] else model;
      && (model in config.modelStrategies ==> config.StrategyForModel(model) == config.modelStrategies[model])
      && (model !in config.modelStrategies && canonical in config.modelStrategies ==>
            config.StrategyForModel(model) == config.modelStrategies[canonical])
      && (model !in config.modelStrategies && canonical !in config.modelStrategies ==>
            config.StrategyForModel(model) == config.routingStrategy)
  {
  }

  // ----- startup validation -----

  datatype Refusal = CannotServeNatively | CacheEnabled | MixedPaths

  datatype Validation = Accepted(native: map<string, Protocol>) | Refused(reason: Refusal)

  /** Provider name to protocol, for every provider with passthrough set. */
  function NativeProtocols(providers: seq<Provider>): map<string, Protocol> {
    if providers == [] then map[]
    else
      var p := providers[0];
      var rest := NativeProtocols(providers[1..]);
      if p.passthrough && p.adapterProtocol.Some? then rest[p.name := p.adapterProtocol.value] else rest
  }

  /** The path a provider is served on; `None` is the canonical one. */
  function PathOf(native: map<string, Protocol>, name: string): Option<Protocol> {
    if name in native then Some(native[name]) else None
  }

  predicate SamePath(native: map<string, Protocol>, names: seq<string>) {
    forall i, j | 0 <= i < |names| && 0 <= j < |names| :: PathOf(native, names[i]) == PathOf(native, names[j])
  }

  function AllModels(providers: seq<Provider>): set<string> {
    if providers == [] then {} else providers[0].models + AllModels(providers[1..])
  }

  function ValidatePassthrough(config: Config): Validation {
    var native := NativeProtocols(config.providers);
    if exists p | p in config.providers :: p.passthrough && p.adapterProtocol.None? then Refused(CannotServeNatively)
    else if native == map[] then Accepted(native)
    else if config.cacheEnabled then Refused(CacheEnabled)
    else if exists m | m in AllModels(config.providers) :: !SamePath(native, config.ProvidersForModel(m)) then
      Refused(MixedPaths)
    else Accepted(native)
  }

  lemma {:induction false} NativeAre(providers: seq<Provider>, name: string)
    requires DistinctNames(providers)
    ensures name in NativeProtocols(providers) <==>
      exists i :: 0 <= i < |providers| && providers[i].name == name && ServesNatively(providers[i])
    ensures forall i :: 0 <= i < |providers| && providers[i].name == name && ServesNatively(providers[i]) ==>
      NativeProtocols(providers)[name] == providers[i].adapterProtocol.value
  {
    if providers != [] {
      var rest := providers[1..];
      NativeAre(rest, name);
      if i :| 0 <= i < |rest| && rest[i].name == name && ServesNatively(rest[i]) {
        assert providers[i + 1] == rest[i];
      }
      if i :| 0 <= i < |providers| && providers[i].name == name && ServesNatively(providers[i]) {
        if i > 0 { assert rest[i - 1] == providers[i]; }
      }
      forall i | 0 <= i < |providers| && providers[i].name == name && ServesNatively(providers[i])
        ensures NativeProtocols(providers)[name] == providers[i].adapterProtocol.value
      {
        if i > 0 { assert rest[i - 1] == providers[i]; }
      }
    }
  }

  /** Passthrough is on, and the adapter has a protocol to pass through. */
  predicate ServesNatively(p: Provider) { p.passthrough && p.adapterProtocol.Some? }

  lemma {:induction false} ListedIff(providers: seq<Provider>, model: string)
    ensures model in AllModels(providers) <==> exists i :: 0 <= i < |providers| && model in providers[i].models
  {
    if providers != [] {
      var rest := providers[1..];
      ListedIff(rest, model);
      if i :| 0 <= i < |rest| && model in rest[i].models {
        assert providers[i + 1] == rest[i];
      }
      if i :| 0 <= i < |providers| && model in providers[i].models {
        if i > 0 { assert rest[i - 1] == providers[i]; }
      }
    }
  }

  /** No provider passes through without a protocol, and if one passes through at all: no cache, one path per model. */
  lemma AcceptedIff(config: Config)
    requires DistinctNames(config.providers)
    ensures ValidatePassthrough(config).Accepted? <==>
      && (forall i :: 0 <= i < |config.providers| && config.providers[i].passthrough ==>
            config.providers[i].adapterProtocol.Some?)
      && ((exists i :: 0 <= i < |config.providers| && config.providers[i].passthrough) ==>
            && !config.cacheEnabled
            && forall i, m :: 0 <= i < |config.providers| && m in config.providers[i].models ==>
                 SamePath(NativeProtocols(config.providers), config.ProvidersForModel(m)))
  {
    var ps, native := config.providers, NativeProtocols(config.providers);
    if i :| 0 <= i < |ps| && ServesNatively(ps[i]) {
      NativeAre(ps, ps[i].name);
    }
    if native != map[] {
      var name :| name in native;
      NativeAre(ps, name);
    }
    forall m ensures m in AllModels(ps) <==> exists i :: 0 <= i < |ps| && m in ps[i].models {
      ListedIff(ps, m);
    }
  }

  lemma {:induction false} ServedModelIsListed(providers: seq<Provider>, model: string)
    requires Serving(providers, model) != []
    ensures model in AllModels(providers)
  {
    if model !in providers[0].models {
      ServedModelIsListed(providers[1..], model);
    }
  }

  /** After validation, the providers of any model that is its own canonical name share one path. */
  lemma AcceptedModelsSharePath(config: Config, model: string)
    requires ValidatePassthrough(config).Accepted?
    requires config.ResolveAlias(model) == model
    ensures SamePath(ValidatePassthrough(config).native, config.ProvidersForModel(model))
  {
    if config.ProvidersForModel(model) != [] {
      ServedModelIsListed(config.providers, model);
    }
  }
}
