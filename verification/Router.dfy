/** Candidate ordering and the model router's own state. */
module Router {
  import opened Sequences
  import opened Sorting
  import opened RouterConfig

  /** A provider and the model name it will be asked for. */
  datatype Candidate = Candidate(provider: string, model: string)

  function Label(names: seq<string>, model: string): (r: seq<Candidate>)
    ensures |r| == |names|
    ensures forall i :: 0 <= i < |names| ==> r[i] == Candidate(names[i], model)
  {
    seq(|names|, i requires 0 <= i < |names| => Candidate(names[i], model))
  }

  // ----- ordering -----

  /** The configured cost, or nothing for an unknown name. */
  function CostOf(providers: seq<Provider>, name: string): real {
    if providers == [] then 0.0
    else if providers[0].name == name then providers[0].costPerToken
    else CostOf(providers[1..], name)
  }

  function CheaperFirst(providers: seq<Provider>): (string, string) -> bool {
    (a: string, b: string) => CostOf(providers, a) <= CostOf(providers, b)
  }

  /** Measured providers by latency, then the unmeasured ones. */
  function FasterFirst(ewma: map<string, real>): (string, string) -> bool {
    (a: string, b: string) => b !in ewma || (a in ewma && ewma[a] <= ewma[b])
  }

  function Rotate(names: seq<string>, k: nat): seq<string>
    requires k <= |names|
  {
    names[k..] + names[..k]
  }

  function OrderNames(
    config: Config, strategy: Strategy, ewma: map<string, real>, names: seq<string>, turn: nat): seq<string>
    requires turn < |names|
  {
    match strategy
    case Direct => [names[0]]
    case Failover => names
    case CostOptimised => StableSort(names, CheaperFirst(config.providers))
    case RoundRobin => Rotate(names, turn)
    case LatencyOptimised => StableSort(names, FasterFirst(ewma))
  }

  lemma CostOrder(providers: seq<Provider>)
    ensures TotalPreorder(CheaperFirst(providers))
  {
  }

  lemma LatencyOrder(ewma: map<string, real>)
    ensures TotalPreorder(FasterFirst(ewma))
  {
  }

  lemma RotateKeepsElements(names: seq<string>, k: nat)
    requires k <= |names| && NoDuplicates(names)
    ensures multiset(Rotate(names, k)) == multiset(names) && NoDuplicates(Rotate(names, k))
  {
    assert names == names[..k] + names[k..];
    var r := Rotate(names, k);
    forall i, j | 0 <= i < j < |r| ensures r[i] != r[j] {
      var n := |names| - k;
      assert r[i] == names[if i < n then i + k else i - n];
      assert r[j] == names[if j < n then j + k else j - n];
    }
  }

  /** Every strategy but the direct one tries each provider exactly once. */
  lemma OrderIsPermutation(
    config: Config, strategy: Strategy, ewma: map<string, real>, names: seq<string>, turn: nat)
    requires turn < |names| && NoDuplicates(names)
    ensures var r := OrderNames(config, strategy, ewma, names, turn);
      && NoDuplicates(r)
      && r != []
      && (if strategy.Direct? then r == [names[0]] else multiset(r) == multiset(names))
  {
    match strategy
    case CostOptimised => SortKeepsDistinct(names, CheaperFirst(config.providers));
    case LatencyOptimised => SortKeepsDistinct(names, FasterFirst(ewma));
    case RoundRobin => RotateKeepsElements(names, turn);
    case Direct =>
    case Failover =>
  }

  /** Cheapest first, and configuration order between equal costs. */
  lemma CostOptimisedOrder(config: Config, ewma: map<string, real>, names: seq<string>, turn: nat, i: nat, j: nat)
    requires turn < |names| && i < j < |names|
    ensures var r := OrderNames(config, CostOptimised, ewma, names, turn);
      var a, b := CostOf(config.providers, names[i]), CostOf(config.providers, names[j]);
      (a <= b ==> Before(r, names[i], names[j])) && (b < a ==> Before(r, names[j], names[i]))
  {
    var le := CheaperFirst(config.providers);
    CostOrder(config.providers);
    if CostOf(config.providers, names[i]) <= CostOf(config.providers, names[j]) {
      StableSortIsStable(names, le, i, j);
    } else {
      StableSortPrecedes(names, le, names[j], names[i]);
    }
  }

  /**
   Fastest measured first; a measured provider before an unmeasured one; configuration order
   between equal latencies and among the unmeasured.
   */
  lemma LatencyOptimisedOrder(config: Config, ewma: map<string, real>, names: seq<string>, turn: nat, i: nat, j: nat)
    requires turn < |names| && i < j < |names|
    ensures var r := OrderNames(config, LatencyOptimised, ewma, names, turn);
      var a, b := names[i], names[j];
      var overtakes := b in ewma && (a !in ewma || ewma[b] < ewma[a]);
      if overtakes then Before(r, b, a) else Before(r, a, b)
  {
    var le := FasterFirst(ewma);
    LatencyOrder(ewma);
    var a, b := names[i], names[j];
    if b in ewma && (a !in ewma || ewma[b] < ewma[a]) {
      StableSortPrecedes(names, le, b, a);
    } else {
      StableSortIsStable(names, le, i, j);
    }
  }

  // ----- building candidates -----

  type Counters = map<string, nat>

  function CounterOf(counters: Counters, model: string): nat {
    if model in counters then counters[model] else 0
  }

  ghost predicate ValidCounters(config: Config, counters: Counters) {
    forall m :: m in counters ==> counters[m] < |config.ProvidersForModel(m)|
  }

  datatype Built = Built(candidates: seq<Candidate>) | NoProvider(model: string)

  function Build(config: Config, counters: Counters, ewma: map<string, real>, raw: string): Built
    requires ValidCounters(config, counters)
  {
    var model := config.ResolveAlias(raw);
    var names := config.ProvidersForModel(model);
    if names == [] then NoProvider(model)
    else
      Built(Label(OrderNames(config, config.StrategyForModel(raw), ewma, names, CounterOf(counters, model)), model))
  }

  function NextTurn(turn: nat, n: nat): (next: nat)
    requires turn < n
    ensures next == if turn + 1 == n then 0 else turn + 1
  {
    NextTurnInRange(turn, n);
    (turn + 1) % n
  }

  lemma NextTurnInRange(turn: nat, n: nat)
    requires turn < n
    ensures (turn + 1) % n == if turn + 1 == n then 0 else turn + 1
  {
  }

  /** The counters after building: the round-robin turn of the resolved model moves on by one. */
  function BuildCounters(config: Config, counters: Counters, raw: string): Counters
    requires ValidCounters(config, counters)
  {
    var model := config.ResolveAlias(raw);
    var names := config.ProvidersForModel(model);
    if names == [] || !config.StrategyForModel(raw).RoundRobin? then counters
    else counters[model := NextTurn(CounterOf(counters, model), |names|)]
  }

  /** Who can be a candidate, and under which name: the provider lists the model resolved twice. */
  lemma BuildMembers(config: Config, counters: Counters, ewma: map<string, real>, raw: string, c: Candidate)
    requires ValidCounters(config, counters) && DistinctNames(config.providers)
    requires Build(config, counters, ewma, raw).Built? && c in Build(config, counters, ewma, raw).candidates
    ensures c.model == config.ResolveAlias(raw) == if raw in config.aliases then config.aliases[raw] else raw
    ensures Serves(config.providers, c.provider, if c.model in config.aliases then config.aliases[c.model] else c.model)
  {
    var model := config.ResolveAlias(raw);
    var names := config.ProvidersForModel(model);
    var turn := CounterOf(counters, model);
    ServingDistinct(config.providers, config.ResolveAlias(model));
    OrderIsPermutation(config, config.StrategyForModel(raw), ewma, names, turn);
    var ordered := OrderNames(config, config.StrategyForModel(raw), ewma, names, turn);
    assert c.provider in ordered;
    if !config.StrategyForModel(raw).Direct? {
      SameElements(ordered, names, c.provider);
    }
    ServingMembers(config.providers, config.ResolveAlias(model), c.provider);
  }

  // ----- the order of what is built -----

  /** The names a request's candidates come from: who lists the model resolved twice, in configuration order. */
  function NamesFor(config: Config, raw: string): seq<string> {
    config.ProvidersForModel(config.ResolveAlias(raw))
  }

  lemma NamesInOrder(config: Config, raw: string, i: nat, j: nat)
    requires i < j < |NamesFor(config, raw)|
    ensures ConfiguredBefore(config.providers, NamesFor(config, raw)[i], NamesFor(config, raw)[j])
  {
    ServingInOrder(config.providers, config.ResolveAlias(config.ResolveAlias(raw)), i, j);
  }

  /** Without a provider the build fails; otherwise every strategy but direct has each provider as a candidate. */
  lemma EveryProviderIsTried(config: Config, counters: Counters, ewma: map<string, real>, raw: string, name: string)
    requires ValidCounters(config, counters) && DistinctNames(config.providers)
    ensures var built := Build(config, counters, ewma, raw);
      var listed := Serves(config.providers, name, config.ResolveAlias(config.ResolveAlias(raw)));
      && (built.NoProvider? ==> !listed)
      && (built.Built? && !config.StrategyForModel(raw).Direct? ==>
            ((exists c :: c in built.candidates && c.provider == name) <==> listed))
  {
    var names := NamesFor(config, raw);
    ServingMembers(config.providers, config.ResolveAlias(config.ResolveAlias(raw)), name);
    if names != [] {
      var turn := CounterOf(counters, config.ResolveAlias(raw));
      var order := OrderNames(config, config.StrategyForModel(raw), ewma, names, turn);
      ServingDistinct(config.providers, config.ResolveAlias(config.ResolveAlias(raw)));
      OrderIsPermutation(config, config.StrategyForModel(raw), ewma, names, turn);
      if !config.StrategyForModel(raw).Direct? {
        SameElements(order, names, name);
        if name in order {
          var i :| 0 <= i < |order| && order[i] == name;
          assert Build(config, counters, ewma, raw).candidates[i].provider == name;
        }
      }
    }
  }

  /** Direct: the one candidate is the provider configured first of those that list the model. */
  lemma DirectTakesFirst(config: Config, counters: Counters, ewma: map<string, real>, raw: string, name: string)
    requires ValidCounters(config, counters) && config.StrategyForModel(raw).Direct?
    requires Serves(config.providers, name, config.ResolveAlias(config.ResolveAlias(raw)))
    ensures var built := Build(config, counters, ewma, raw);
      && built.Built? && |built.candidates| == 1
      && (built.candidates[0].provider == name
          || ConfiguredBefore(config.providers, built.candidates[0].provider, name))
  {
    ServingMembers(config.providers, config.ResolveAlias(config.ResolveAlias(raw)), name);
    var names := NamesFor(config, raw);
    var i :| 0 <= i < |names| && names[i] == name;
    if i > 0 {
      NamesInOrder(config, raw, 0, i);
    }
  }

  /** Failover: candidates are tried in configuration order, the configured primary first. */
  lemma FailoverFollowsConfiguration(
    config: Config, counters: Counters, ewma: map<string, real>, raw: string, i: nat, j: nat)
    requires ValidCounters(config, counters) && config.StrategyForModel(raw).Failover?
    requires Build(config, counters, ewma, raw).Built? && i < j < |Build(config, counters, ewma, raw).candidates|
    ensures var c := Build(config, counters, ewma, raw).candidates;
      ConfiguredBefore(config.providers, c[i].provider, c[j].provider)
  {
    NamesInOrder(config, raw, i, j);
  }

  /** Candidate `k` is the name `k` places after `turn`, around the list. */
  ghost predicate GoesAround(c: seq<Candidate>, names: seq<string>, turn: nat) {
    && |c| == |names| && turn < |names|
    && forall k | 0 <= k < |c| :: c[k].provider == names[if turn + k < |names| then turn + k else turn + k - |names|]
  }

  lemma RotationGoesAround(names: seq<string>, turn: nat, model: string)
    requires turn < |names|
    ensures GoesAround(Label(Rotate(names, turn), model), names, turn)
  {
  }

  /** Round robin: from the provider the counter points at once around the configured list. */
  lemma RoundRobinGoesAround(config: Config, counters: Counters, ewma: map<string, real>, raw: string)
    requires ValidCounters(config, counters) && config.StrategyForModel(raw).RoundRobin?
    requires Build(config, counters, ewma, raw).Built?
    ensures var model := config.ResolveAlias(raw);
      GoesAround(
        Build(config, counters, ewma, raw).candidates, NamesFor(config, raw),
        if model in counters then counters[model] else 0)
  {
    var model := config.ResolveAlias(raw);
    RotationGoesAround(NamesFor(config, raw), CounterOf(counters, model), model);
  }

  /** So the candidate after one provider is the provider configured after it, or the first after the last. */
  lemma AroundIsSuccessor(c: seq<Candidate>, names: seq<string>, turn: nat, k: nat, t: nat)
    requires GoesAround(c, names, turn) && NoDuplicates(names)
    requires k + 1 < |c| && t < |names| && c[k].provider == names[t]
    ensures c[k + 1].provider == names[if t + 1 < |names| then t + 1 else 0]
  {
    SamePlace(names, if turn + k < |names| then turn + k else turn + k - |names|, t);
  }

  lemma CostIs(providers: seq<Provider>, i: nat)
    requires DistinctNames(providers) && i < |providers|
    ensures CostOf(providers, providers[i].name) == providers[i].costPerToken
  {
    if i > 0 {
      assert providers[1..][i - 1] == providers[i] && providers[0].name != providers[i].name;
      CostIs(providers[1..], i - 1);
    }
  }

  lemma SamePlace<T>(xs: seq<T>, i: nat, j: nat)
    requires NoDuplicates(xs) && i < |xs| && j < |xs| && xs[i] == xs[j]
    ensures i == j
  {
  }

  lemma FirstInOrder<T(!new)>(xs: seq<T>, i: nat, j: nat)
    requires NoDuplicates(xs) && i < |xs| && j < |xs| && Before(xs, xs[i], xs[j])
    ensures i < j
  {
    var a, b :| 0 <= a < b < |xs| && xs[a] == xs[i] && xs[b] == xs[j];
    SamePlace(xs, a, i);
    SamePlace(xs, b, j);
  }

  /** Cost: never a dearer provider before a cheaper one, and configuration order between equally dear ones. */
  lemma CheapestFirst(
    config: Config, counters: Counters, ewma: map<string, real>, raw: string, i: nat, j: nat, p: nat, q: nat)
    requires ValidCounters(config, counters) && DistinctNames(config.providers)
    requires config.StrategyForModel(raw).CostOptimised? && Build(config, counters, ewma, raw).Built?
    requires i < j < |Build(config, counters, ewma, raw).candidates| && p < |config.providers| && q < |config.providers|
    requires var c := Build(config, counters, ewma, raw).candidates;
      config.providers[p].name == c[i].provider && config.providers[q].name == c[j].provider
    ensures config.providers[p].costPerToken <= config.providers[q].costPerToken
    ensures config.providers[p].costPerToken == config.providers[q].costPerToken ==> p < q
  {
    var names := NamesFor(config, raw);
    var r := StableSort(names, CheaperFirst(config.providers));
    ServingDistinct(config.providers, config.ResolveAlias(config.ResolveAlias(raw)));
    SortKeepsDistinct(names, CheaperFirst(config.providers));
    CostIs(config.providers, p);
    CostIs(config.providers, q);
    SameElements(r, names, r[i]);
    SameElements(r, names, r[j]);
    var a :| 0 <= a < |names| && names[a] == r[i];
    var b :| 0 <= b < |names| && names[b] == r[j];
    if a < b {
      CostOptimisedOrder(config, ewma, names, 0, a, b);
      NamesInOrder(config, raw, a, b);
      SameProviders(config.providers, p, q);
      if CostOf(config.providers, r[j]) < CostOf(config.providers, r[i]) { FirstInOrder(r, j, i); }
    } else {
      assert a != b;
      CostOptimisedOrder(config, ewma, names, 0, b, a);
      if CostOf(config.providers, r[j]) <= CostOf(config.providers, r[i]) { FirstInOrder(r, j, i); }
    }
  }

  /** Distinct names make a provider's place its own. */
  lemma SameProviders(providers: seq<Provider>, p: nat, q: nat)
    requires DistinctNames(providers) && p < |providers| && q < |providers|
    requires ConfiguredBefore(providers, providers[p].name, providers[q].name)
    ensures p < q
  {
    var a, b :| 0 <= a < b < |providers| && providers[a].name == providers[p].name
      && providers[b].name == providers[q].name;
    var names := seq(|providers|, i requires 0 <= i < |providers| => providers[i].name);
    SamePlace(names, a, p);
    SamePlace(names, b, q);
  }

  /** Latency: measured providers fastest first, unmeasured ones behind them; configuration order between equals. */
  lemma FastestFirst(
    config: Config, counters: Counters, ewma: map<string, real>, raw: string, i: nat, j: nat)
    requires ValidCounters(config, counters) && DistinctNames(config.providers)
    requires config.StrategyForModel(raw).LatencyOptimised? && Build(config, counters, ewma, raw).Built?
    requires i < j < |Build(config, counters, ewma, raw).candidates|
    ensures var c := Build(config, counters, ewma, raw).candidates;
      var a, b := c[i].provider, c[j].provider;
      || (a in ewma && (b !in ewma || ewma[a] < ewma[b]))
      || (((a in ewma && b in ewma && ewma[a] == ewma[b]) || (a !in ewma && b !in ewma))
          && ConfiguredBefore(config.providers, a, b))
  {
    var names := NamesFor(config, raw);
    var r := StableSort(names, FasterFirst(ewma));
    ServingDistinct(config.providers, config.ResolveAlias(config.ResolveAlias(raw)));
    SortKeepsDistinct(names, FasterFirst(ewma));
    SameElements(r, names, r[i]);
    SameElements(r, names, r[j]);
    var a :| 0 <= a < |names| && names[a] == r[i];
    var b :| 0 <= b < |names| && names[b] == r[j];
    if a < b {
      LatencyOptimisedOrder(config, ewma, names, 0, a, b);
      NamesInOrder(config, raw, a, b);
      if Before(r, r[j], r[i]) { FirstInOrder(r, j, i); }
    } else {
      assert a != b;
      LatencyOptimisedOrder(config, ewma, names, 0, b, a);
      if Before(r, r[j], r[i]) { FirstInOrder(r, j, i); }
    }
  }

  // ----- what resolving an alias twice does -----

  ghost predicate EveryCandidateServes(config: Config, raw: string) {
    forall counters, ewma :: ValidCounters(config, counters) ==>
      var b := Build(config, counters, ewma, raw);
      b.Built? ==> forall c :: c in b.candidates ==> Serves(config.providers, c.provider, c.model)
  }

  function WithProviders(config: Config, providers: seq<Provider>): Config {
    config.(providers := providers)
  }

  /** A provider that lists exactly one model. */
  function Single(name: string, model: string, protocol: Option<Protocol>): Provider {
    Provider(name, {model}, 0.0, protocol.Some?, protocol)
  }

  /** For one alias table: candidates serve their model, whatever the providers, iff one step resolves it. */
  lemma CandidatesServeIff(config: Config, raw: string)
    ensures (forall ps :: DistinctNames(ps) ==> EveryCandidateServes(WithProviders(config, ps), raw))
      <==> config.ResolveAlias(config.ResolveAlias(raw)) == config.ResolveAlias(raw)
  {
    var model := config.ResolveAlias(raw);
    if config.ResolveAlias(model) == model {
      forall ps | DistinctNames(ps) ensures EveryCandidateServes(WithProviders(config, ps), raw) {
        var cfg := WithProviders(config, ps);
        forall counters, ewma, c | ValidCounters(cfg, counters) && Build(cfg, counters, ewma, raw).Built?
          && c in Build(cfg, counters, ewma, raw).candidates
          ensures Serves(ps, c.provider, c.model)
        {
          BuildMembers(cfg, counters, ewma, raw, c);
        }
      }
    } else {
      var ps := [Single("p", config.ResolveAlias(model), None)];
      var cfg := WithProviders(config, ps);
      assert DistinctNames(ps);
      assert ps[1..] == [];
      assert Serving(ps, config.ResolveAlias(model)) == ["p"];
      assert cfg.ResolveAlias(model) == config.ResolveAlias(model);
      assert cfg.ProvidersForModel(model) == ["p"];
      var b := Build(cfg, map[], map[], raw);
      assert b.candidates[0] == Candidate("p", model);
      assert !Serves(ps, "p", model);
      assert ValidCounters(cfg, map[]);
      assert !EveryCandidateServes(cfg, raw);
    }
  }

  ghost predicate EveryCandidateOnOnePath(config: Config, raw: string) {
    forall counters, ewma :: ValidCounters(config, counters) && ValidatePassthrough(config).Accepted? ==>
      var b := Build(config, counters, ewma, raw);
      b.Built? ==> SamePath(ValidatePassthrough(config).native, Providers(b.candidates))
  }

  function Providers(candidates: seq<Candidate>): (names: seq<string>)
    ensures |names| == |candidates|
    ensures forall i :: 0 <= i < |names| ==> names[i] == candidates[i].provider
  {
    seq(|candidates|, i requires 0 <= i < |candidates| => candidates[i].provider)
  }

  /** Candidates are among the providers of the model resolved twice, so its shared path is theirs. */
  lemma CandidatesSharePath(config: Config, counters: Counters, ewma: map<string, real>, raw: string)
    requires ValidCounters(config, counters) && DistinctNames(config.providers)
    requires ValidatePassthrough(config).Accepted? && Build(config, counters, ewma, raw).Built?
    requires var twice := config.ResolveAlias(config.ResolveAlias(raw)); config.ResolveAlias(twice) == twice
    ensures SamePath(ValidatePassthrough(config).native, Providers(Build(config, counters, ewma, raw).candidates))
  {
    var native := ValidatePassthrough(config).native;
    var twice := config.ResolveAlias(config.ResolveAlias(raw));
    AcceptedModelsSharePath(config, twice);
    var candidates := Build(config, counters, ewma, raw).candidates;
    var names := config.ProvidersForModel(twice);
    forall i | 0 <= i < |candidates| ensures candidates[i].provider in names {
      BuildMembers(config, counters, ewma, raw, candidates[i]);
      ServingMembers(config.providers, twice, candidates[i].provider);
    }
  }

  lemma DirectSharesPath(config: Config, counters: Counters, ewma: map<string, real>, raw: string)
    requires ValidCounters(config, counters) && config.StrategyForModel(raw).Direct?
    requires ValidatePassthrough(config).Accepted? && Build(config, counters, ewma, raw).Built?
    ensures SamePath(ValidatePassthrough(config).native, Providers(Build(config, counters, ewma, raw).candidates))
  {
    assert |Build(config, counters, ewma, raw).candidates| == 1;
  }

  /** Two providers on different paths that validation cannot see, because the alias table hides their model. */
  function HiddenPair(model: string): seq<Provider> {
    [Single("p", model, Some(OpenAiResponses)), Single("q", model, None)]
  }

  lemma HiddenPairAccepted(config: Config, model: string)
    requires !config.cacheEnabled && config.ResolveAlias(model) != model
    ensures var cfg := WithProviders(config, HiddenPair(model));
      ValidatePassthrough(cfg) == Accepted(map["p" := OpenAiResponses])
  {
    var ps := HiddenPair(model);
    var cfg := WithProviders(config, ps);
    assert ps[1..] == [Single("q", model, None)] && ps[1..][1..] == [];
    assert NativeProtocols(ps[1..]) == map[];
    assert NativeProtocols(ps) == map["p" := OpenAiResponses];
    assert AllModels(ps[1..]) == {model} && AllModels(ps) == {model};
    assert Serving(ps[1..], config.ResolveAlias(model)) == [];
    assert cfg.ProvidersForModel(model) == [];
  }

  lemma HiddenPairServes(model: string)
    ensures DistinctNames(HiddenPair(model)) && Serving(HiddenPair(model), model) == ["p", "q"]
  {
    var ps := HiddenPair(model);
    assert ps[1..] == [Single("q", model, None)] && ps[1..][1..] == [];
    assert Serving(ps[1..], model) == ["q"];
  }

  lemma HiddenPairMixed(config: Config, raw: string)
    requires var twice := config.ResolveAlias(config.ResolveAlias(raw));
      !config.cacheEnabled && config.ResolveAlias(twice) != twice && !config.StrategyForModel(raw).Direct?
    ensures var ps := HiddenPair(config.ResolveAlias(config.ResolveAlias(raw)));
      DistinctNames(ps) && !EveryCandidateOnOnePath(WithProviders(config, ps), raw)
  {
    var twice := config.ResolveAlias(config.ResolveAlias(raw));
    var ps := HiddenPair(twice);
    var cfg := WithProviders(config, ps);
    var native := map["p" := OpenAiResponses];
    HiddenPairAccepted(config, twice);
    HiddenPairServes(twice);
    var names := cfg.ProvidersForModel(cfg.ResolveAlias(raw));
    assert names == ["p", "q"];
    var b := Build(cfg, map[], map[], raw);
    var order := OrderNames(cfg, cfg.StrategyForModel(raw), map[], names, 0);
    OrderIsPermutation(cfg, cfg.StrategyForModel(raw), map[], names, 0);
    SameElements(order, names, "p");
    SameElements(order, names, "q");
    var i :| 0 <= i < |order| && order[i] == "p";
    var j :| 0 <= j < |order| && order[j] == "q";
    assert Providers(b.candidates)[i] == "p" && Providers(b.candidates)[j] == "q";
    assert PathOf(native, "p") != PathOf(native, "q");
    assert ValidCounters(cfg, map[]);
  }

  /**
   For one alias table, cache mode and strategy: every configuration the startup validation accepts
   gives candidates on one path iff resolving is done after two steps, or the request never had a
   second candidate or a native path to begin with.
   */
  lemma CandidatesOnOnePathIff(config: Config, raw: string)
    ensures (forall ps :: DistinctNames(ps) ==> EveryCandidateOnOnePath(WithProviders(config, ps), raw))
      <==>
      var twice := config.ResolveAlias(config.ResolveAlias(raw));
      config.ResolveAlias(twice) == twice || config.cacheEnabled || config.StrategyForModel(raw).Direct?
  {
    var twice := config.ResolveAlias(config.ResolveAlias(raw));
    if config.ResolveAlias(twice) == twice || config.cacheEnabled || config.StrategyForModel(raw).Direct? {
      forall ps | DistinctNames(ps) ensures EveryCandidateOnOnePath(WithProviders(config, ps), raw) {
        var cfg := WithProviders(config, ps);
        forall counters, ewma | ValidCounters(cfg, counters) && ValidatePassthrough(cfg).Accepted?
          && Build(cfg, counters, ewma, raw).Built?
          ensures SamePath(ValidatePassthrough(cfg).native, Providers(Build(cfg, counters, ewma, raw).candidates))
        {
          if config.StrategyForModel(raw).Direct? {
            DirectSharesPath(cfg, counters, ewma, raw);
          } else if !config.cacheEnabled {
            CandidatesSharePath(cfg, counters, ewma, raw);
          }
        }
      }
    } else {
      HiddenPairMixed(config, raw);
    }
  }

  // ----- routing a request -----

  /** A request on its way through the router; the last three fields are the router's own memo. */
  datatype Request = Request(
    model: string, contextManagement: bool, prepared: bool, routedProvider: Option<string>,
    routedCandidates: Option<seq<Candidate>>)

  /** What the rule engine says: refuse, or go on with this model. */
  datatype RuleOutcome = Reject | GoOn(model: string)

  /** What the selection adapter answers when asked for an explicit target. */
  datatype Pick = PickFails | NoPick | Picked(target: Candidate)

  /** Everything outside the router that one routing consults. */
  datatype Outside = Outside(rules: RuleOutcome, pick: Pick, choice: Candidate)

  /** The selection adapter, if there is one, by the explicit targets it was configured with. */
  type Selection = Option<set<Candidate>>

  datatype Routing = Routed(request: Request, candidates: seq<Candidate>) | NotRouted

  predicate HasTargets(selection: Selection) { selection.Some? && selection.value != {} }

  /** Rules first, then an explicit target; nothing of it a second time. */
  function Prepare(selection: Selection, request: Request, outside: Outside): Option<Request> {
    if request.prepared then Some(request)
    else if outside.rules.Reject? then None
    else
      var ruled := request.(model := outside.rules.model);
      if !HasTargets(selection) then Some(ruled)
      else
        var marked := ruled.(prepared := true);
        match outside.pick
        case PickFails => None
        case NoPick => Some(marked)
        case Picked(target) =>
          if target !in selection.value then None
          else Some(marked.(model := target.model, routedProvider := Some(target.provider)))
  }

  /** A selection adapter without targets picks one of the plain candidates; otherwise the strategy orders them. */
  function SelectCandidates(
    config: Config, selection: Selection, counters: Counters, ewma: map<string, real>, model: string,
    choice: Candidate): Option<seq<Candidate>>
    requires ValidCounters(config, counters)
  {
    if selection.None? || HasTargets(selection) then
      match Build(config, counters, ewma, model)
      case Built(candidates) => Some(candidates)
      case NoProvider(_) => None
    else
      var resolved := config.ResolveAlias(model);
      var plain := Label(config.ProvidersForModel(resolved), resolved);
      if choice in plain then Some([choice]) else None
  }

  /** An empty provider name counts as none. */
  predicate ProviderFixed(request: Request) {
    request.routedProvider.Some? && request.routedProvider.value != ""
  }

  /** Context management is refused when a candidate's adapter would have to drop it. */
  predicate Refuses(config: Config, request: Request, candidates: seq<Candidate>) {
    request.contextManagement && exists i | 0 <= i < |candidates| :: candidates[i].provider !in config.acceptsContext
  }

  function RouteResult(
    config: Config, selection: Selection, counters: Counters, ewma: map<string, real>, request: Request,
    outside: Outside): Routing
    requires ValidCounters(config, counters)
  {
    if request.routedCandidates.Some? then Routed(request, request.routedCandidates.value)
    else
      match Prepare(selection, request, outside)
      case None => NotRouted
      case Some(ready) =>
        var found := if ProviderFixed(ready) then Some([Candidate(ready.routedProvider.value, ready.model)])
          else SelectCandidates(config, selection, counters, ewma, ready.model, outside.choice);
        match found
        case None => NotRouted
        case Some(candidates) =>
          if Refuses(config, ready, candidates) then NotRouted
          else Routed(ready.(prepared := true, routedCandidates := Some(candidates)), candidates)
  }

  /** The raw model name whose candidates this routing builds, if it builds any. */
  function BuiltModel(selection: Selection, request: Request, outside: Outside): Option<string> {
    if request.routedCandidates.Some? then None
    else
      match Prepare(selection, request, outside)
      case None => None
      case Some(ready) =>
        if ProviderFixed(ready) || (selection.Some? && !HasTargets(selection)) then None else Some(ready.model)
  }

  function RouteCounters(
    config: Config, selection: Selection, counters: Counters, request: Request, outside: Outside): Counters
    requires ValidCounters(config, counters)
  {
    match BuiltModel(selection, request, outside)
    case None => counters
    case Some(raw) => BuildCounters(config, counters, raw)
  }

  // ----- what routing does with a request, case by case -----

  /** A request the rules reject, or an explicit target that cannot be had, is not routed and moves no counter. */
  lemma RefusedIsNotRouted(
    config: Config, selection: Selection, counters: Counters, ewma: map<string, real>, request: Request,
    outside: Outside)
    requires ValidCounters(config, counters) && request.routedCandidates == None && !request.prepared
    requires outside.rules == Reject
      || (selection.Some? && selection.value != {}
          && (outside.pick == PickFails || (outside.pick.Picked? && outside.pick.target !in selection.value)))
    ensures RouteResult(config, selection, counters, ewma, request, outside) == NotRouted
    ensures RouteCounters(config, selection, counters, request, outside) == counters
  {
  }

  /** A fresh request is routed under the name the rules give it, to the explicit target if one is picked. */
  lemma TargetIsTheCandidate(
    config: Config, selection: Selection, counters: Counters, ewma: map<string, real>, request: Request,
    outside: Outside)
    requires ValidCounters(config, counters) && request.routedCandidates == None && !request.prepared
    requires outside.rules.GoOn? && selection.Some? && outside.pick.Picked? && outside.pick.target in selection.value
    requires outside.pick.target.provider != ""
    ensures var r := RouteResult(config, selection, counters, ewma, request, outside);
      && (r.Routed? ==> r.candidates == [outside.pick.target] && r.request.model == outside.pick.target.model)
      && (r.Routed? <==>
            !request.contextManagement || outside.pick.target.provider in config.acceptsContext)
    ensures RouteCounters(config, selection, counters, request, outside) == counters
  {
    var only := [outside.pick.target];
    assert only[0] == outside.pick.target;
    assert Refuses(config, request, only)
      <==> request.contextManagement && outside.pick.target.provider !in config.acceptsContext;
  }

  lemma NoTargetPrepares(selection: Selection, request: Request, outside: Outside)
    requires !request.prepared && request.routedProvider == None
    requires outside.rules.GoOn? && (selection.Some? ==> selection.value != {} && outside.pick == NoPick)
    ensures var p := Prepare(selection, request, outside);
      p.Some? && p.value == request.(model := outside.rules.model, prepared := selection.Some?)
  {
  }

  /** Without a target, an adapter with targets and no adapter at all leave the order to the strategy. */
  lemma StrategyOrders(
    config: Config, selection: Selection, counters: Counters, ewma: map<string, real>, request: Request,
    outside: Outside)
    requires ValidCounters(config, counters) && request.routedCandidates == None && !request.prepared
    requires outside.rules.GoOn? && (selection.Some? ==> selection.value != {} && outside.pick == NoPick)
    requires request.routedProvider == None
    ensures var r := RouteResult(config, selection, counters, ewma, request, outside);
      match Build(config, counters, ewma, outside.rules.model)
      case NoProvider(_) => r.NotRouted?
      case Built(candidates) => if r.Routed? then r.candidates == candidates else request.contextManagement
  {
    NoTargetPrepares(selection, request, outside);
  }

  /** And the turn is taken for the name the rules gave the request. */
  lemma StrategyTakesTurn(
    config: Config, selection: Selection, counters: Counters, request: Request, outside: Outside)
    requires ValidCounters(config, counters) && request.routedCandidates == None && !request.prepared
    requires outside.rules.GoOn? && (selection.Some? ==> selection.value != {} && outside.pick == NoPick)
    requires request.routedProvider == None
    ensures RouteCounters(config, selection, counters, request, outside)
      == BuildCounters(config, counters, outside.rules.model)
  {
    NoTargetPrepares(selection, request, outside);
  }

  /** An adapter without targets picks one provider of the model resolved once, under that name. */
  lemma AdapterChooses(
    config: Config, selection: Selection, counters: Counters, ewma: map<string, real>, request: Request,
    outside: Outside)
    requires ValidCounters(config, counters) && request.routedCandidates == None && !request.prepared
    requires outside.rules.GoOn? && selection == Some({}) && request.routedProvider == None
    ensures var r := RouteResult(config, selection, counters, ewma, request, outside);
      var model := config.ResolveAlias(outside.rules.model);
      && (r.Routed? ==>
            && r.candidates == [outside.choice] && outside.choice.model == model
            && Serves(config.providers, outside.choice.provider, config.ResolveAlias(model)))
      && (r.NotRouted? && !request.contextManagement ==>
            outside.choice.model != model
            || !Serves(config.providers, outside.choice.provider, config.ResolveAlias(model)))
    ensures RouteCounters(config, selection, counters, request, outside) == counters
  {
    var model := config.ResolveAlias(outside.rules.model);
    var names := config.ProvidersForModel(model);
    ServingMembers(config.providers, config.ResolveAlias(model), outside.choice.provider);
    if outside.choice.provider in names {
      var i :| 0 <= i < |names| && names[i] == outside.choice.provider;
      assert Label(names, model)[i] == Candidate(outside.choice.provider, model);
    }
  }

  /** Rules and explicit targets are not consulted a second time: a prepared request keeps model and provider. */
  lemma PreparedIsKept(
    config: Config, selection: Selection, counters: Counters, ewma: map<string, real>, request: Request,
    outside: Outside, outside': Outside)
    requires ValidCounters(config, counters) && request.prepared && outside'.choice == outside.choice
    ensures RouteResult(config, selection, counters, ewma, request, outside)
      == RouteResult(config, selection, counters, ewma, request, outside')
    ensures var r := RouteResult(config, selection, counters, ewma, request, outside);
      r.Routed? && request.routedCandidates == None ==>
        && r.request == request.(routedCandidates := Some(r.candidates))
        && (request.routedProvider.Some? && request.routedProvider.value != "" ==>
              r.candidates == [Candidate(request.routedProvider.value, request.model)])
  {
  }

  /** A prepared request without a provider, or with an empty one, is ordered by the strategy. */
  lemma EmptyProviderIsNone(
    config: Config, selection: Selection, counters: Counters, ewma: map<string, real>, request: Request,
    outside: Outside)
    requires ValidCounters(config, counters) && request.prepared && request.routedCandidates == None
    requires request.routedProvider in {None, Some("")} && !request.contextManagement
    requires selection.Some? ==> selection.value != {}
    ensures var r := RouteResult(config, selection, counters, ewma, request, outside);
      match Build(config, counters, ewma, request.model)
      case NoProvider(_) => r.NotRouted?
      case Built(candidates) => r.Routed? && r.candidates == candidates
  {
  }

  /** Context management reaches only candidates whose adapter takes it. */
  lemma ContextIsHonoured(
    config: Config, selection: Selection, counters: Counters, ewma: map<string, real>, request: Request,
    outside: Outside, i: nat)
    requires ValidCounters(config, counters) && request.routedCandidates == None && request.contextManagement
    requires var r := RouteResult(config, selection, counters, ewma, request, outside);
      r.Routed? && i < |r.candidates|
    ensures RouteResult(config, selection, counters, ewma, request, outside).candidates[i].provider
      in config.acceptsContext
  {
    var ready := Prepare(selection, request, outside).value;
    var candidates := RouteResult(config, selection, counters, ewma, request, outside).candidates;
    assert !Refuses(config, ready, candidates);
  }

  /** And it is refused only for a candidate whose adapter does not: nothing else about it matters. */
  lemma ContextIsAllItChanges(
    config: Config, selection: Selection, counters: Counters, ewma: map<string, real>, request: Request,
    outside: Outside)
    requires ValidCounters(config, counters) && request.routedCandidates == None && request.contextManagement
    requires var plain := request.(contextManagement := false);
      RouteResult(config, selection, counters, ewma, plain, outside).Routed?
    ensures var r := RouteResult(
        config, selection, counters, ewma, request.(contextManagement := false), outside);
      var with_ := RouteResult(config, selection, counters, ewma, request, outside);
      && (with_.NotRouted? ==>
            exists i :: 0 <= i < |r.candidates| && r.candidates[i].provider !in config.acceptsContext)
      && (with_.Routed? ==> with_.candidates == r.candidates)
  {
    var plain := request.(contextManagement := false);
    var ready := Prepare(selection, plain, outside).value;
    assert Prepare(selection, request, outside) == Some(ready.(contextManagement := true));
    var candidates := RouteResult(config, selection, counters, ewma, plain, outside).candidates;
    if Refuses(config, ready.(contextManagement := true), candidates) {
      var i :| 0 <= i < |candidates| && candidates[i].provider !in config.acceptsContext;
    }
  }

  /** One step of the exponentially weighted moving average. */
  function Blend(alpha: real, elapsed: real, current: real): real {
    alpha * elapsed + (1.0 - alpha) * current
  }

  function RecordLatency(alpha: real, ewma: map<string, real>, provider: string, elapsed: real): map<string, real> {
    if provider !in ewma then ewma[provider := elapsed]
    else ewma[provider := Blend(alpha, elapsed, ewma[provider])]
  }

  ghost predicate ValidTargets(config: Config, selection: Selection) {
    selection.Some? ==> forall t :: t in selection.value ==> Serves(config.providers, t.provider, t.model)
  }

  /** `ModelRouter`: the configuration it was started with, and what it changes as requests come and go. */
  class ModelRouter {
    const config: Config
    const selection: Selection
    const native: map<string, Protocol>
    var counters: Counters
    var ewma: map<string, real>

    ghost predicate Valid()
      reads this
    {
      && DistinctNames(config.providers)
      && ValidatePassthrough(config) == Accepted(native)
      && ValidTargets(config, selection)
      && ValidCounters(config, counters)
    }

    constructor (config: Config, selection: Selection)
      requires DistinctNames(config.providers) && ValidTargets(config, selection)
      requires ValidatePassthrough(config).Accepted?
      ensures Valid() && this.config == config && this.selection == selection
      ensures counters == map[] && ewma == map[]
    {
      this.config := config;
      this.selection := selection;
      this.native := ValidatePassthrough(config).native;
      this.counters := map[];
      this.ewma := map[];
    }

    method RoundRobinCandidates(names: seq<string>, model: string) returns (candidates: seq<Candidate>)
      requires Valid() && names == config.ProvidersForModel(model) && names != []
      modifies this`counters
      ensures Valid()
      ensures candidates == Label(Rotate(names, CounterOf(old(counters), model)), model)
      ensures counters == old(counters)[model := NextTurn(CounterOf(old(counters), model), |names|)]
    {
      var turn := CounterOf(counters, model);
      counters := counters[model := (turn + 1) % |names|];
      NextTurnInRange(turn, |names|);
      candidates := Label(Rotate(names, turn), model);
    }

    method BuildCandidates(raw: string) returns (built: Built)
      requires Valid()
      modifies this`counters
      ensures Valid()
      ensures built == Build(config, old(counters), ewma, raw)
      ensures counters == BuildCounters(config, old(counters), raw)
    {
      var model := config.ResolveAlias(raw);
      var names := config.ProvidersForModel(model);
      if names == [] {
        return NoProvider(model);
      }
      match config.StrategyForModel(raw) {
        case Direct => built := Built([Candidate(names[0], model)]);
        case Failover => built := Built(Label(names, model));
        case CostOptimised => built := Built(Label(StableSort(names, CheaperFirst(config.providers)), model));
        case RoundRobin =>
          var candidates := RoundRobinCandidates(names, model);
          built := Built(candidates);
        case LatencyOptimised => built := Built(Label(StableSort(names, FasterFirst(ewma)), model));
      }
    }

    /** `route`: a request that was routed already keeps its candidates. */
    method Route(request: Request, outside: Outside) returns (routing: Routing)
      requires Valid()
      modifies this`counters
      ensures Valid()
      ensures routing == RouteResult(config, selection, old(counters), ewma, request, outside)
      ensures counters == RouteCounters(config, selection, old(counters), request, outside)
    {
      if request.routedCandidates.Some? {
        return Routed(request, request.routedCandidates.value);
      }
      var prepared := Prepare(selection, request, outside);
      if prepared.None? {
        return NotRouted;
      }
      var ready := prepared.value;
      var candidates: seq<Candidate>;
      if ProviderFixed(ready) {
        candidates := [Candidate(ready.routedProvider.value, ready.model)];
      } else if selection.None? || HasTargets(selection) {
        var built := BuildCandidates(ready.model);
        if built.NoProvider? {
          return NotRouted;
        }
        candidates := built.candidates;
      } else {
        var resolved := config.ResolveAlias(ready.model);
        var plain := Label(config.ProvidersForModel(resolved), resolved);
        if outside.choice !in plain {
          return NotRouted;
        }
        candidates := [outside.choice];
      }
      if Refuses(config, ready, candidates) {
        return NotRouted;
      }
      return Routed(ready.(prepared := true, routedCandidates := Some(candidates)), candidates);
    }

    method NoteLatency(provider: string, elapsed: real)
      requires Valid()
      modifies this`ewma
      ensures Valid()
      ensures ewma == RecordLatency(config.alpha, old(ewma), provider, elapsed)
    {
      if provider !in ewma {
        ewma := ewma[provider := elapsed];
        return;
      }
      ewma := ewma[provider := Blend(config.alpha, elapsed, ewma[provider])];
    }
  }

  /** Starting the router: it raises for an explicit target that is not configured, and for a refused configuration. */
  method StartRouter(config: Config, selection: Selection) returns (router: ModelRouter?)
    requires DistinctNames(config.providers)
    ensures router != null <==> ValidTargets(config, selection) && ValidatePassthrough(config).Accepted?
    ensures router != null ==>
      fresh(router) && router.Valid() && router.config == config && router.selection == selection
  {
    if selection.Some? {
      var todo := selection.value;
      while todo != {}
        invariant todo <= selection.value
        invariant forall t :: t in selection.value - todo ==> Serves(config.providers, t.provider, t.model)
        decreases todo
      {
        var target :| target in todo;
        ServingMembers(config.providers, target.model, target.provider);
        if target.provider !in Serving(config.providers, target.model) {
          return null;
        }
        todo := todo - {target};
      }
    }
    if ValidatePassthrough(config).Refused? {
      return null;
    }
    router := new ModelRouter(config, selection);
  }
}
