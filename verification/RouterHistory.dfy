/** What holds over whole histories of routings and latency observations. */
module RouterHistory {
  import opened Sequences
  import opened Sorting
  import opened RouterConfig
  import opened Router

  // ----- every routed request, through any number of hands -----

  /** Resolving the name is done after one step. */
  predicate OneStep(config: Config, model: string) {
    config.ResolveAlias(config.ResolveAlias(model)) == config.ResolveAlias(model)
  }

  /** Candidates that can be tried in turn: each provider lists its model, and all answer in one protocol. */
  ghost predicate GoodCandidates(config: Config, native: map<string, Protocol>, candidates: seq<Candidate>) {
    && candidates != []
    && (forall c :: c in candidates ==> Serves(config.providers, c.provider, c.model))
    && SamePath(native, Providers(candidates))
  }

  /** A request as the router itself leaves it behind: fresh, prepared, or routed. */
  ghost predicate GoodRequest(config: Config, native: map<string, Protocol>, request: Request) {
    && (!request.prepared ==> request.routedProvider.None? && request.routedCandidates.None?)
    && (ProviderFixed(request) ==> Serves(config.providers, request.routedProvider.value, request.model))
    && (request.routedCandidates.Some? ==> GoodCandidates(config, native, request.routedCandidates.value))
    && (ProviderFixed(request) || OneStep(config, request.model))
  }

  /** The names an outcome can put into a request resolve in one step. */
  predicate OneStepOutside(config: Config, outside: Outside) {
    && (outside.rules.GoOn? ==> OneStep(config, outside.rules.model))
    && (outside.pick.Picked? && outside.pick.target.provider == "" ==> OneStep(config, outside.pick.target.model))
  }

  /** A request as it comes in. */
  function Fresh(model: string, contextManagement: bool): Request {
    Request(model, contextManagement, false, None, None)
  }

  lemma FreshRequestIsGood(config: Config, native: map<string, Protocol>, model: string, contextManagement: bool)
    requires OneStep(config, model)
    ensures GoodRequest(config, native, Fresh(model, contextManagement))
  {
  }

  lemma PreparedIsGood(
    config: Config, native: map<string, Protocol>, selection: Selection, request: Request, outside: Outside)
    requires ValidTargets(config, selection) && GoodRequest(config, native, request) && OneStepOutside(config, outside)
    ensures var p := Prepare(selection, request, outside); p.Some? ==> GoodRequest(config, native, p.value)
  {
  }

  lemma SingleCandidateIsGood(config: Config, native: map<string, Protocol>, c: Candidate)
    requires Serves(config.providers, c.provider, c.model)
    ensures GoodCandidates(config, native, [c])
  {
  }

  lemma BuiltIsGood(config: Config, counters: Counters, ewma: map<string, real>, raw: string)
    requires DistinctNames(config.providers) && ValidCounters(config, counters) && OneStep(config, raw)
    requires ValidatePassthrough(config).Accepted? && Build(config, counters, ewma, raw).Built?
    ensures GoodCandidates(config, ValidatePassthrough(config).native, Build(config, counters, ewma, raw).candidates)
  {
    var candidates := Build(config, counters, ewma, raw).candidates;
    forall c | c in candidates ensures Serves(config.providers, c.provider, c.model) {
      BuildMembers(config, counters, ewma, raw, c);
    }
    CandidatesSharePath(config, counters, ewma, raw);
    var names := config.ProvidersForModel(config.ResolveAlias(raw));
    ServingDistinct(config.providers, config.ResolveAlias(config.ResolveAlias(raw)));
    var turn := CounterOf(counters, config.ResolveAlias(raw));
    OrderIsPermutation(config, config.StrategyForModel(raw), ewma, names, turn);
  }

  lemma ChosenIsGood(config: Config, native: map<string, Protocol>, model: string, choice: Candidate)
    requires OneStep(config, model)
    requires choice in Label(config.ProvidersForModel(config.ResolveAlias(model)), config.ResolveAlias(model))
    ensures GoodCandidates(config, native, [choice])
  {
    var resolved := config.ResolveAlias(model);
    assert choice.provider in config.ProvidersForModel(resolved) && choice.model == resolved;
    ServingMembers(config.providers, config.ResolveAlias(resolved), choice.provider);
    SingleCandidateIsGood(config, native, choice);
  }

  /**
   When the names it meets resolve in one step, every request the router returns, under any strategy,
   rule outcome or selection and however often it is passed back in, has candidates that each serve
   their model and all speak the first one's protocol.
   */
  lemma RoutedRequestsAreGood(
    config: Config, selection: Selection, counters: Counters, ewma: map<string, real>, request: Request,
    outside: Outside)
    requires DistinctNames(config.providers) && ValidCounters(config, counters) && OneStepOutside(config, outside)
    requires ValidatePassthrough(config).Accepted? && ValidTargets(config, selection)
    requires GoodRequest(config, ValidatePassthrough(config).native, request)
    ensures var r := RouteResult(config, selection, counters, ewma, request, outside);
      var native := ValidatePassthrough(config).native;
      r.Routed? ==> GoodCandidates(config, native, r.candidates) && GoodRequest(config, native, r.request)
  {
    var native := ValidatePassthrough(config).native;
    if request.routedCandidates.None? {
      PreparedIsGood(config, native, selection, request, outside);
      var p := Prepare(selection, request, outside);
      if p.Some? {
        var ready := p.value;
        if ProviderFixed(ready) {
          SingleCandidateIsGood(config, native, Candidate(ready.routedProvider.value, ready.model));
        } else if selection.None? || HasTargets(selection) {
          if Build(config, counters, ewma, ready.model).Built? {
            BuiltIsGood(config, counters, ewma, ready.model);
          }
        } else if outside.choice in
          Label(config.ProvidersForModel(config.ResolveAlias(ready.model)), config.ResolveAlias(ready.model)) {
          ChosenIsGood(config, native, ready.model, outside.choice);
        }
      }
    }
  }

  /** One thing done to a request: preparing it, or routing it with the counters and latencies of that time. */
  datatype Step = Prepares(outside: Outside) | Routes(routing: Outside, counters: Counters, ewma: map<string, real>)

  /** The request the caller holds afterwards; a step that raises leaves it as it was. */
  function AfterStep(config: Config, selection: Selection, request: Request, step: Step): Request
    requires step.Routes? ==> ValidCounters(config, step.counters)
  {
    match step
    case Prepares(outside) =>
      var p := Prepare(selection, request, outside);
      if p.Some? then p.value else request
    case Routes(outside, counters, ewma) =>
      var r := RouteResult(config, selection, counters, ewma, request, outside);
      if r.Routed? then r.request else request
  }

  ghost predicate ValidSteps(config: Config, steps: seq<Step>) {
    forall i :: 0 <= i < |steps| && steps[i].Routes? ==> ValidCounters(config, steps[i].counters)
  }

  predicate OneStepStep(config: Config, step: Step) {
    OneStepOutside(config, if step.Prepares? then step.outside else step.routing)
  }

  function AfterSteps(config: Config, selection: Selection, request: Request, steps: seq<Step>): Request
    requires ValidSteps(config, steps)
    decreases |steps|
  {
    if steps == [] then request
    else
      var n := |steps| - 1;
      AfterStep(config, selection, AfterSteps(config, selection, request, steps[..n]), steps[n])
  }

  /**
   From a fresh request on, through any number of hands that prepare and route it under names that
   resolve in one step: whenever it is routed, its candidates each serve their model and speak one protocol.
   */
  lemma {:induction false} RequestsStayGood(
    config: Config, selection: Selection, model: string, contextManagement: bool, steps: seq<Step>)
    requires DistinctNames(config.providers) && ValidSteps(config, steps)
    requires OneStep(config, model) && forall i :: 0 <= i < |steps| ==> OneStepStep(config, steps[i])
    requires ValidatePassthrough(config).Accepted? && ValidTargets(config, selection)
    ensures GoodRequest(
      config, ValidatePassthrough(config).native,
      AfterSteps(config, selection, Fresh(model, contextManagement), steps))
    decreases |steps|
  {
    var native := ValidatePassthrough(config).native;
    if steps == [] {
      FreshRequestIsGood(config, native, model, contextManagement);
    } else {
      var n := |steps| - 1;
      assert forall i :: 0 <= i < n ==> steps[..n][i] == steps[i];
      assert OneStepStep(config, steps[n]);
      RequestsStayGood(config, selection, model, contextManagement, steps[..n]);
      var request := AfterSteps(config, selection, Fresh(model, contextManagement), steps[..n]);
      match steps[n]
      case Prepares(outside) => PreparedIsGood(config, native, selection, request, outside);
      case Routes(outside, counters, ewma) =>
        RoutedRequestsAreGood(config, selection, counters, ewma, request, outside);
    }
  }

  /** Once a request is routed, its candidates stay the same through everything that is done to it later. */
  lemma {:induction false} RoutedOnce(
    config: Config, selection: Selection, request: Request, steps: seq<Step>, n: nat)
    requires ValidSteps(config, steps) && n < |steps| && steps[n].Routes?
    requires var s := steps[n];
      RouteResult(
        config, selection, s.counters, s.ewma, AfterSteps(config, selection, request, steps[..n]), s.routing).Routed?
    ensures var s := steps[n];
      var r := RouteResult(
        config, selection, s.counters, s.ewma, AfterSteps(config, selection, request, steps[..n]), s.routing);
      AfterSteps(config, selection, request, steps).routedCandidates == Some(r.candidates)
    decreases |steps|
  {
    var last := |steps| - 1;
    if n < last {
      assert steps[..last][..n] == steps[..n] && steps[..last][n] == steps[n];
      RoutedOnce(config, selection, request, steps[..last], n);
    }
  }

  /** A fresh request that the rules leave with this model, routed without a selection adapter, gets good candidates. */
  ghost predicate RoutesWell(config: Config, model: string)
    requires ValidatePassthrough(config).Accepted?
  {
    forall request, counters, ewma, outside: Outside |
      ValidCounters(config, counters) && outside.rules == GoOn(model) ::
      var r := RouteResult(config, None, counters, ewma, Fresh(request, false), outside);
      r.Routed? ==> GoodCandidates(config, ValidatePassthrough(config).native, r.candidates)
  }

  /** Exactly the names that resolve in one step are safe: through a chain, some accepted provider list routes badly. */
  lemma RoutingIsGoodIff(config: Config, model: string)
    ensures (forall ps | DistinctNames(ps) && ValidatePassthrough(WithProviders(config, ps)).Accepted? ::
        RoutesWell(WithProviders(config, ps), model))
      <==> OneStep(config, model)
  {
    if OneStep(config, model) {
      forall ps | DistinctNames(ps) && ValidatePassthrough(WithProviders(config, ps)).Accepted?
        ensures RoutesWell(WithProviders(config, ps), model)
      {
        OneStepRoutesWell(WithProviders(config, ps), model);
      }
    } else {
      ChainRoutesBadly(config, model);
    }
  }

  lemma OneStepRoutesWell(config: Config, model: string)
    requires OneStep(config, model) && DistinctNames(config.providers) && ValidatePassthrough(config).Accepted?
    ensures RoutesWell(config, model)
  {
    forall request, counters, ewma, outside: Outside | ValidCounters(config, counters) && outside.rules == GoOn(model)
      ensures var r := RouteResult(config, None, counters, ewma, Fresh(request, false), outside);
        r.Routed? ==> GoodCandidates(config, ValidatePassthrough(config).native, r.candidates)
    {
      if Build(config, counters, ewma, model).Built? {
        BuiltIsGood(config, counters, ewma, model);
      }
    }
  }

  lemma ChainRoutesBadly(config: Config, raw: string)
    requires !OneStep(config, raw)
    ensures var ps := [Single("p", config.ResolveAlias(config.ResolveAlias(raw)), None)];
      DistinctNames(ps) && ValidatePassthrough(WithProviders(config, ps)).Accepted?
      && !RoutesWell(WithProviders(config, ps), raw)
  {
    var once := config.ResolveAlias(raw);
    var ps := [Single("p", config.ResolveAlias(once), None)];
    var cfg := WithProviders(config, ps);
    assert ps[1..] == [];
    assert NativeProtocols(ps) == map[];
    assert Serving(ps, config.ResolveAlias(once)) == ["p"];
    assert cfg.ResolveAlias(once) == config.ResolveAlias(once) && cfg.ProvidersForModel(once) == ["p"];
    LoneCandidate(cfg, raw);
    var outside := Outside(GoOn(raw), NoPick, Candidate("", ""));
    var r := RouteResult(cfg, None, map[], map[], Fresh("", false), outside);
    assert r.Routed? && r.candidates == [Candidate("p", once)];
    assert Candidate("p", once) in r.candidates && !Serves(ps, "p", once);
    assert ValidCounters(cfg, map[]);
  }

  lemma LoneCandidate(config: Config, raw: string)
    requires config.ProvidersForModel(config.ResolveAlias(raw)) == ["p"]
    ensures Build(config, map[], map[], raw) == Built([Candidate("p", config.ResolveAlias(raw))])
  {
    var order := OrderNames(config, config.StrategyForModel(raw), map[], ["p"], 0);
    OrderIsPermutation(config, config.StrategyForModel(raw), map[], ["p"], 0);
    assert |order| == 1 by {
      if !config.StrategyForModel(raw).Direct? { assert |multiset(order)| == |multiset(["p"])|; }
    }
    SameElements(order, ["p"], order[0]);
  }

  /** Routing a routed request again returns the same candidates and moves no counter. */
  lemma RerouteIsIdentity(
    config: Config, selection: Selection, counters: Counters, ewma: map<string, real>, request: Request,
    outside: Outside, later: Counters, ewma': map<string, real>, outside': Outside)
    requires ValidCounters(config, counters) && ValidCounters(config, later)
    requires RouteResult(config, selection, counters, ewma, request, outside).Routed?
    ensures var r := RouteResult(config, selection, counters, ewma, request, outside);
      && RouteResult(config, selection, later, ewma', r.request, outside') == r
      && RouteCounters(config, selection, later, r.request, outside') == later
  {
    var r := RouteResult(config, selection, counters, ewma, request, outside);
    assert r.request.routedCandidates == Some(r.candidates);
  }

  // ----- round robin over a whole run -----

  /** One call of `route`, with everything it consults and the latencies known at that time. */
  datatype Call = Call(request: Request, outside: Outside, ewma: map<string, real>)

  /** This call builds round-robin candidates of `model`. */
  predicate Turns(config: Config, selection: Selection, call: Call, model: string) {
    match BuiltModel(selection, call.request, call.outside)
    case None => false
    case Some(raw) => config.ResolveAlias(raw) == model && config.StrategyForModel(raw).RoundRobin?
  }

  /**
   The provider at the head of the round-robin candidates this call builds for `model`. A call refused for
   context management has built them, and taken its turn, all the same.
   */
  function LeadOf(config: Config, selection: Selection, counters: Counters, call: Call, model: string): seq<string>
    requires ValidCounters(config, counters)
  {
    if !Turns(config, selection, call, model) then []
    else
      match Build(config, counters, call.ewma, BuiltModel(selection, call.request, call.outside).value)
      case Built(candidates) => if candidates == [] then [] else [candidates[0].provider]
      case NoProvider(_) => []
  }

  /** The providers that lead the round-robin candidates of `model`, call after call. */
  function Leaders(
    config: Config, selection: Selection, counters: Counters, calls: seq<Call>, model: string): seq<string>
    requires ValidCounters(config, counters)
    decreases |calls|
  {
    if calls == [] then []
    else
      var call := calls[0];
      RouteCountersValid(config, selection, counters, call);
      LeadOf(config, selection, counters, call, model)
      + Leaders(
        config, selection, RouteCounters(config, selection, counters, call.request, call.outside), calls[1..], model)
  }

  lemma RouteCountersValid(config: Config, selection: Selection, counters: Counters, call: Call)
    requires ValidCounters(config, counters)
    ensures ValidCounters(config, RouteCounters(config, selection, counters, call.request, call.outside))
  {
  }

  /** A routed call of `model` is led by the provider its counter points at; only its turns move that counter. */
  lemma OneTurn(config: Config, selection: Selection, counters: Counters, call: Call, model: string)
    requires ValidCounters(config, counters) && config.ProvidersForModel(model) != []
    ensures var names := config.ProvidersForModel(model);
      var c := CounterOf(counters, model);
      var c' := CounterOf(RouteCounters(config, selection, counters, call.request, call.outside), model);
      var r := RouteResult(config, selection, counters, call.ewma, call.request, call.outside);
      if Turns(config, selection, call, model) then
        && LeadOf(config, selection, counters, call, model) == [names[c]] && c' == NextTurn(c, |names|)
        && (r.Routed? ==> r.candidates != [] && r.candidates[0].provider == names[c])
      else LeadOf(config, selection, counters, call, model) == [] && c' == c
  {
    if Turns(config, selection, call, model) {
      var raw := BuiltModel(selection, call.request, call.outside).value;
      var names := config.ProvidersForModel(model);
      var c := CounterOf(counters, model);
      var built := Build(config, counters, call.ewma, raw);
      assert built == Built(Label(Rotate(names, c), model));
      assert Rotate(names, c)[0] == names[c];
    }
  }

  /** Where the turn stands after `i` more turns around a list of `n`. */
  function TurnAfter(turn: nat, i: nat, n: nat): (r: nat)
    requires turn < n
    ensures r < n
  {
    if i == 0 then turn else NextTurn(TurnAfter(turn, i - 1, n), n)
  }

  lemma {:induction false} TurnAfterNext(turn: nat, i: nat, n: nat)
    requires turn < n
    ensures TurnAfter(NextTurn(turn, n), i, n) == TurnAfter(turn, i + 1, n)
  {
    if i > 0 {
      TurnAfterNext(turn, i - 1, n);
    }
  }

  lemma {:induction false} TurnsInWindow(turn: nat, start: nat, d: nat, n: nat)
    requires turn < n && d < n
    ensures var t := TurnAfter(turn, start, n);
      TurnAfter(turn, start + d, n) == if t + d < n then t + d else t + d - n
  {
    if d > 0 {
      TurnsInWindow(turn, start, d - 1, n);
    }
  }

  lemma LeadersStep(config: Config, selection: Selection, counters: Counters, calls: seq<Call>, model: string)
    requires ValidCounters(config, counters) && config.ProvidersForModel(model) != [] && calls != []
    ensures var names := config.ProvidersForModel(model);
      var c := CounterOf(counters, model);
      var next := RouteCounters(config, selection, counters, calls[0].request, calls[0].outside);
      var turned := Turns(config, selection, calls[0], model);
      && ValidCounters(config, next)
      && CounterOf(next, model) == (if turned then NextTurn(c, |names|) else c)
      && Leaders(config, selection, counters, calls, model)
         == (if turned then [names[c]] else []) + Leaders(config, selection, next, calls[1..], model)
  {
    OneTurn(config, selection, counters, calls[0], model);
    RouteCountersValid(config, selection, counters, calls[0]);
  }

  /** The i-th leader stands i places after the counter, around the list. */
  ghost predicate GoesRound<T>(leaders: seq<T>, names: seq<T>, turn: nat)
    requires turn < |names|
  {
    forall i :: 0 <= i < |leaders| ==> leaders[i] == names[TurnAfter(turn, i, |names|)]
  }

  lemma GoesRoundStep<T>(leaders: seq<T>, names: seq<T>, turn: nat)
    requires turn < |names| && GoesRound(leaders, names, NextTurn(turn, |names|))
    ensures GoesRound([names[turn]] + leaders, names, turn)
  {
    var all := [names[turn]] + leaders;
    forall i | 0 <= i < |all| ensures all[i] == names[TurnAfter(turn, i, |names|)] {
      if i > 0 {
        assert all[i] == leaders[i - 1];
        TurnAfterNext(turn, i - 1, |names|);
      }
    }
  }

  lemma {:induction false} LeadersGoRound(
    config: Config, selection: Selection, counters: Counters, calls: seq<Call>, model: string)
    requires ValidCounters(config, counters) && config.ProvidersForModel(model) != []
    ensures GoesRound(
      Leaders(config, selection, counters, calls, model), config.ProvidersForModel(model), CounterOf(counters, model))
    decreases |calls|
  {
    if calls != [] {
      LeadersStep(config, selection, counters, calls, model);
      var next := RouteCounters(config, selection, counters, calls[0].request, calls[0].outside);
      LeadersGoRound(config, selection, next, calls[1..], model);
      if Turns(config, selection, calls[0], model) {
        var rest := Leaders(config, selection, next, calls[1..], model);
        GoesRoundStep(rest, config.ProvidersForModel(model), CounterOf(counters, model));
      }
    }
  }

  /** `name` stands at exactly one of the `n` positions from `start` on. */
  ghost predicate OnceInWindow<T>(leaders: seq<T>, start: nat, n: nat, name: T)
    requires start + n <= |leaders|
  {
    exists k :: start <= k < start + n && leaders[k] == name
      && forall j :: start <= j < start + n && leaders[j] == name ==> j == k
  }

  lemma LeaderInWindow<T>(leaders: seq<T>, names: seq<T>, turn: nat, start: nat, d: nat)
    requires turn < |names| && d < |names| && GoesRound(leaders, names, turn) && start + d < |leaders|
    ensures var t := TurnAfter(turn, start, |names|);
      leaders[start + d] == names[if t + d < |names| then t + d else t + d - |names|]
  {
    TurnsInWindow(turn, start, d, |names|);
  }

  lemma RoundMeetsEachOnce<T>(leaders: seq<T>, names: seq<T>, turn: nat, start: nat, t: nat)
    requires turn < |names| && t < |names| && NoDuplicates(names) && GoesRound(leaders, names, turn)
    requires start + |names| <= |leaders|
    ensures OnceInWindow(leaders, start, |names|, names[t])
  {
    var n := |names|;
    var first := TurnAfter(turn, start, n);
    var d := if t >= first then t - first else t - first + n;
    LeaderInWindow(leaders, names, turn, start, d);
    forall j | start <= j < start + n && leaders[j] == names[t] ensures j == start + d {
      LeaderInWindow(leaders, names, turn, start, j - start);
      SamePlace(names, if first + (j - start) < n then first + (j - start) else first + (j - start) - n, t);
    }
  }

  /**
   Fairness: in any |providers| consecutive round-robin routings of a model, whatever happens in
   between, each of its providers leads exactly once.
   */
  lemma EachProviderLeadsOnce(
    config: Config, selection: Selection, counters: Counters, calls: seq<Call>, model: string, start: nat,
    provider: string)
    requires DistinctNames(config.providers) && ValidCounters(config, counters)
    requires provider in config.ProvidersForModel(model)
    requires start + |config.ProvidersForModel(model)| <= |Leaders(config, selection, counters, calls, model)|
    ensures OnceInWindow(
      Leaders(config, selection, counters, calls, model), start, |config.ProvidersForModel(model)|, provider)
  {
    var names := config.ProvidersForModel(model);
    var t :| 0 <= t < |names| && names[t] == provider;
    ServingDistinct(config.providers, config.ResolveAlias(model));
    LeadersGoRound(config, selection, counters, calls, model);
    RoundMeetsEachOnce(Leaders(config, selection, counters, calls, model), names, CounterOf(counters, model), start, t);
  }

  // ----- latency estimates over a whole history -----

  datatype Observation = Observation(provider: string, elapsed: real)

  /** The estimates after a history of observations, oldest first. */
  function Estimates(alpha: real, history: seq<Observation>): map<string, real> {
    if history == [] then map[]
    else
      var last := history[|history| - 1];
      RecordLatency(alpha, Estimates(alpha, history[..|history| - 1]), last.provider, last.elapsed)
  }

  ghost predicate Observed(history: seq<Observation>, provider: string) {
    exists i :: 0 <= i < |history| && history[i].provider == provider
  }

  ghost predicate Within(history: seq<Observation>, provider: string, low: real, high: real) {
    forall i :: 0 <= i < |history| && history[i].provider == provider ==> low <= history[i].elapsed <= high
  }

  lemma Product(x: real, y: real)
    requires x >= 0.0 && y >= 0.0
    ensures x * y >= 0.0
  {
  }

  lemma BlendBetween(alpha: real, a: real, b: real, low: real, high: real)
    requires 0.0 < alpha <= 1.0 && low <= a <= high && low <= b <= high
    ensures low <= Blend(alpha, a, b) <= high
  {
    var beta := 1.0 - alpha;
    Product(alpha, a - low);
    Product(beta, b - low);
    Product(alpha, high - a);
    Product(beta, high - b);
    assert alpha * low + beta * low == low;
    assert alpha * high + beta * high == high;
    assert Blend(alpha, a, b) - low == alpha * (a - low) + beta * (b - low);
    assert high - Blend(alpha, a, b) == alpha * (high - a) + beta * (high - b);
  }

  /** An estimate exists exactly for observed providers, and lies in every range its observations lie in. */
  lemma {:induction false} EstimateWithinObservations(
    alpha: real, history: seq<Observation>, provider: string, low: real, high: real)
    requires 0.0 < alpha <= 1.0 && Within(history, provider, low, high)
    ensures provider in Estimates(alpha, history) <==> Observed(history, provider)
    ensures provider in Estimates(alpha, history) ==> low <= Estimates(alpha, history)[provider] <= high
    decreases |history|
  {
    if history != [] {
      var n := |history| - 1;
      var front, last := history[..n], history[n];
      EstimateWithinObservations(alpha, front, provider, low, high);
      assert Observed(history, provider) <==> Observed(front, provider) || last.provider == provider by {
        if Observed(front, provider) {
          var i :| 0 <= i < |front| && front[i].provider == provider;
          assert history[i].provider == provider;
        }
        if Observed(history, provider) && last.provider != provider {
          var i :| 0 <= i < |history| && history[i].provider == provider;
          assert front[i].provider == provider;
        }
      }
      if last.provider == provider && provider in Estimates(alpha, front) {
        BlendBetween(alpha, last.elapsed, Estimates(alpha, front)[provider], low, high);
      }
    }
  }

  function Power(x: real, k: nat): real { if k == 0 then 1.0 else Power(x, k - 1) * x }

  /** The same observation `k` times over. */
  function Repeated(o: Observation, k: nat): seq<Observation> { seq(k, _ => o) }

  /** An estimate blended `k` times with the same value. */
  function Steady(alpha: real, v: real, e: real, k: nat): real {
    if k == 0 then e else Blend(alpha, v, Steady(alpha, v, e, k - 1))
  }

  lemma {:induction false} SteadyDistance(alpha: real, v: real, e: real, k: nat)
    ensures Steady(alpha, v, e, k) - v == Power(1.0 - alpha, k) * (e - v)
  {
    if k == 0 {
      assert 1.0 * (e - v) == e - v;
    } else {
      SteadyDistance(alpha, v, e, k - 1);
      DistanceStep(alpha, v, Steady(alpha, v, e, k - 1), Power(1.0 - alpha, k - 1), e - v);
      assert Steady(alpha, v, e, k) == Blend(alpha, v, Steady(alpha, v, e, k - 1));
    }
  }

  lemma DistanceStep(alpha: real, v: real, x: real, p: real, d: real)
    requires x - v == p * d
    ensures Blend(alpha, v, x) - v == (p * (1.0 - alpha)) * d
  {
    BlendTowards(alpha, v, x);
    Reassociate(1.0 - alpha, p, d, x - v);
  }

  lemma {:induction false} SteadyEstimate(alpha: real, history: seq<Observation>, o: Observation, k: nat, other: string)
    requires o.provider in Estimates(alpha, history) && other != o.provider
    ensures var before, after := Estimates(alpha, history), Estimates(alpha, history + Repeated(o, k));
      && o.provider in after && after[o.provider] == Steady(alpha, o.elapsed, before[o.provider], k)
      && (other in after <==> other in before) && (other in after ==> after[other] == before[other])
    decreases k
  {
    if k == 0 {
      assert history + Repeated(o, 0) == history;
    } else {
      SteadyEstimate(alpha, history, o, k - 1, other);
      var earlier := history + Repeated(o, k - 1);
      assert history + Repeated(o, k) == earlier + [o];
      OneMoreObservation(alpha, earlier, o);
    }
  }

  /**
   The weights: from any estimate on, `k` observations of one value bring the estimate to that value up to
   (1 - alpha)^k of the distance it had, and leave every other provider's estimate alone.
   */
  lemma SteadyObservations(
    alpha: real, history: seq<Observation>, provider: string, v: real, k: nat, other: string)
    requires provider in Estimates(alpha, history) && other != provider
    ensures var before, after :=
        Estimates(alpha, history), Estimates(alpha, history + Repeated(Observation(provider, v), k));
      && provider in after && after[provider] - v == Power(1.0 - alpha, k) * (before[provider] - v)
      && (other in after <==> other in before) && (other in after ==> after[other] == before[other])
  {
    SteadyEstimate(alpha, history, Observation(provider, v), k, other);
    SteadyDistance(alpha, v, Estimates(alpha, history)[provider], k);
  }

  lemma OneMoreObservation(alpha: real, history: seq<Observation>, o: Observation)
    ensures Estimates(alpha, history + [o]) == RecordLatency(alpha, Estimates(alpha, history), o.provider, o.elapsed)
  {
    assert (history + [o])[..|history|] == history;
  }

  lemma Reassociate(x: real, y: real, z: real, product: real)
    requires product == y * z
    ensures x * product == (y * x) * z
  {
  }

  lemma BlendTowards(alpha: real, v: real, e: real)
    ensures Blend(alpha, v, e) - v == (1.0 - alpha) * (e - v)
  {
  }

  /** A provider's first observation is its estimate. */
  lemma FirstObservation(alpha: real, history: seq<Observation>, o: Observation)
    requires o.provider !in Estimates(alpha, history)
    ensures var after := Estimates(alpha, history + [o]);
      o.provider in after && after[o.provider] == o.elapsed
  {
    OneMoreObservation(alpha, history, o);
  }

  lemma SlowEstimateAbove(alpha: real, history: seq<Observation>, slow: string, limit: real, high: real)
    requires 0.0 < alpha <= 1.0
    requires forall i :: 0 <= i < |history| && history[i].provider == slow ==> limit < history[i].elapsed <= high
    ensures slow in Estimates(alpha, history) ==> limit < Estimates(alpha, history)[slow]
  {
    var least := SmallestOf(history, slow, limit, high);
    EstimateWithinObservations(alpha, history, slow, least, high);
  }

  lemma EstimatesApart(
    alpha: real, history: seq<Observation>, fast: string, slow: string, limit: real, low: real, high: real)
    requires 0.0 < alpha <= 1.0 && Observed(history, fast) && Within(history, fast, low, limit)
    requires forall i :: 0 <= i < |history| && history[i].provider == slow ==> limit < history[i].elapsed <= high
    ensures var ewma := Estimates(alpha, history);
      fast in ewma && (slow in ewma ==> ewma[fast] < ewma[slow])
  {
    EstimateWithinObservations(alpha, history, fast, low, limit);
    SlowEstimateAbove(alpha, history, slow, limit, high);
  }

  /** A provider always observed faster than another is tried before it. */
  lemma AlwaysFasterLeads(
    config: Config, history: seq<Observation>, names: seq<string>, turn: nat, fast: string, slow: string, limit: real,
    low: real, high: real)
    requires 0.0 < config.alpha <= 1.0 && turn < |names| && fast in names && slow in names
    requires Observed(history, fast) && Within(history, fast, low, limit)
    requires forall i :: 0 <= i < |history| && history[i].provider == slow ==> limit < history[i].elapsed <= high
    ensures Before(OrderNames(config, LatencyOptimised, Estimates(config.alpha, history), names, turn), fast, slow)
  {
    var ewma := Estimates(config.alpha, history);
    EstimatesApart(config.alpha, history, fast, slow, limit, low, high);
    LatencyOrder(ewma);
    StableSortPrecedes(names, FasterFirst(ewma), fast, slow);
  }

  /** A bound strictly above `limit` for finitely many observations above it. */
  lemma {:induction false} SmallestOf(history: seq<Observation>, provider: string, limit: real, high: real)
    returns (least: real)
    requires forall i :: 0 <= i < |history| && history[i].provider == provider ==> limit < history[i].elapsed <= high
    ensures limit < least && Within(history, provider, least, high)
    decreases |history|
  {
    if history == [] {
      least := limit + 1.0;
    } else {
      var n := |history| - 1;
      var front := history[..n];
      least := SmallestOf(front, provider, limit, high);
      if history[n].provider == provider && history[n].elapsed < least {
        least := history[n].elapsed;
      }
      forall i | 0 <= i < |history| && history[i].provider == provider ensures least <= history[i].elapsed <= high {
        if i < n { assert front[i] == history[i]; }
      }
    }
  }
}
