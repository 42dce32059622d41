/** The route selection engine (internal/matcher/matcher.go). */
module Matcher {
  import opened Wrappers
  import opened Text
  import Ordering

  datatype BillingClass = NoBilling | FreeBilling | SubscriptionBilling | MeteredBilling | OtherBilling(name: string)

  datatype HealthState = Healthy | InBackoff | HealthDisabled

  /** Pico-USD per token; `staleAt` is None for the zero time. */
  datatype Price = Price(
    input: int64, output: int64, cachedRead: int64, cacheWrite: int64, reasoning: int64, fixed_: int64,
    observedAt: int, staleAt: Option<int>)

  /** `parameters` holds the keys mapped to true; modality maps keep explicit false entries. */
  datatype Capabilities = Capabilities(
    protocols: set<string>, parameters: set<string>, structuredOutput: bool,
    maxContext: int64, maxOutput: int64,
    inputModalities: map<string, bool>, outputModalities: map<string, bool>)

  datatype Route = Route(
    id: string, provider: string, logicalModel: string, free: bool,
    price: Price, priceAvailable: bool, officialPrice: Price, officialPriceAvailable: bool,
    capabilities: Capabilities, health: HealthState, trusted: bool,
    successRateBPS: int64, latencyMillisP50: int64, executionKey: string, billing: BillingClass)

  datatype MatchRequest = MatchRequest(
    protocol: string, logicalModel: string, logicalModels: seq<string>,
    requiredParameters: seq<string>, requireStructured: bool,
    inputTokens: int64, expectedOutput: int64, maxContext: int64, maxOutput: int64,
    allowStale: bool, allowUntrusted: bool,
    allowedProviders: seq<string>, excludedProviders: seq<string>,
    maximumCost: Option<int64>, maximumInput: Option<int64>, maximumOutput: Option<int64>,
    maximumOfficialPercent: Option<int>,
    allowedBilling: seq<BillingClass>,
    requiredInputModalities: seq<string>, requiredOutputModalities: seq<string>)

  datatype RankedRoute = RankedRoute(route: Route, expectedCost: int64)

  datatype RejectionCode =
    | WrongModel | UnsupportedProtocol | ProviderNotAllowed | ProviderExcluded | WrongBillingClass
    | MissingCapability | MissingModality | ContextTooSmall | OutputLimitTooSmall | CredentialDisabled
    | CircuitOpen | UntrustedRoute | StalePrice | MissingPrice | MissingOfficialPrice | InvalidOfficialPrice
    | OverOfficialPriceLimit | OverInputPriceLimit | OverOutputPriceLimit | PriceOverflow | OverMaximumCost

  datatype Rejection = Rejection(routeID: string, code: RejectionCode)

  datatype MatchError = InvalidEstimate | InvalidCostLimit | InvalidPricePercent | NoEligibleRoute

  datatype MatchResult = MatchResult(
    selected: Option<RankedRoute>, ranked: seq<RankedRoute>, rejections: seq<Rejection>, error: Option<MatchError>)

  // ---------------------------------------------------------------- fixed-point cost

  /** The exact cost of (quantity, price) pairs, in unbounded integers. */
  function TrueCost(parts: seq<int64>): int
    requires |parts| % 2 == 0
  {
    if parts == [] then 0
    else TrueCost(parts[..|parts| - 2]) + parts[|parts| - 2] as int * parts[|parts| - 1] as int
  }

  ghost predicate AllNonNegative(parts: seq<int64>) {
    forall i :: 0 <= i < |parts| ==> 0 <= parts[i]
  }

  /** What a caller of estimateParts may rely on: the exact sum when it fits, otherwise an error. */
  function Estimate(parts: seq<int64>): Option<int64> {
    if |parts| % 2 == 0 && (forall i :: 0 <= i < |parts| ==> 0 <= parts[i]) && TrueCost(parts) <= MAX_INT64
    then TrueCostIsNonNegative(parts); Some(TrueCost(parts) as int64)
    else None
  }

  lemma {:induction false} TrueCostIsNonNegative(parts: seq<int64>)
    requires |parts| % 2 == 0 && AllNonNegative(parts)
    ensures 0 <= TrueCost(parts)
  {
    if parts != [] {
      TrueCostIsNonNegative(parts[..|parts| - 2]);
      ProductIsNonNegative(parts[|parts| - 2] as int, parts[|parts| - 1] as int);
    }
  }

  lemma ProductIsNonNegative(a: int, b: int)
    requires 0 <= a && 0 <= b
    ensures 0 <= a * b
  {}

  /** A longer list of non-negative parts never costs less. */
  lemma {:induction false} TrueCostGrows(parts: seq<int64>, n: nat)
    requires |parts| % 2 == 0 && n % 2 == 0 && n <= |parts| && AllNonNegative(parts)
    ensures TrueCost(parts[..n]) <= TrueCost(parts)
  {
    if n < |parts| {
      var init := parts[..|parts| - 2];
      TrueCostGrows(init, n);
      assert init[..n] == parts[..n];
      ProductIsNonNegative(parts[|parts| - 2] as int, parts[|parts| - 1] as int);
    } else {
      assert parts[..n] == parts;
    }
  }

  /** The guard `price > maximum/quantity` is exactly "the product does not fit". */
  lemma DivisionGuard(quantity: int, price: int, maximum: int)
    requires 0 < quantity && 0 <= price && 0 <= maximum
    ensures price > maximum / quantity <==> quantity * price > maximum
  {
    var q := maximum / quantity;
    assert q * quantity <= maximum < (q + 1) * quantity;
    if price > q {
      assert price * quantity >= (q + 1) * quantity by { MulGrows(quantity, q + 1, price); }
    } else {
      assert price * quantity <= q * quantity by { MulGrows(quantity, price, q); }
    }
  }

  lemma MulGrows(k: int, a: int, b: int)
    requires 0 <= k && a <= b
    ensures k * a <= k * b
  {}

  /** The guarded 64-bit loop succeeds exactly when the true sum exists and fits, and returns it. */
  method EstimateParts(parts: seq<int64>) returns (r: Option<int64>)
    ensures r == Estimate(parts)
  {
    if |parts| % 2 != 0 {
      return None;
    }
    var maximum: int64 := 0x7fff_ffff_ffff_ffff;
    var total: int64 := 0;
    var index := 0;
    while index < |parts|
      invariant 0 <= index <= |parts| && index % 2 == 0
      invariant forall i :: 0 <= i < index ==> 0 <= parts[i]
      invariant 0 <= total && total as int == TrueCost(parts[..index])
    {
      var quantity, price := parts[index], parts[index + 1];
      if quantity < 0 || price < 0 {
        return None;
      }
      assert parts[..index + 2][..index] == parts[..index];
      assert TrueCost(parts[..index + 2]) == TrueCost(parts[..index]) + quantity as int * price as int;
      if quantity != 0 { DivisionGuard(quantity as int, price as int, maximum as int); }
      if quantity != 0 && price > maximum / quantity {
        if AllNonNegative(parts) { TrueCostGrows(parts, index + 2); }
        return None;
      }
      ProductIsNonNegative(quantity as int, price as int);
      var amount := quantity * price;
      if amount > maximum - total {
        if AllNonNegative(parts) { TrueCostGrows(parts, index + 2); }
        return None;
      }
      total := total + amount;
      index := index + 2;
    }
    assert parts[..index] == parts;
    return Some(total);
  }

  function CostParts(request: MatchRequest, price: Price): seq<int64> {
    [request.inputTokens, price.input, request.expectedOutput, price.output, 1, price.fixed_]
  }

  function ExpectedCost(request: MatchRequest, price: Price): Option<int64> {
    Estimate(CostParts(request, price))
  }

  /** The expected cost is input tokens, output tokens and the fixed fee, each at its own price. */
  lemma CostPartsAddUp(request: MatchRequest, price: Price)
    ensures TrueCost(CostParts(request, price))
         == request.inputTokens as int * price.input as int
          + request.expectedOutput as int * price.output as int + price.fixed_ as int
  {
    var p := CostParts(request, price);
    assert p[..4][..2] == p[..2] && p[..2][..0] == [];
    assert TrueCost(p[..2]) == request.inputTokens as int * price.input as int;
    assert TrueCost(p[..4]) == TrueCost(p[..2]) + request.expectedOutput as int * price.output as int;
  }

  // ---------------------------------------------------------------- eligibility

  function CanonicalModelID(value: string): string {
    var v := AfterLast(Clean(value), '/');
    if HasSuffix(v, ":free") || HasSuffix(v, "-free") then v[..|v| - 5] else v
  }

  predicate SameLogicalModel(a: string, b: string) {
    CanonicalModelID(a) == CanonicalModelID(b)
  }

  predicate ModelAllowed(model: string, request: MatchRequest) {
    if request.logicalModels == [] then SameLogicalModel(model, request.logicalModel)
    else exists m :: m in request.logicalModels && SameLogicalModel(model, m)
  }

  function ProviderSet(values: seq<string>): set<string> {
    set v | v in values && Clean(v) != "" :: Clean(v)
  }

  function EffectiveBilling(route: Route): BillingClass {
    if route.billing != NoBilling then route.billing else if route.free then FreeBilling else MeteredBilling
  }

  function BillingTier(route: Route): int {
    if route.free || route.billing == FreeBilling then 1
    else if route.billing == SubscriptionBilling then 2 else 3
  }

  predicate NeedsPrice(request: MatchRequest) {
    request.maximumCost.Some? || request.maximumInput.Some? || request.maximumOutput.Some?
    || request.maximumOfficialPercent.Some?
  }

  predicate HasParameters(required: seq<string>, c: Capabilities) {
    forall p :: p in required && Clean(p) != "tools" ==> p in c.parameters
  }

  predicate HasModalities(required: seq<string>, offered: map<string, bool>) {
    |offered| == 0 || forall m :: m in required ==> Clean(m) in offered && offered[Clean(m)]
  }

  /** The percentage cannot be applied to this official price in 64 bits, so the route is refused. */
  predicate PercentGuardTrips(percent: int, official: Price) {
    percent > 0 && (official.input as int > MAX_INT64 / percent || official.output as int > MAX_INT64 / percent)
  }

  predicate ValidPercent(percent: Option<int>) {
    percent.Some? ==> 0 <= percent.value <= 100
  }

  function RejectPercent(percent: int, route: Route): Option<RejectionCode> {
    var official := route.officialPrice;
    if !route.officialPriceAvailable || official.input < 0 || official.output < 0 then Some(MissingOfficialPrice)
    else if PercentGuardTrips(percent, official) then Some(InvalidOfficialPrice)
    else if route.price.input as int > official.input as int * percent / 100
         || route.price.output as int > official.output as int * percent / 100 then Some(OverOfficialPriceLimit)
    else None
  }

  /** Model, protocol, provider and billing policy: the first group of checks. */
  function RejectPolicy(request: MatchRequest, route: Route): Option<RejectionCode> {
    var allowed := ProviderSet(request.allowedProviders);
    if !ModelAllowed(route.logicalModel, request) then Some(WrongModel)
    else if request.protocol !in route.capabilities.protocols then Some(UnsupportedProtocol)
    else if allowed != {} && ToLower(route.provider) !in allowed then Some(ProviderNotAllowed)
    else if ToLower(route.provider) in ProviderSet(request.excludedProviders) then Some(ProviderExcluded)
    else if request.allowedBilling != [] && EffectiveBilling(route) !in request.allowedBilling
    then Some(WrongBillingClass)
    else None
  }

  function RejectCapability(request: MatchRequest, c: Capabilities): Option<RejectionCode> {
    if request.requireStructured && !c.structuredOutput then Some(MissingCapability)
    else if !HasParameters(request.requiredParameters, c) then Some(MissingCapability)
    else if !HasModalities(request.requiredInputModalities, c.inputModalities) then Some(MissingModality)
    else if !HasModalities(request.requiredOutputModalities, c.outputModalities) then Some(MissingModality)
    else if request.maxContext > 0 && c.maxContext < request.maxContext then Some(ContextTooSmall)
    else if request.maxOutput > 0 && c.maxOutput < request.maxOutput then Some(OutputLimitTooSmall)
    else None
  }

  function RejectState(request: MatchRequest, route: Route, now: int): Option<RejectionCode> {
    if route.health == HealthDisabled then Some(CredentialDisabled)
    else if route.health == InBackoff then Some(CircuitOpen)
    else if !request.allowUntrusted && !route.trusted then Some(UntrustedRoute)
    else if !request.allowStale && route.price.staleAt.Some? && now >= route.price.staleAt.value then Some(StalePrice)
    else None
  }

  function RejectPrice(request: MatchRequest, route: Route): Option<RejectionCode> {
    if !route.priceAvailable && (route.billing != SubscriptionBilling || NeedsPrice(request)) then Some(MissingPrice)
    else if route.price.input < 0 || route.price.output < 0 || route.price.fixed_ < 0 then Some(MissingPrice)
    else
      var overPercent :=
        if request.maximumOfficialPercent.Some? then RejectPercent(request.maximumOfficialPercent.value, route)
        else None;
      if overPercent.Some? then overPercent
      else if request.maximumInput.Some? && route.price.input > request.maximumInput.value
      then Some(OverInputPriceLimit)
      else if request.maximumOutput.Some? && route.price.output > request.maximumOutput.value
      then Some(OverOutputPriceLimit)
      else None
  }

  function FirstOf(a: Option<RejectionCode>, b: Option<RejectionCode>): Option<RejectionCode> {
    if a.Some? then a else b
  }

  function RejectRoute(request: MatchRequest, route: Route, now: int): Option<RejectionCode> {
    FirstOf(RejectPolicy(request, route),
    FirstOf(RejectCapability(request, route.capabilities),
    FirstOf(RejectState(request, route, now), RejectPrice(request, route))))
  }

  datatype Verdict = Accept(cost: int64) | Reject(code: RejectionCode)

  /** What one pass of Match's loop does with one route. */
  function Judge(request: MatchRequest, route: Route, now: int): Verdict {
    var rejection := RejectRoute(request, route, now);
    if rejection.Some? then Reject(rejection.value)
    else
      var cost := ExpectedCost(request, route.price);
      if cost.None? then Reject(PriceOverflow)
      else if request.maximumCost.Some? && cost.value > request.maximumCost.value then Reject(OverMaximumCost)
      else Accept(cost.value)
  }

  function RequestError(request: MatchRequest): Option<MatchError> {
    if request.inputTokens < 0 || request.expectedOutput < 0 || request.maxContext < 0 || request.maxOutput < 0
    then Some(InvalidEstimate)
    else if request.maximumCost.Some? && request.maximumCost.value < 0 then Some(InvalidCostLimit)
    else if !ValidPercent(request.maximumOfficialPercent) then Some(InvalidPricePercent)
    else None
  }

  /** The routes a judge accepts, in input order; a request and a clock make one such judge. */
  function Accepted(judge: Route -> Verdict, routes: seq<Route>): seq<RankedRoute> {
    if routes == [] then []
    else
      var last := routes[|routes| - 1];
      var v := judge(last);
      Accepted(judge, routes[..|routes| - 1]) + (if v.Accept? then [RankedRoute(last, v.cost)] else [])
  }

  function Rejected(judge: Route -> Verdict, routes: seq<Route>): seq<Rejection> {
    if routes == [] then []
    else
      var last := routes[|routes| - 1];
      var v := judge(last);
      Rejected(judge, routes[..|routes| - 1]) + (if v.Reject? then [Rejection(last.id, v.code)] else [])
  }

  function JudgeFor(request: MatchRequest, now: int): Route -> Verdict {
    (route: Route) => Judge(request, route, now)
  }

  function Candidates(request: MatchRequest, routes: seq<Route>, now: int): seq<RankedRoute> {
    Accepted(JudgeFor(request, now), routes)
  }

  function Rejections(request: MatchRequest, routes: seq<Route>, now: int): seq<Rejection> {
    Rejected(JudgeFor(request, now), routes)
  }

  /** Match's sort order: billing tier, cost, freshest price, success rate, latency, route ID. */
  predicate RanksBefore(a: RankedRoute, b: RankedRoute) {
    if BillingTier(a.route) != BillingTier(b.route) then BillingTier(a.route) < BillingTier(b.route)
    else if a.expectedCost != b.expectedCost then a.expectedCost < b.expectedCost
    else if a.route.price.observedAt != b.route.price.observedAt
    then a.route.price.observedAt > b.route.price.observedAt
    else if a.route.successRateBPS != b.route.successRateBPS then a.route.successRateBPS > b.route.successRateBPS
    else if a.route.latencyMillisP50 != b.route.latencyMillisP50
    then a.route.latencyMillisP50 < b.route.latencyMillisP50
    else StringLess(a.route.id, b.route.id)
  }

  function Ranking(request: MatchRequest, routes: seq<Route>, now: int): seq<RankedRoute> {
    if RequestError(request).Some? then []
    else Ordering.StableSort(RanksBefore, Candidates(request, routes, now))
  }

  function MatchSpec(request: MatchRequest, routes: seq<Route>, now: int): MatchResult {
    var error := RequestError(request);
    if error.Some? then MatchResult(None, [], [], error)
    else
      var ranked := Ranking(request, routes, now);
      if ranked == [] then MatchResult(None, [], Rejections(request, routes, now), Some(NoEligibleRoute))
      else MatchResult(Some(ranked[0]), ranked, Rejections(request, routes, now), None)
  }

  method Match(request: MatchRequest, routes: seq<Route>, now: int) returns (result: MatchResult)
    ensures result == MatchSpec(request, routes, now)
  {
    var error := RequestError(request);
    if error.Some? {
      return MatchResult(None, [], [], error);
    }
    var ranked: seq<RankedRoute>, rejections: seq<Rejection> := [], [];
    for i := 0 to |routes|
      invariant ranked == Candidates(request, routes[..i], now)
      invariant rejections == Rejections(request, routes[..i], now)
    {
      var route := routes[i];
      assert routes[..i + 1][..i] == routes[..i];
      var rejection := RejectRoute(request, route, now);
      if rejection.None? {
        var cost := EstimateParts(CostParts(request, route.price));
        if cost.None? {
          rejections := rejections + [Rejection(route.id, PriceOverflow)];
        } else if request.maximumCost.Some? && cost.value > request.maximumCost.value {
          rejections := rejections + [Rejection(route.id, OverMaximumCost)];
        } else {
          ranked := ranked + [RankedRoute(route, cost.value)];
        }
      } else {
        rejections := rejections + [Rejection(route.id, rejection.value)];
      }
    }
    assert routes[..|routes|] == routes;
    ranked := Ordering.StableSort(RanksBefore, ranked);
    if ranked != [] {
      result := MatchResult(Some(ranked[0]), ranked, rejections, None);
    } else {
      result := MatchResult(None, [], rejections, Some(NoEligibleRoute));
    }
  }
}
