/** What route selection guarantees, for every request and every route snapshot. */
module MatcherLaws {
  import opened Wrappers
  import opened Text
  import opened Matcher
  import opened Ordering

  // ---------------------------------------------------------------- the order of a ranking

  lemma RanksBeforeIsStrictWeakOrder()
    ensures StrictWeakOrder(RanksBefore)
  {
    StringLessIsStrictTotalOrder();
  }

  ghost predicate DistinctIDs(routes: seq<Route>) {
    forall i, j :: 0 <= i < |routes| && 0 <= j < |routes| && routes[i].id == routes[j].id ==> routes[i] == routes[j]
  }

  lemma {:induction false} AcceptedExactly(judge: Route -> Verdict, routes: seq<Route>, c: RankedRoute)
    ensures multiset(Accepted(judge, routes))[c]
         == if judge(c.route) == Accept(c.expectedCost) then multiset(routes)[c.route] else 0
  {
    if routes != [] {
      var init, last := routes[..|routes| - 1], routes[|routes| - 1];
      AcceptedExactly(judge, init, c);
      assert routes == init + [last];
    }
  }

  lemma PermutedAccepted(judge: Route -> Verdict, a: seq<Route>, b: seq<Route>)
    requires multiset(a) == multiset(b)
    ensures multiset(Accepted(judge, a)) == multiset(Accepted(judge, b))
  {
    forall c: RankedRoute
      ensures multiset(Accepted(judge, a))[c] == multiset(Accepted(judge, b))[c]
    {
      AcceptedExactly(judge, a, c);
      AcceptedExactly(judge, b, c);
    }
  }

  lemma AcceptedAreSeparated(judge: Route -> Verdict, routes: seq<Route>)
    requires DistinctIDs(routes)
    ensures Separates(RanksBefore, Accepted(judge, routes))
  {
    StringLessIsStrictTotalOrder();
    var cs := Accepted(judge, routes);
    forall i, j | 0 <= i < |cs| && 0 <= j < |cs|
      ensures cs[i] == cs[j] || RanksBefore(cs[i], cs[j]) || RanksBefore(cs[j], cs[i])
    {
      assert cs[i] in multiset(cs) && cs[j] in multiset(cs);
      AcceptedExactly(judge, routes, cs[i]);
      AcceptedExactly(judge, routes, cs[j]);
      assert cs[i].route in routes && cs[j].route in routes;
    }
  }

  /** The ranking and the selected route depend on which routes there are, never on their order. */
  lemma MatchIgnoresRouteOrder(request: MatchRequest, a: seq<Route>, b: seq<Route>, now: int)
    requires multiset(a) == multiset(b) && DistinctIDs(a)
    ensures MatchSpec(request, a, now).ranked == MatchSpec(request, b, now).ranked
    ensures MatchSpec(request, a, now).selected == MatchSpec(request, b, now).selected
    ensures MatchSpec(request, a, now).error == MatchSpec(request, b, now).error
  {
    if RequestError(request).None? {
      PermutedAccepted(JudgeFor(request, now), a, b);
      AcceptedAreSeparated(JudgeFor(request, now), a);
      RanksBeforeIsStrictWeakOrder();
      SortOfPermutation(RanksBefore, Candidates(request, a, now), Candidates(request, b, now));
    }
  }

  /** A valid request ranks a route exactly when it accepts it, once per copy and at its exact cost. */
  lemma RankedExactly(request: MatchRequest, routes: seq<Route>, now: int, r: RankedRoute)
    requires RequestError(request).None?
    ensures multiset(Ranking(request, routes, now))[r]
         == if Judge(request, r.route, now) == Accept(r.expectedCost) then multiset(routes)[r.route] else 0
  {
    RanksBeforeIsStrictWeakOrder();
    SortIsSorted(RanksBefore, Candidates(request, routes, now));
    AcceptedExactly(JudgeFor(request, now), routes, r);
  }

  lemma {:induction false} RejectedExactly(judge: Route -> Verdict, routes: seq<Route>, id: string)
    ensures (exists r :: r in Rejected(judge, routes) && r.routeID == id)
       <==> (exists route :: route in routes && route.id == id && judge(route).Reject?)
  {
    if routes != [] {
      var init, last := routes[..|routes| - 1], routes[|routes| - 1];
      RejectedExactly(judge, init, id);
      assert routes == init + [last];
      var v := judge(last);
      if v.Reject? { assert Rejection(last.id, v.code) in Rejected(judge, routes); }
    }
  }

  /** Every route is either ranked or rejected, never both. */
  lemma RankedXorRejected(request: MatchRequest, routes: seq<Route>, now: int, route: Route)
    requires RequestError(request).None? && DistinctIDs(routes) && route in routes
    ensures (exists c :: RankedRoute(route, c) in Ranking(request, routes, now))
       <==> !(exists r :: r in Rejections(request, routes, now) && r.routeID == route.id)
  {
    var ranking := Ranking(request, routes, now);
    forall c: int64 ensures RankedRoute(route, c) in ranking <==> Judge(request, route, now) == Accept(c) {
      RankedExactly(request, routes, now, RankedRoute(route, c));
      assert RankedRoute(route, c) in multiset(ranking) <==> RankedRoute(route, c) in ranking;
      assert route in multiset(routes);
    }
    RejectedExactly(JudgeFor(request, now), routes, route.id);
  }

  /** The ranking is sorted, and ties are broken by route ID. */
  lemma RankingIsSorted(request: MatchRequest, routes: seq<Route>, now: int)
    ensures SortedBy(RanksBefore, Ranking(request, routes, now))
  {
    if RequestError(request).None? {
      RanksBeforeIsStrictWeakOrder();
      SortIsSorted(RanksBefore, Candidates(request, routes, now));
    }
  }

  /** Routes the comparison does not tell apart keep the order they came in. */
  lemma TiesKeepTheirOrder(request: MatchRequest, routes: seq<Route>, now: int, r: RankedRoute)
    requires RequestError(request).None?
    ensures var tied := TiedWith(RanksBefore, r);
            Filter(tied, Ranking(request, routes, now)) == Filter(tied, Candidates(request, routes, now))
  {
    hide RanksBefore, StrictWeakOrder, TiedWith, Filter;
    RanksBeforeIsStrictWeakOrder();
    SortIsStable(RanksBefore, r, Candidates(request, routes, now));
  }

  // ---------------------------------------------------------------- caps and lists

  ghost predicate WithinCap(value: int64, cap: Option<int64>) {
    cap.Some? ==> value <= cap.value
  }

  ghost predicate WithinPercent(price: int64, official: int64, percent: int) {
    100 * price as int <= percent * official as int
  }

  /** 64-bit truncating division loses nothing: the test is the unbounded inequality. */
  lemma PercentTestIsExact(price: int, official: int, percent: int)
    requires 0 <= official && 0 <= percent
    ensures price <= official * percent / 100 <==> 100 * price <= percent * official
  {}

  /** The guard refuses exactly the official prices whose product with the percentage does not fit 64 bits. */
  lemma GuardIsOverflow(percent: int, official: Price)
    requires 0 <= percent && 0 <= official.input && 0 <= official.output
    ensures PercentGuardTrips(percent, official) <==>
            percent * official.input as int > MAX_INT64 || percent * official.output as int > MAX_INT64
  {
    if percent > 0 {
      DivisionGuard(percent, official.input as int, MAX_INT64);
      DivisionGuard(percent, official.output as int, MAX_INT64);
    }
  }

  /** A percentage cap accepts exactly the routes that the unbounded inequality accepts, guard apart. */
  lemma PercentCapExactly(percent: int, route: Route)
    requires 0 <= percent <= 100
    requires route.officialPriceAvailable && 0 <= route.officialPrice.input && 0 <= route.officialPrice.output
    ensures RejectPercent(percent, route).None? <==>
            && !PercentGuardTrips(percent, route.officialPrice)
            && WithinPercent(route.price.input, route.officialPrice.input, percent)
            && WithinPercent(route.price.output, route.officialPrice.output, percent)
  {}

  ghost predicate RespectsCaps(request: MatchRequest, r: RankedRoute) {
    && WithinCap(r.route.price.input, request.maximumInput)
    && WithinCap(r.route.price.output, request.maximumOutput)
    && WithinCap(r.expectedCost, request.maximumCost)
    && (request.maximumOfficialPercent.Some? ==>
          && 0 <= r.route.officialPrice.input && 0 <= r.route.officialPrice.output
          && WithinPercent(r.route.price.input, r.route.officialPrice.input, request.maximumOfficialPercent.value)
          && WithinPercent(r.route.price.output, r.route.officialPrice.output, request.maximumOfficialPercent.value))
  }

  ghost predicate RespectsLists(request: MatchRequest, route: Route) {
    && (ProviderSet(request.allowedProviders) != {} ==>
          ToLower(route.provider) in ProviderSet(request.allowedProviders))
    && (request.allowedBilling != [] ==> EffectiveBilling(route) in request.allowedBilling)
  }

  /** Every ranked route is one of the input, at its exact cost, inside every cap and allow-list. */
  lemma RankedRouteIsAllowed(request: MatchRequest, routes: seq<Route>, now: int, r: RankedRoute)
    requires r in Ranking(request, routes, now)
    ensures RequestError(request).None? && r.route in routes
    ensures RespectsCaps(request, r) && RespectsLists(request, r.route)
    ensures r.expectedCost as int
         == request.inputTokens as int * r.route.price.input as int
          + request.expectedOutput as int * r.route.price.output as int + r.route.price.fixed_ as int
  {
    assert r in multiset(Ranking(request, routes, now));
    RankedExactly(request, routes, now, r);
    assert Judge(request, r.route, now) == Accept(r.expectedCost);
    assert r.route in multiset(routes);
    CostPartsAddUp(request, r.route.price);
    if request.maximumOfficialPercent.Some? {
      PercentCapExactly(request.maximumOfficialPercent.value, r.route);
    }
  }

  // ---------------------------------------------------------------- narrower requests

  ghost predicate TighterCap(n: Option<int64>, w: Option<int64>) {
    w.Some? ==> n.Some? && n.value <= w.value
  }

  /** `n` asks for the same thing as `w` under tighter caps and lists. */
  ghost predicate Narrower(n: MatchRequest, w: MatchRequest) {
    && n == w.(maximumCost := n.maximumCost, maximumInput := n.maximumInput, maximumOutput := n.maximumOutput,
               maximumOfficialPercent := n.maximumOfficialPercent, allowedProviders := n.allowedProviders,
               excludedProviders := n.excludedProviders, allowedBilling := n.allowedBilling)
    && TighterCap(n.maximumCost, w.maximumCost)
    && TighterCap(n.maximumInput, w.maximumInput)
    && TighterCap(n.maximumOutput, w.maximumOutput)
    && (w.maximumOfficialPercent.Some? ==>
          n.maximumOfficialPercent.Some? && n.maximumOfficialPercent.value <= w.maximumOfficialPercent.value)
    && (ProviderSet(w.allowedProviders) != {} ==>
          ProviderSet(n.allowedProviders) != {} && ProviderSet(n.allowedProviders) <= ProviderSet(w.allowedProviders))
    && ProviderSet(w.excludedProviders) <= ProviderSet(n.excludedProviders)
    && (w.allowedBilling != [] ==>
          n.allowedBilling != [] && forall b :: b in n.allowedBilling ==> b in w.allowedBilling)
  }

  /** The official price of `route` is too large for the wider request's percentage. */
  ghost predicate GuardHides(w: MatchRequest, route: Route) {
    w.maximumOfficialPercent.Some? && PercentGuardTrips(w.maximumOfficialPercent.value, route.officialPrice)
  }

  lemma NarrowerPolicyPasses(n: MatchRequest, w: MatchRequest, route: Route)
    requires Narrower(n, w) && RejectPolicy(n, route).None?
    ensures RejectPolicy(w, route).None?
  {
    assert ModelAllowed(route.logicalModel, n) == ModelAllowed(route.logicalModel, w);
  }

  /** Past the narrower price checks, only the guard of the wider percentage can refuse the route. */
  lemma NarrowerPricePasses(n: MatchRequest, w: MatchRequest, route: Route)
    requires Narrower(n, w) && RequestError(n).None? && RequestError(w).None?
    requires RejectPrice(n, route).None?
    ensures RejectPrice(w, route).None? <==> !GuardHides(w, route)
  {
    if w.maximumOfficialPercent.Some? {
      var pn, pw := n.maximumOfficialPercent.value, w.maximumOfficialPercent.value;
      PercentCapExactly(pn, route);
      PercentCapExactly(pw, route);
      MulGrows(route.officialPrice.input as int, pn, pw);
      MulGrows(route.officialPrice.output as int, pn, pw);
    }
  }

  /** What the narrower request accepts, the wider one accepts at the same cost, unless the guard hides it. */
  lemma NarrowerAcceptsExactly(n: MatchRequest, w: MatchRequest, route: Route, now: int)
    requires Narrower(n, w) && RequestError(n).None? && RequestError(w).None?
    requires Judge(n, route, now).Accept?
    ensures Judge(w, route, now) == Judge(n, route, now) <==> !GuardHides(w, route)
  {
    hide RejectPolicy, RejectPrice, Estimate, GuardHides;
    assert CostParts(n, route.price) == CostParts(w, route.price);
    NarrowerPolicyPasses(n, w, route);
    NarrowerPricePasses(n, w, route);
  }

  lemma {:induction false} NarrowerAccepted(narrow: Route -> Verdict, wide: Route -> Verdict, routes: seq<Route>)
    requires forall r :: r in routes && narrow(r).Accept? ==> wide(r) == narrow(r)
    ensures Accepted(narrow, routes)
         == Filter((r: RankedRoute) => narrow(r.route) == Accept(r.expectedCost), Accepted(wide, routes))
  {
    var keep := (r: RankedRoute) => narrow(r.route) == Accept(r.expectedCost);
    if routes != [] {
      var init, last := routes[..|routes| - 1], routes[|routes| - 1];
      assert routes == init + [last];
      NarrowerAccepted(narrow, wide, init);
      var v := wide(last);
      var tail := if v.Accept? then [RankedRoute(last, v.cost)] else [];
      FilterAppend(keep, Accepted(wide, init), tail);
      assert Filter(keep, tail) == if narrow(last).Accept? then tail else [];
    }
  }

  lemma FilterStep<T(!new)>(keep: T -> bool, s: seq<T>)
    requires s != []
    ensures Filter(keep, s) == (if keep(s[0]) then [s[0]] else []) + Filter(keep, s[1..])
  {}

  lemma {:induction false} FilterAppend<T(!new)>(keep: T -> bool, a: seq<T>, b: seq<T>)
    ensures Filter(keep, a + b) == Filter(keep, a) + Filter(keep, b)
  {
    hide Filter;
    if a == [] {
      assert a + b == b;
    } else {
      FilterAppend(keep, a[1..], b);
      assert (a + b)[1..] == a[1..] + b;
      FilterStep(keep, a + b);
      FilterStep(keep, a);
    }
  }

  /** The wider ranking, less the routes the narrower request does not accept at the same cost. */
  ghost function Narrowed(n: MatchRequest, w: MatchRequest, routes: seq<Route>, now: int): seq<RankedRoute> {
    Filter((r: RankedRoute) => JudgeFor(n, now)(r.route) == Accept(r.expectedCost), Ranking(w, routes, now))
  }

  /**
   Narrowing a request removes routes from the ranking and changes nothing else, exactly if the wider request's
   guard hides no route that the narrower one accepts.
   */
  lemma NarrowerRankingIsSubsequence(n: MatchRequest, w: MatchRequest, routes: seq<Route>, now: int)
    requires Narrower(n, w) && RequestError(n).None? && RequestError(w).None?
    ensures Ranking(n, routes, now) == Narrowed(n, w, routes, now) <==>
            forall r :: r in routes && Judge(n, r, now).Accept? ==> !GuardHides(w, r)
  {
    hide Judge, Narrower, GuardHides, Ranking, RequestError;
    if forall r :: r in routes && Judge(n, r, now).Accept? ==> !GuardHides(w, r) {
      UnhiddenRankingIsNarrowed(n, w, routes, now);
    }
    if Ranking(n, routes, now) == Narrowed(n, w, routes, now) {
      forall r | r in routes && Judge(n, r, now).Accept? ensures !GuardHides(w, r) {
        var c := RankedRoute(r, Judge(n, r, now).cost);
        assert r in multiset(routes);
        RankedExactly(n, routes, now, c);
        assert c in multiset(Ranking(n, routes, now));
        assert c in Ranking(n, routes, now) && c in Narrowed(n, w, routes, now);
        assert c in Ranking(w, routes, now) && c in multiset(Ranking(w, routes, now));
        RankedExactly(w, routes, now, c);
        NarrowerAcceptsExactly(n, w, r, now);
      }
    }
  }

  lemma UnhiddenRankingIsNarrowed(n: MatchRequest, w: MatchRequest, routes: seq<Route>, now: int)
    requires Narrower(n, w) && RequestError(n).None? && RequestError(w).None?
    requires forall r :: r in routes && Judge(n, r, now).Accept? ==> !GuardHides(w, r)
    ensures Ranking(n, routes, now) == Narrowed(n, w, routes, now)
  {
    hide Judge, Narrower, GuardHides;
    forall r | r in routes && JudgeFor(n, now)(r).Accept? ensures JudgeFor(w, now)(r) == JudgeFor(n, now)(r) {
      NarrowerAcceptsExactly(n, w, r, now);
    }
    NarrowerAccepted(JudgeFor(n, now), JudgeFor(w, now), routes);
    RanksBeforeIsStrictWeakOrder();
    FilterSort(RanksBefore, (r: RankedRoute) => JudgeFor(n, now)(r.route) == Accept(r.expectedCost),
               Candidates(w, routes, now));
  }

  function PlainPrice(perToken: int64): Price {
    Price(perToken, perToken, 0, 0, 0, 0, 0, None)
  }

  function PlainRequest(percent: int): MatchRequest {
    MatchRequest("chat_completions", "m", [], [], false, 1, 1, 0, 0, false, false, [], [],
                 None, None, None, Some(percent), [], [], [])
  }

  function NearLimitRoute(): Route {
    Route("r", "p", "m", false, PlainPrice(1), true, PlainPrice(0x0fff_ffff_ffff_ffff), true,
          Capabilities({"chat_completions"}, {}, false, 0, 0, map[], map[]), Healthy, true, 0, 0, "", MeteredBilling)
  }

  lemma NearLimitVerdicts()
    ensures Judge(PlainRequest(1), NearLimitRoute(), 0) == Accept(2)
    ensures Judge(PlainRequest(100), NearLimitRoute(), 0) == Reject(InvalidOfficialPrice)
  {
    PercentCapExactly(1, NearLimitRoute());
    PercentCapExactly(100, NearLimitRoute());
    CostPartsAddUp(PlainRequest(1), PlainPrice(1));
  }

  /**
   Without that condition the property is false. A route whose official price is near the 64-bit limit is
   refused at 100 percent, because the guard cannot multiply, and ranked at 1 percent.
   */
  lemma WiderPercentageCanLoseARoute()
    ensures exists route ::
      && Narrower(PlainRequest(1), PlainRequest(100))
      && Ranking(PlainRequest(1), [route], 0) != []
      && Ranking(PlainRequest(100), [route], 0) == []
  {
    hide Judge;
    var route, n, w := NearLimitRoute(), PlainRequest(1), PlainRequest(100);
    NearLimitVerdicts();
    assert [route][..0] == [];
    assert Candidates(n, [route], 0) == Candidates(n, [], 0) + [RankedRoute(route, 2)];
    assert Candidates(w, [route], 0) == Candidates(w, [], 0) + [];
    RanksBeforeIsStrictWeakOrder();
    SortIsSorted(RanksBefore, Candidates(n, [route], 0));
    assert RankedRoute(route, 2) in multiset(Ranking(n, [route], 0));
  }
}
