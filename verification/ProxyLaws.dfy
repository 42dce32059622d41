/** What a run's log says about limited keys and about the attempt budget. */
module ProxyLaws {
  import opened Wrappers
  import opened Wire
  import opened Streams
  import opened Delivery
  import opened Proxy
  import Groups
  import Matcher
  import Retry
  import Routing

  // ---------------------------------------------------------------- a key that ran out of quota

  /** The one way a try goes on after a quota error: the format is unknown, the status says so, and a format is left. */
  predicate ProbesOn(r: Request, a: Attempt) {
    && a.what.Called? && MeantBy(r, a).Failure? && Probeable(MeantBy(r, a).error)
    && !a.known && a.index < 2 && a.number < MAXIMUM_ATTEMPTS
  }

  /**
   After a quota error the same key is used again without a new check exactly when `ProbesOn`; in every other
   case it is used again only once found unblocked at or after the reset the provider named, and never without one.
   */
  lemma QuotaKeyUsedAgainExactly(r: Request, log: Log, i: nat)
    requires LogLaws(r, log) && i < |log| && QuotaReset(r, log[i]).Some?
    ensures ProbesOn(r, log[i]) <==>
              i + 1 < |log| && log[i + 1].key == log[i].key && log[i + 1].checkedAt == log[i].checkedAt
              && log[i + 1].index == log[i].index + 1
    ensures !ProbesOn(r, log[i]) ==>
              forall j :: i < j < |log| && log[j].key == log[i].key ==>
                  Elapsed(QuotaReset(r, log[i]).value, log[j].checkedAt)
  {
    hide Meant;
    assert log[i].left == LeftAfter(log[i]);
    assert GoesOn(log, i) <==> Continues(r, log[i]) && log[i].left > 0;
  }

  /** A provider that answers every call with the same quota error. */
  function LimitedWorld(error: CallError, now: int): World {
    World(_ => now, _ => Probe(false, false, false), _ => Translating(UnknownFormat), _ => None,
          _ => true, _ => Refused(error), _ => RawRefused(error), _ => true)
  }

  /**
   The exception is real: with no known format, a quota error whose status looks like a format problem (a 404,
   say) makes all three formats call the limited key, whatever reset time the provider named.
   */
  method LimitedKeyIsCalledThreeTimes(request: Request, error: CallError, key: string, now: int) returns (log: Log)
    requires request.client.Valid()
    requires error.Upstream? && ClassOf(error) == Retry.QuotaExhausted && Probeable(error)
    ensures |log| == 3
    ensures forall i :: 0 <= i < 3 ==>
              log[i].key == key && log[i].checkedAt == now && log[i].what == Called(Refused(error))
  {
    hide Meant;
    var out := new ClientWriter(0);
    var run := new Execution(LimitedWorld(error, now), request, out, map[], map[]);
    var lastErr, completed, used :=
      run.ExecuteTranslatedRoute(0, "route", key, now, UnknownFormat, 1, MAXIMUM_ATTEMPTS - 1);
    log := run.attempts;
    assert log[0..] == log;
    forall i | 0 <= i < |log|
      ensures log[i].what == Called(Refused(error)) && Placed(log[i], i, 0, key, now, 1) && !log[i].known
    {
      assert run.world.Answers(log[i].what);
    }
    forall i | 0 <= i < |log| ensures Continues(request, log[i]) {
      RefusedMeans(request, log[i].format, Refused(error));
    }
  }

  lemma {:induction false} AllowedIsTriesAllowed(entries: seq<Routing.Entry>)
    requires forall e :: e in entries ==> e.sameRouteRetries >= 0
    ensures AllAllowed(entries) == Routing.TriesAllowed(entries)
  {
    if entries != [] {
      AllowedIsTriesAllowed(entries[..|entries| - 1]);
      assert entries[|entries| - 1] in entries;
    }
  }

  /**
   A group plan without error fits the attempt budget: if every try needs one attempt,
   a failed run has tried every entry or said why it was passed over.
   */
  lemma GoodPlanLeavesNothingUntried(plan: Routing.Plan, request: Matcher.MatchRequest,
                                     stages: seq<Groups.EffectiveStage>,
                                     routes: seq<Matcher.Route>, now: int, log: Log, settled: seq<Why>)
    requires Routing.IsPlanOf(plan, request, stages, routes, now, Routing.DefaultLimits()) && plan.error.None?
    requires forall e :: e in plan.entries ==> e.sameRouteRetries >= 0
    requires FailsFairly(log, plan.entries, settled) && OneAttemptEach(log)
    ensures |settled| == |plan.entries|
  {
    hide Routing.FullEntries, Routing.FullRejections;
    AllowedIsTriesAllowed(plan.entries);
  }
}
