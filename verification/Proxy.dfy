/** One request's run over its plan (internal/proxy/proxy.go, with the parts of catalog.go and endpoints.go it uses). */
module Proxy {
  import opened Wrappers
  import opened Wire
  import opened Streams
  import opened StreamReading
  import opened Delivery
  import Matcher
  import Ordering
  import Retry
  import Routing

  const MAXIMUM_ATTEMPTS: nat := Routing.DefaultLimits().maximumAttempts

  /** What the client asked for; `document` is its format's rendering of a whole JSON response. */
  datatype Request = Request(client: Format, wantsStream: bool, requireStructured: bool, document: Response -> Object)

  // ---------------------------------------------------------------- what a reply means for the client

  /** The frames meant for the client, whether they are a complete response, and whether a failed write is reported. */
  datatype Meaning = Meaning(frames: seq<Frame>, complete: bool, checked: bool) {
    predicate Succeeds(budget: nat) { complete && (checked ==> |frames| <= budget) }
  }

  function Meant(r: Request, provider: Format, reply: Reply): Result<Meaning, CallError> {
    match reply
    case Refused(e) => Failure(e)
    case Events(frames, readFailed) =>
      var o := DispatchAll(provider, frames);
      var v := Verdict(o, readFailed);
      if o.events == [] then Failure(FaultOf(v.value))
      else Success(Meaning(Streamed(r.client, o.events, v.None?), v.None?, true))
    case Document(Failure(e)) => Failure(e)
    case Document(Success(response)) =>
      Success(Meaning(if r.wantsStream then Streamed(r.client, Replayed([ResponseEvent(response)], true), true)
                      else [Frame("", Payload(r.document(response)))], true, true))
  }

  function MeantRaw(reply: RawReply): Result<Meaning, CallError> {
    match reply
    case RawRefused(e) => Failure(e)
    case Lines(lines, readFailed) =>
      Success(Meaning(Through(lines), !readFailed && !AnyFailure(lines) && AnyTerminal(lines), true))
    case Whole(body, readFailed) =>
      Success(if readFailed then Meaning([], false, true) else Meaning([body], true, false))
  }

  // ---------------------------------------------------------------- the attempt log

  datatype What = NotConfigured | Unencodable | Called(reply: Reply) | Forwarded(raw: RawReply)

  /**
   One recorded attempt: its number, the plan entry, its place among the formats tried for that entry in this
   try, how many formats were left after it, the key it used and when that key was last found unblocked.
   */
  datatype Attempt = Attempt(
    number: nat, entry: nat, index: nat, left: nat, key: string, checkedAt: int, known: bool, format: Format,
    what: What)

  type Log = seq<Attempt>

  function MeantBy(r: Request, a: Attempt): Result<Meaning, CallError> {
    match a.what
    case NotConfigured => Failure(Local)
    case Unencodable => Failure(Local)
    case Called(reply) => Meant(r, a.format, reply)
    case Forwarded(raw) => MeantRaw(raw)
  }

  /** An error that says something about the format rather than about the request or the account. */
  predicate Probeable(e: CallError) {
    match e
    case Upstream(status, _, _, _) => status in {400, 404, 405, 406, 415, 422} || 500 <= status <= 599
    case Incompatible => true
    case MalformedReply => true
    case Local => false
  }

  predicate ShouldTryNextFormat(e: CallError, unknownFormat: bool) { unknownFormat && Probeable(e) }

  /** After this attempt the next format, if one is left, is tried at once on the same key. */
  predicate Continues(r: Request, a: Attempt) {
    || a.what.Unencodable?
    || (a.what.Called? && MeantBy(r, a).Failure? && ShouldTryNextFormat(MeantBy(r, a).error, !a.known))
  }

  function Min(a: int, b: int): int { if a < b then a else b }

  // ---------------------------------------------------------------- formats to try

  /** The valid formats of a list, each where it occurs first. */
  function FirstSeen(order: seq<Format>): seq<Format> {
    if order == [] then []
    else
      var before, last := FirstSeen(order[..|order| - 1]), order[|order| - 1];
      if last.Valid() && last !in before then before + [last] else before
  }

  /** `a` occurs in the list before `b` does. */
  ghost predicate ComesFirst(order: seq<Format>, a: Format, b: Format) {
    exists i :: 0 <= i < |order| && order[i] == a && b !in order[..i + 1]
  }

  /** The formats of `r` are all different, and come in the order of their first occurrences. */
  ghost predicate InOrder(order: seq<Format>, r: seq<Format>) {
    forall j, k :: 0 <= j < k < |r| ==> r[j] != r[k] && ComesFirst(order, r[j], r[k])
  }

  /** Exactly the valid formats are there, none twice, in the order of their first occurrences. */
  lemma {:induction false} FirstSeenExactly(order: seq<Format>)
    ensures forall f: Format :: f in FirstSeen(order) <==> f.Valid() && f in order
    ensures InOrder(order, FirstSeen(order))
  {
    hide ComesFirst;
    if order != [] {
      var init, last := order[..|order| - 1], order[|order| - 1];
      FirstSeenExactly(init);
      assert order == init + [last];
      var before, r := FirstSeen(init), FirstSeen(order);
      assert r == before || (r == before + [last] && last !in init);
      hide FirstSeen;
      assert InOrder(init, before);
      forall j, k | 0 <= j < k < |r| ensures r[j] != r[k] && ComesFirst(order, r[j], r[k]) {
        assert r[j] == before[j] && r[j] in before;
        if k < |before| { FirstStaysFirst(init, last, before[j], before[k]); } else { NewComesLast(init, last, r[j]); }
      }
    }
  }

  lemma FirstStaysFirst(order: seq<Format>, last: Format, a: Format, b: Format)
    requires ComesFirst(order, a, b)
    ensures ComesFirst(order + [last], a, b)
  {
    var i :| 0 <= i < |order| && order[i] == a && b !in order[..i + 1];
    assert (order + [last])[i] == a && (order + [last])[..i + 1] == order[..i + 1];
  }

  lemma NewComesLast(order: seq<Format>, last: Format, a: Format)
    requires a in order && last !in order
    ensures ComesFirst(order + [last], a, last)
  {
    var i :| 0 <= i < |order| && order[i] == a;
    assert (order + [last])[i] == a && (order + [last])[..i + 1] == order[..i + 1];
  }

  function SearchOrder(saved: Format, hinted: Format, client: Format): seq<Format> {
    [saved, hinted, client, ChatCompletions, Responses, AnthropicMessages]
  }

  /** The three formats, each once, saved, hinted and client format first. */
  method CandidateFormats(saved: Format, hinted: Format, client: Format) returns (result: seq<Format>)
    ensures result == FirstSeen(SearchOrder(saved, hinted, client)) && |result| == 3
    ensures forall f :: f in result ==> f.Valid()
  {
    result := [];
    var order := SearchOrder(saved, hinted, client);
    for i := 0 to |order|
      invariant result == FirstSeen(order[..i])
    {
      assert order[..i + 1][..i] == order[..i];
      if order[i].Valid() {
        var seen := Contains(result, order[i]);
        if !seen { result := result + [order[i]]; }
      }
    }
    assert order[..|order|] == order;
    FirstSeenExactly(order);
    hide FirstSeen;
    assert order[3] == ChatCompletions && order[4] == Responses && order[5] == AnthropicMessages;
    ThreeFormats(result);
  }

  method Contains(formats: seq<Format>, format: Format) returns (seen: bool)
    ensures seen <==> format in formats
  {
    seen := false;
    for i := 0 to |formats|
      invariant seen <==> format in formats[..i]
    {
      seen := seen || formats[i] == format;
    }
  }

  lemma ThreeFormats(fs: seq<Format>)
    requires forall f: Format :: f in fs <==> f.Valid()
    requires forall i, j :: 0 <= i < j < |fs| ==> fs[i] != fs[j]
    ensures |fs| == 3
  {
    Ordering.DistinctCount(fs);
    assert (set f | f in fs) == {ChatCompletions, Responses, AnthropicMessages};
  }

  // ---------------------------------------------------------------- tries

  /** How many formats can still follow within a try: none once one is known, else up to three in the attempt budget. */
  function LeftAfter(a: Attempt): int {
    if a.known then 0 else Min(2 - a.index, MAXIMUM_ATTEMPTS - a.number)
  }

  /** The attempts of one try: consecutive numbers, one key, and a next attempt exactly when the rules ask for one. */
  ghost predicate IsTry(r: Request, more: Log, entry: nat, key: string, at: int, first: nat) {
    && more != []
    && (forall k :: 0 <= k < |more| ==> Placed(more[k], k, entry, key, at, first))
    && (forall k :: 0 <= k < |more| ==> (k + 1 < |more| <==> Continues(r, more[k]) && more[k].left > 0))
  }

  predicate Placed(a: Attempt, k: nat, entry: nat, key: string, at: int, first: nat) {
    a.number == first + k && a.entry == entry && a.index == k && a.key == key && a.checkedAt == at
    && a.left == LeftAfter(a)
  }

  // ---------------------------------------------------------------- laws of the whole log

  /** Attempt numbers run from 1 without gap or reuse. */
  ghost predicate Numbered(log: Log) {
    forall i :: 0 <= i < |log| ==> log[i].number == i + 1
  }

  /** The try that attempt `i` belongs to goes on after it. */
  predicate GoesOn(log: Log, i: nat)
    requires i < |log|
  {
    i + 1 < |log| && log[i + 1].index > 0
  }

  /** A try goes on, on the same entry and key, exactly when the error asks for another format and one is left. */
  ghost predicate ProbesExactly(r: Request, log: Log) {
    && (log != [] ==> log[0].index == 0)
    && (forall i :: 0 <= i < |log| ==> log[i].left == LeftAfter(log[i]))
    && (forall i :: 0 <= i < |log| ==> (GoesOn(log, i) <==> Continues(r, log[i]) && log[i].left > 0))
    && (forall i :: 0 <= i < |log| && GoesOn(log, i) ==>
          FollowsOn(log[i], log[i + 1]))
  }

  /** `b` is the next attempt of the try that `a` belongs to. */
  predicate FollowsOn(a: Attempt, b: Attempt) {
    b.index == a.index + 1 && b.key == a.key && b.entry == a.entry && b.checkedAt == a.checkedAt
  }

  /** A quota error, and the time the provider named for the key to work again. */
  function QuotaReset(r: Request, a: Attempt): Option<Option<int>> {
    var m := MeantBy(r, a);
    if m.Failure? && m.error.Upstream? && ClassOf(m.error) == Retry.QuotaExhausted then Some(m.error.nextAvailableAt)
    else None
  }

  /** After a try that ended in a quota error, its key is used again only once found unblocked at or after its reset. */
  ghost predicate QuotaKept(r: Request, log: Log) {
    forall i, j :: 0 <= i < j < |log| && !GoesOn(log, i) && log[i].key == log[j].key && QuotaReset(r, log[i]).Some?
      ==> Elapsed(QuotaReset(r, log[i]).value, log[j].checkedAt)
  }

  predicate Elapsed(reset: Option<int>, now: int) { reset.Some? && reset.value <= now }

  /** The blocked keys remember every quota error that has not been reset yet. */
  ghost predicate Held(r: Request, log: Log, blocked: map<string, Option<int>>, now: int) {
    forall i :: 0 <= i < |log| && !GoesOn(log, i) && QuotaReset(r, log[i]).Some? ==>
      Elapsed(QuotaReset(r, log[i]).value, now)
      || (log[i].key in blocked && blocked[log[i].key] == QuotaReset(r, log[i]).value)
  }

  /** A key is blocked only because it was before, or because of a quota error in this run. */
  ghost predicate BlockedForAReason(r: Request, log: Log, before: map<string, Option<int>>, key: string) {
    key in before || exists i :: 0 <= i < |log| && log[i].key == key && QuotaReset(r, log[i]).Some?
  }

  /** Tries begun on plan entry `e`. */
  function TriesOf(log: Log, e: nat): nat {
    if log == [] then 0
    else TriesOf(log[..|log| - 1], e) + if log[|log| - 1].entry == e && log[|log| - 1].index == 0 then 1 else 0
  }

  function TriesBegun(log: Log): nat {
    if log == [] then 0 else TriesBegun(log[..|log| - 1]) + if log[|log| - 1].index == 0 then 1 else 0
  }

  function Allowed(e: Routing.Entry): nat { 1 + Max(0, e.sameRouteRetries) }

  function AllAllowed(entries: seq<Routing.Entry>): nat {
    if entries == [] then 0 else AllAllowed(entries[..|entries| - 1]) + Allowed(entries[|entries| - 1])
  }

  // ---------------------------------------------------------------- one more try

  lemma {:induction false} CountTry(r: Request, log: Log, more: Log, entry: nat, key: string, at: int, first: nat,
                                    e: nat)
    requires forall k :: 0 <= k < |more| ==> Placed(more[k], k, entry, key, at, first)
    ensures TriesOf(log + more, e) == TriesOf(log, e) + if e == entry && more != [] then 1 else 0
    ensures TriesBegun(log + more) == TriesBegun(log) + if more != [] then 1 else 0
  {
    if more == [] {
      assert log + more == log;
    } else {
      var init := more[..|more| - 1];
      CountTry(r, log, init, entry, key, at, first, e);
      assert (log + more)[..|log + more| - 1] == log + init;
      assert Placed(more[|more| - 1], |more| - 1, entry, key, at, first);
    }
  }

  lemma TryGoesOn(log: Log, more: Log, i: nat)
    requires i < |log + more| && more != [] && more[0].index == 0
    requires forall k :: 0 <= k < |more| ==> more[k].index == k
    ensures GoesOn(log + more, i) <==> if i < |log| then GoesOn(log, i) else i - |log| + 1 < |more|
  {}

  lemma TryKeepsNumbers(r: Request, log: Log, more: Log, entry: nat, key: string, at: int)
    requires Numbered(log) && IsTry(r, more, entry, key, at, |log| + 1)
    ensures Numbered(log + more)
  {
    hide Continues;
    forall i | 0 <= i < |log + more| ensures (log + more)[i].number == i + 1 {
      if i >= |log| { assert Placed(more[i - |log|], i - |log|, entry, key, at, |log| + 1); }
    }
  }

  lemma TryKeepsProbing(r: Request, log: Log, more: Log, entry: nat, key: string, at: int)
    requires ProbesExactly(r, log) && IsTry(r, more, entry, key, at, |log| + 1)
    ensures ProbesExactly(r, log + more)
  {
    hide Continues, GoesOn;
    var all := log + more;
    assert forall k :: 0 <= k < |more| ==> Placed(more[k], k, entry, key, at, |log| + 1);
    forall i | 0 <= i < |all|
      ensures all[i].left == LeftAfter(all[i])
      ensures GoesOn(all, i) <==> Continues(r, all[i]) && all[i].left > 0
      ensures GoesOn(all, i) ==> FollowsOn(all[i], all[i + 1])
    {
      TryGoesOn(log, more, i);
      if i < |log| {
        assert all[i] == log[i];
        if GoesOn(log, i) { assert all[i + 1] == log[i + 1] by { GoesOnInside(log, i); } }
      } else {
        assert all[i] == more[i - |log|] && Placed(more[i - |log|], i - |log|, entry, key, at, |log| + 1);
      }
    }
  }

  lemma GoesOnInside(log: Log, i: nat)
    requires i < |log| && GoesOn(log, i)
    ensures i + 1 < |log|
  {}

  /** A try on a key that was just found unblocked keeps the quota law. */
  lemma TryKeepsQuota(r: Request, log: Log, more: Log, entry: nat, key: string, at: int,
                      blocked: map<string, Option<int>>)
    requires QuotaKept(r, log) && Held(r, log, blocked, at) && key !in blocked
    requires IsTry(r, more, entry, key, at, |log| + 1)
    ensures QuotaKept(r, log + more)
    ensures var reset := QuotaReset(r, more[|more| - 1]);
            Held(r, log + more, if reset.Some? then blocked[key := reset.value] else blocked, at)
  {
    hide Continues, GoesOn, QuotaReset;
    var all := log + more;
    assert forall k :: 0 <= k < |more| ==> Placed(more[k], k, entry, key, at, |log| + 1);
    forall i | 0 <= i < |all|
      ensures GoesOn(all, i) <==> if i < |log| then GoesOn(log, i) else i - |log| + 1 < |more|
      ensures all[i] == if i < |log| then log[i] else more[i - |log|]
      ensures i >= |log| ==> all[i].key == key && all[i].checkedAt == at
    {
      TryGoesOn(log, more, i);
      if i >= |log| { assert Placed(more[i - |log|], i - |log|, entry, key, at, |log| + 1); }
    }
  }

  lemma LaterHeld(r: Request, log: Log, blocked: map<string, Option<int>>, then_: int, now: int)
    requires Held(r, log, blocked, then_) && then_ <= now
    ensures Held(r, log, blocked, now)
  {
    hide GoesOn, QuotaReset;
  }

  lemma ExpiredHeld(r: Request, log: Log, blocked: map<string, Option<int>>, key: string, now: int)
    requires Held(r, log, blocked, now) && (key in blocked ==> Elapsed(blocked[key], now))
    ensures Held(r, log, blocked - {key}, now)
  {
    hide GoesOn, QuotaReset;
  }

  // ---------------------------------------------------------------- bookkeeping of a run

  ghost predicate LogLaws(r: Request, log: Log) {
    Numbered(log) && ProbesExactly(r, log) && QuotaKept(r, log) && |log| <= MAXIMUM_ATTEMPTS
  }

  /**
   Entries before `current` have used up what they may, `current` is at its `tries`-th try, later ones are
   untouched.
   */
  ghost predicate Counts(log: Log, entries: seq<Routing.Entry>, current: nat, tries: nat) {
    && current <= |entries|
    && (forall e: nat :: e < current ==> TriesOf(log, e) <= Allowed(entries[e]))
    && TriesOf(log, current) == tries
    && (forall e: nat :: e > current ==> TriesOf(log, e) == 0)
    && TriesBegun(log) <= AllAllowed(entries[..current]) + tries
  }

  lemma CountsAfterTry(r: Request, log: Log, more: Log, entries: seq<Routing.Entry>, current: nat, tries: nat,
                       key: string, at: int)
    requires Counts(log, entries, current, tries) && IsTry(r, more, current, key, at, |log| + 1)
    ensures Counts(log + more, entries, current, tries + 1)
  {
    hide TriesOf, TriesBegun, AllAllowed, Continues;
    CountTry(r, log, more, current, key, at, |log| + 1, current);
    forall e: nat ensures TriesOf(log + more, e) == TriesOf(log, e) + if e == current then 1 else 0 {
      CountTry(r, log, more, current, key, at, |log| + 1, e);
    }
  }

  lemma CountsAfterEntry(log: Log, entries: seq<Routing.Entry>, current: nat, tries: nat)
    requires current < |entries| && Counts(log, entries, current, tries) && tries <= Allowed(entries[current])
    ensures Counts(log, entries, current + 1, 0)
  {
    hide TriesOf, TriesBegun, Allowed;
    assert entries[..current + 1][..current] == entries[..current];
  }

  /** After its `tries`-th try the entry is to be tried again: the error allows it, and tries and attempts are left. */
  ghost predicate RetryDue(r: Request, a: Attempt, e: Routing.Entry, tries: nat) {
    var m := MeantBy(r, a);
    && m.Failure? && ClassOf(m.error) in {Retry.RateLimit, Retry.Timeout, Retry.Transport, Retry.Server}
    && tries <= e.sameRouteRetries && a.number < MAXIMUM_ATTEMPTS - 1
  }

  /** The entry was tried, and its last attempt is not to be followed by a retry. */
  ghost predicate GivenUp(r: Request, log: Log, e: nat, entry: Routing.Entry) {
    exists i ::
      && 0 <= i < |log| && log[i].entry == e && (forall j :: i < j < |log| ==> log[j].entry != e)
      && !RetryDue(r, log[i], entry, TriesOf(log, e))
  }

  lemma StaysGivenUp(r: Request, log: Log, more: Log, e: nat, entry: Routing.Entry)
    requires GivenUp(r, log, e, entry) && TriesOf(log + more, e) == TriesOf(log, e)
    requires forall k :: 0 <= k < |more| ==> more[k].entry != e
    ensures GivenUp(r, log + more, e, entry)
  {
    hide RetryDue, TriesOf;
    var i :| && 0 <= i < |log| && log[i].entry == e && (forall j :: i < j < |log| ==> log[j].entry != e)
             && !RetryDue(r, log[i], entry, TriesOf(log, e));
    assert (log + more)[i] == log[i];
  }

  /** Why an entry was left behind. */
  datatype Why = Exhausted | KeyBlocked | NoStructuredOutput | Unconfigured

  function KeyOf(route: Matcher.Route): string {
    if route.executionKey == "" then route.provider else route.executionKey
  }

  ghost predicate Settles(r: Request, log: Log, before: map<string, Option<int>>, entries: seq<Routing.Entry>, e: nat,
                          why: Why)
    requires e < |entries|
  {
    match why
    case Exhausted => GivenUp(r, log, e, entries[e])
    case KeyBlocked => BlockedForAReason(r, log, before, KeyOf(entries[e].route))
    case NoStructuredOutput => r.requireStructured && !entries[e].route.capabilities.structuredOutput
    case Unconfigured => exists i :: 0 <= i < |log| && log[i].entry == e && log[i].what == NotConfigured
  }

  ghost predicate AllSettle(r: Request, log: Log, before: map<string, Option<int>>, entries: seq<Routing.Entry>,
                            settled: seq<Why>) {
    |settled| <= |entries| && forall e :: 0 <= e < |settled| ==> Settles(r, log, before, entries, e, settled[e])
  }

  ghost predicate Reasons(r: Request, log: Log, before: map<string, Option<int>>, blocked: map<string, Option<int>>) {
    forall key :: key in blocked ==> BlockedForAReason(r, log, before, key)
  }

  lemma ReasonsGrow(r: Request, log: Log, more: Log, before: map<string, Option<int>>, key: string)
    requires BlockedForAReason(r, log, before, key)
    ensures BlockedForAReason(r, log + more, before, key)
  {
    hide QuotaReset;
    if key !in before {
      var i :| 0 <= i < |log| && log[i].key == key && QuotaReset(r, log[i]).Some?;
      assert (log + more)[i] == log[i];
    }
  }

  lemma {:induction false} TriesGrow(log: Log, more: Log, e: nat)
    ensures TriesOf(log, e) <= TriesOf(log + more, e)
  {
    if more == [] {
      assert log + more == log;
    } else {
      TriesGrow(log, more[..|more| - 1], e);
      assert (log + more)[..|log + more| - 1] == log + more[..|more| - 1];
    }
  }

  lemma SettlesGrows(r: Request, log: Log, more: Log, before: map<string, Option<int>>, entries: seq<Routing.Entry>,
                     settled: seq<Why>, current: nat, key: string, at: int)
    requires AllSettle(r, log, before, entries, settled) && |settled| <= current
    requires IsTry(r, more, current, key, at, |log| + 1)
    ensures AllSettle(r, log + more, before, entries, settled)
  {
    hide QuotaReset, BlockedForAReason, TriesOf, GivenUp, Continues;
    forall e | 0 <= e < |settled| ensures Settles(r, log + more, before, entries, e, settled[e]) {
      assert Settles(r, log, before, entries, e, settled[e]);
      match settled[e]
      case Exhausted =>
        CountTry(r, log, more, current, key, at, |log| + 1, e);
        assert forall k :: 0 <= k < |more| ==> Placed(more[k], k, current, key, at, |log| + 1);
        StaysGivenUp(r, log, more, e, entries[e]);
      case KeyBlocked => ReasonsGrow(r, log, more, before, KeyOf(entries[e].route));
      case NoStructuredOutput =>
      case Unconfigured =>
        var i :| 0 <= i < |log| && log[i].entry == e && log[i].what == NotConfigured;
        assert (log + more)[i] == log[i];
    }
  }

  lemma ReasonsAfterTry(r: Request, log: Log, more: Log, before: map<string, Option<int>>,
                        blocked: map<string, Option<int>>, key: string)
    requires Reasons(r, log, before, blocked) && more != [] && more[|more| - 1].key == key
    ensures var reset := QuotaReset(r, more[|more| - 1]);
            Reasons(r, log + more, before, if reset.Some? then blocked[key := reset.value] else blocked)
  {
    hide QuotaReset;
    var all := log + more;
    assert all[|all| - 1] == more[|more| - 1];
    forall k | k in blocked ensures BlockedForAReason(r, all, before, k) { ReasonsGrow(r, log, more, before, k); }
  }

  // ---------------------------------------------------------------- after a failed try

  function DelayOf(seconds: Option<int>): Option<Retry.Duration> {
    if seconds.None? then None else Some(Wrap64(seconds.value * 1_000_000_000))
  }

  /** Two's-complement truncation to 64 bits. */
  function Wrap64(n: int): int64 {
    ((n + 0x8000_0000_0000_0000) % 0x1_0000_0000_0000_0000 - 0x8000_0000_0000_0000) as int64
  }

  function RunPolicy(): Retry.Policy { Retry.DefaultPolicy().(maximumAttempts := MAXIMUM_ATTEMPTS) }

  function RetryInput(e: CallError, route: Matcher.Route, attempts: nat, after: int, retries: int,
                      now: int): Retry.Input {
    Retry.Input(RunPolicy(), attempts, now, None, ClassOf(e),
                if e.Upstream? then DelayOf(e.retryAfterSeconds) else None,
                Retry.NothingSent, !route.free, after, true, retries, after, MAXIMUM_ATTEMPTS - attempts)
  }

  /** The retry engine's decision, except that a terminal one moves on while later entries remain. */
  function NextAction(input: Retry.Input): (Retry.Action, Retry.Duration) {
    var d := Retry.Decide(input);
    if d.action != Retry.RetrySameRoute && d.action != Retry.FailOver && input.planEntriesRemaining > 0
       && input.class_ != Retry.Cancelled
    then (Retry.FailOver, 0) else (d.action, d.delay)
  }

  /** A run stops at an error exactly when this was the last entry and no retry is due. */
  lemma NextActionExactly(e: CallError, route: Matcher.Route, attempts: nat, after: int, retries: int, now: int)
    requires 1 <= attempts
    ensures var action := NextAction(RetryInput(e, route, attempts, after, retries, now)).0;
            && (action == Retry.RetrySameRoute <==>
                  ClassOf(e) in {Retry.RateLimit, Retry.Timeout, Retry.Transport, Retry.Server} && retries > 0
                  && attempts < MAXIMUM_ATTEMPTS - 1)
            && (action == Retry.FailOver <==> action != Retry.RetrySameRoute && after > 0)
  {
    hide Retry.Decide;
    var input := RetryInput(e, route, attempts, after, retries, now);
    Retry.SameRouteRetryExactly(input);
    Retry.FailOverExactly(input);
  }

  function StatusFor(e: CallError): int {
    if e.Upstream? && 400 <= e.status <= 599 then e.status else 502
  }

  datatype FailureCode = AllProviderAttemptsFailed | AllSubscriptionQuotasExhausted | NoFallbackRoute

  datatype Outcome = Completed(ok: bool) | Failed(status: int, code: FailureCode, attempts: nat) | Interrupted

  /** Every try made do with one attempt. */
  ghost predicate OneAttemptEach(log: Log) { forall i :: 0 <= i < |log| ==> log[i].index == 0 }

  lemma {:induction false} OneAttemptEachCounts(log: Log)
    requires OneAttemptEach(log)
    ensures TriesBegun(log) == |log|
  {
    if log != [] { OneAttemptEachCounts(log[..|log| - 1]); }
  }

  lemma {:induction false} AllowedGrows(entries: seq<Routing.Entry>, i: nat)
    requires i <= |entries|
    ensures AllAllowed(entries[..i]) <= AllAllowed(entries)
  {
    hide Allowed;
    if i < |entries| {
      assert entries[..|entries| - 1][..i] == entries[..i];
      AllowedGrows(entries[..|entries| - 1], i);
    } else {
      assert entries[..i] == entries;
    }
  }

  /** A budget that covers every allowed try is not what ends a run of one-attempt tries. */
  lemma BudgetSuffices(log: Log, entries: seq<Routing.Entry>, current: nat, tries: nat)
    requires Counts(log, entries, current, tries) && OneAttemptEach(log)
    requires current < |entries| && tries < Allowed(entries[current])
    requires AllAllowed(entries) <= MAXIMUM_ATTEMPTS
    ensures |log| < MAXIMUM_ATTEMPTS
  {
    OneAttemptEachCounts(log);
    AllowedGrows(entries, current + 1);
    assert entries[..current + 1][..current] == entries[..current];
  }

  lemma TryFits(r: Request, log: Log, more: Log, entry: nat, key: string, at: int)
    requires |log| < MAXIMUM_ATTEMPTS && IsTry(r, more, entry, key, at, |log| + 1)
    ensures |log + more| <= MAXIMUM_ATTEMPTS
  {
    hide Continues;
    if |more| > 1 {
      var a := more[|more| - 2];
      assert Placed(a, |more| - 2, entry, key, at, |log| + 1) && a.left > 0;
    }
  }

  /** Everything one more try keeps, once a final quota error has blocked its key. */
  lemma TryKeepsLaws(r: Request, log: Log, more: Log, entries: seq<Routing.Entry>, before: map<string, Option<int>>,
                     current: nat, tries: nat, settled: seq<Why>, key: string, at: int,
                     blocked: map<string, Option<int>>)
    requires LogLaws(r, log) && Held(r, log, blocked, at) && |log| < MAXIMUM_ATTEMPTS && key !in blocked
    requires Counts(log, entries, current, tries) && AllSettle(r, log, before, entries, settled)
             && Reasons(r, log, before, blocked) && |settled| <= current
    requires IsTry(r, more, current, key, at, |log| + 1)
    ensures LogLaws(r, log + more) && Counts(log + more, entries, current, tries + 1)
    ensures AllSettle(r, log + more, before, entries, settled)
    ensures var reset := QuotaReset(r, more[|more| - 1]);
            var blocked' := if reset.Some? then blocked[key := reset.value] else blocked;
            Held(r, log + more, blocked', at) && Reasons(r, log + more, before, blocked')
  {
    TryKeepsNumbers(r, log, more, current, key, at);
    TryKeepsProbing(r, log, more, current, key, at);
    TryKeepsQuota(r, log, more, current, key, at, blocked);
    TryFits(r, log, more, current, key, at);
    CountsAfterTry(r, log, more, entries, current, tries, key, at);
    SettlesGrows(r, log, more, before, entries, settled, current, key, at);
    assert more[|more| - 1].key == key by {
      hide Continues;
      assert Placed(more[|more| - 1], |more| - 1, current, key, at, |log| + 1);
    }
    hide *;
    ReasonsAfterTry(r, log, more, before, blocked, key);
  }

  /** The attempts go through the plan in its order, on the keys of its routes, and come back only for a due retry. */
  ghost predicate FollowsPlan(r: Request, log: Log, entries: seq<Routing.Entry>) {
    && (forall i, j :: 0 <= i < j < |log| ==> log[i].entry <= log[j].entry)
    && (forall i :: 0 <= i < |log| ==>
          log[i].entry < |entries| && log[i].key == KeyOf(entries[log[i].entry].route))
    && (forall i :: 0 <= i < |log| - 1 && log[i + 1].index == 0 && log[i + 1].entry == log[i].entry ==>
          RetryDue(r, log[i], entries[log[i].entry], TriesOf(log[..i + 1], log[i].entry)))
  }

  /** Nothing beyond the current entry has been tried, and the current one only if `tries` says so. */
  ghost predicate UpToEntry(r: Request, log: Log, entries: seq<Routing.Entry>, current: nat, tries: nat) {
    FollowsPlan(r, log, entries)
    && forall i :: 0 <= i < |log| ==> log[i].entry <= current && (tries == 0 ==> log[i].entry < current)
  }

  /** The current entry is new, or a retry of it is due. */
  ghost predicate MayTry(r: Request, log: Log, entries: seq<Routing.Entry>, current: nat, tries: nat) {
    tries > 0 ==>
      && log != [] && log[|log| - 1].entry == current < |entries|
      && RetryDue(r, log[|log| - 1], entries[current], tries)
  }

  lemma TryKeepsOrder(r: Request, log: Log, more: Log, entries: seq<Routing.Entry>, current: nat, tries: nat,
                      key: string, at: int)
    requires UpToEntry(r, log, entries, current, tries) && MayTry(r, log, entries, current, tries)
    requires IsTry(r, more, current, key, at, |log| + 1) && TriesOf(log, current) == tries
    requires current < |entries| && key == KeyOf(entries[current].route)
    ensures UpToEntry(r, log + more, entries, current, tries + 1)
    ensures var last := (log + more)[|log + more| - 1]; last.entry == current && last.number == |log + more|
  {
    hide Continues, KeyOf, RetryDue, TriesOf;
    var all := log + more;
    forall i | |log| <= i < |all|
      ensures all[i].entry == current && all[i].key == key && all[i].index == i - |log| && all[i].number == i + 1
    {
      assert Placed(more[i - |log|], i - |log|, current, key, at, |log| + 1);
    }
    forall i | 0 <= i < |all| - 1 && all[i + 1].index == 0 && all[i + 1].entry == all[i].entry
      ensures RetryDue(r, all[i], entries[all[i].entry], TriesOf(all[..i + 1], all[i].entry))
    {
      assert i < |log| && all[i] == log[i] && all[..i + 1] == log[..i + 1];
      if i == |log| - 1 { assert log[..i + 1] == log; } else { assert all[i + 1] == log[i + 1]; }
    }
  }

  /** The books of a run: its log, the keys it found or got blocked, and what it has settled so far. */
  ghost predicate Books(r: Request, log: Log, blocked: map<string, Option<int>>, entries: seq<Routing.Entry>,
                        before: map<string, Option<int>>, current: nat, tries: nat, settled: seq<Why>, now: int) {
    && LogLaws(r, log) && Held(r, log, blocked, now)
    && Counts(log, entries, current, tries) && |settled| == current && UpToEntry(r, log, entries, current, tries)
    && AllSettle(r, log, before, entries, settled) && Reasons(r, log, before, blocked)
  }

  lemma BooksSay(r: Request, log: Log, blocked: map<string, Option<int>>, entries: seq<Routing.Entry>,
                 before: map<string, Option<int>>, current: nat, tries: nat, settled: seq<Why>, now: int)
    requires Books(r, log, blocked, entries, before, current, tries, settled, now)
    ensures |settled| == current && TriesOf(log, current) == tries && UpToEntry(r, log, entries, current, tries)
  {}

  /** Between tries: nothing begun on the current entry, or exactly the retries left that it has not used. */
  predicate RetriesLeft(entries: seq<Routing.Entry>, current: nat, retries: int, tries: nat) {
    if retries < 0 then tries == 0 else current < |entries| && tries + retries == entries[current].sameRouteRetries
  }

  lemma RunStarts(r: Request, entries: seq<Routing.Entry>, before: map<string, Option<int>>, now: int)
    ensures Books(r, [], before, entries, before, 0, 0, [], now)
  {
    hide Continues, QuotaReset;
  }

  lemma TimePasses(r: Request, log: Log, blocked: map<string, Option<int>>, entries: seq<Routing.Entry>,
                   before: map<string, Option<int>>, current: nat, tries: nat, settled: seq<Why>, then_: int, now: int,
                   key: string)
    requires Books(r, log, blocked, entries, before, current, tries, settled, then_) && then_ <= now
    ensures Books(r, log, blocked, entries, before, current, tries, settled, now)
    ensures (key in blocked ==> Elapsed(blocked[key], now)) ==>
              Books(r, log, blocked - {key}, entries, before, current, tries, settled, now)
  {
    LaterHeld(r, log, blocked, then_, now);
    if key in blocked ==> Elapsed(blocked[key], now) { ExpiredHeld(r, log, blocked, key, now); }
    hide LogLaws, Held, Counts, AllSettle, BlockedForAReason;
  }

  lemma OneMoreReason(r: Request, log: Log, entries: seq<Routing.Entry>, before: map<string, Option<int>>,
                      settled: seq<Why>, why: Why)
    requires AllSettle(r, log, before, entries, settled) && |settled| < |entries|
    requires Settles(r, log, before, entries, |settled|, why)
    ensures AllSettle(r, log, before, entries, settled + [why])
  {
    hide Settles;
  }

  lemma EntryLeft(r: Request, log: Log, blocked: map<string, Option<int>>, entries: seq<Routing.Entry>,
                  before: map<string, Option<int>>, current: nat, tries: nat, settled: seq<Why>, now: int, why: Why)
    requires Books(r, log, blocked, entries, before, current, tries, settled, now)
    requires current < |entries| && tries <= Allowed(entries[current]) && Settles(r, log, before, entries, current, why)
    ensures Books(r, log, blocked, entries, before, current + 1, 0, settled + [why], now)
  {
    CountsAfterEntry(log, entries, current, tries);
    OneMoreReason(r, log, entries, before, settled, why);
    hide LogLaws, Held, Counts, AllSettle, Settles, Reasons, FollowsPlan;
  }

  /**
   What a finished run has on record: a lawful log in the plan's order, no entry tried more often than allowed, a
   reason for each one left.
   */
  ghost predicate Accounted(r: Request, log: Log, entries: seq<Routing.Entry>, before: map<string, Option<int>>,
                            settled: seq<Why>) {
    && LogLaws(r, log) && FollowsPlan(r, log, entries) && AllSettle(r, log, before, entries, settled)
    && forall e: nat :: e < |entries| ==> TriesOf(log, e) <= Allowed(entries[e])
  }

  lemma TriesAreAllowed(r: Request, log: Log, blocked: map<string, Option<int>>, entries: seq<Routing.Entry>,
                        before: map<string, Option<int>>, current: nat, tries: nat, settled: seq<Why>, now: int)
    requires Books(r, log, blocked, entries, before, current, tries, settled, now)
    requires current < |entries| ==> tries <= Allowed(entries[current])
    ensures Accounted(r, log, entries, before, settled)
  {
    hide LogLaws, Held, AllSettle, Reasons, TriesOf, Allowed;
    forall e: nat | e < |entries| ensures TriesOf(log, e) <= Allowed(entries[e]) {
      if e == current { assert TriesOf(log, current) == tries; }
    }
  }

  lemma BudgetEndsFairly(r: Request, log: Log, blocked: map<string, Option<int>>, entries: seq<Routing.Entry>,
                         before: map<string, Option<int>>, current: nat, retries: int, tries: nat, settled: seq<Why>,
                         now: int)
    requires Books(r, log, blocked, entries, before, current, tries, settled, now)
             && RetriesLeft(entries, current, retries, tries)
    requires |log| >= MAXIMUM_ATTEMPTS
    ensures FailsFairly(log, entries, settled)
  {
    hide Held, AllSettle, Reasons, Numbered, ProbesExactly, QuotaKept;
    if OneAttemptEach(log) && AllAllowed(entries) <= MAXIMUM_ATTEMPTS && current < |entries| {
      BudgetSuffices(log, entries, current, tries);
    }
  }

  /** A run fails only with every entry settled or its attempts used up; and attempts suffice if each try needs one. */
  ghost predicate FailsFairly(log: Log, entries: seq<Routing.Entry>, settled: seq<Why>) {
    && (|settled| == |entries| || |log| == MAXIMUM_ATTEMPTS)
    && (OneAttemptEach(log) && AllAllowed(entries) <= MAXIMUM_ATTEMPTS ==> |settled| == |entries|)
  }

  lemma AllSettled(r: Request, log: Log, blocked: map<string, Option<int>>, entries: seq<Routing.Entry>,
                   before: map<string, Option<int>>, current: nat, tries: nat, settled: seq<Why>, now: int)
    requires Books(r, log, blocked, entries, before, current, tries, settled, now) && current == |entries|
    ensures FailsFairly(log, entries, settled)
  {
    hide LogLaws, Held, Counts, AllSettle, Reasons;
  }

  predicate AnyKeyBlocked(settled: seq<Why>) { exists i :: 0 <= i < |settled| && settled[i].KeyBlocked? }

  lemma OneMoreSettled(settled: seq<Why>, why: Why)
    ensures AnyKeyBlocked(settled + [why]) <==> AnyKeyBlocked(settled) || why.KeyBlocked?
    ensures !AnyKeyBlocked([])
  {
    var all := settled + [why];
    if AnyKeyBlocked(settled) {
      var i :| 0 <= i < |settled| && settled[i].KeyBlocked?;
      assert all[i].KeyBlocked?;
    }
    assert all[|settled|] == why;
  }

  /** Leaving an entry without another try: its key is blocked, or the structured output it needs is not there. */
  lemma EntrySkipped(r: Request, log: Log, blocked: map<string, Option<int>>, entries: seq<Routing.Entry>,
                     before: map<string, Option<int>>, current: nat, tries: nat, settled: seq<Why>, now: int, why: Why)
    requires Books(r, log, blocked, entries, before, current, tries, settled, now)
    requires current < |entries| && tries <= Allowed(entries[current])
    requires why == NoStructuredOutput ==> r.requireStructured && !entries[current].route.capabilities.structuredOutput
    requires why == KeyBlocked ==> KeyOf(entries[current].route) in blocked
    requires why == NoStructuredOutput || why == KeyBlocked
    ensures Books(r, log, blocked, entries, before, current + 1, 0, settled + [why], now)
    ensures AnyKeyBlocked(settled + [why]) <==> AnyKeyBlocked(settled) || why == KeyBlocked
  {
    OneMoreSettled(settled, why);
    hide LogLaws, Held, Counts, AllSettle, BlockedForAReason, KeyOf;
    EntryLeft(r, log, blocked, entries, before, current, tries, settled, now, why);
  }

  /** Leaving an entry after its last try; a run that stops at the last one has settled every entry. */
  lemma EntryTried(r: Request, log: Log, blocked: map<string, Option<int>>, entries: seq<Routing.Entry>,
                   before: map<string, Option<int>>, current: nat, tries: nat, settled: seq<Why>, now: int)
    requires Books(r, log, blocked, entries, before, current, tries, settled, now)
    requires current < |entries| && 0 < tries <= Allowed(entries[current])
    requires log != [] && log[|log| - 1].entry == current && !RetryDue(r, log[|log| - 1], entries[current], tries)
    ensures Books(r, log, blocked, entries, before, current + 1, 0, settled + [Exhausted], now)
    ensures current + 1 == |entries| ==> FailsFairly(log, entries, settled + [Exhausted])
  {
    hide LogLaws, Held, AllSettle, Reasons, TriesOf, RetryDue, UpToEntry;
    assert GivenUp(r, log, current, entries[current]);
    EntryLeft(r, log, blocked, entries, before, current, tries, settled, now, Exhausted);
  }

  /** No attempt brought anything usable. */
  ghost predicate AllFailed(r: Request, log: Log) {
    forall i :: 0 <= i < |log| ==> MeantBy(r, log[i]).Failure?
  }

  /** Only the last attempt can have brought anything usable. */
  ghost predicate OnlyLastDelivers(r: Request, log: Log) {
    forall i :: 0 <= i < |log| - 1 ==> MeantBy(r, log[i]).Failure?
  }

  lemma NothingFailed(r: Request, log: Log)
    ensures AllFailed(r, [])
    ensures AllFailed(r, log) ==> OnlyLastDelivers(r, log)
  {}

  lemma TryDeliversLast(r: Request, log: Log, more: Log, entry: nat, key: string, at: int)
    requires AllFailed(r, log) && IsTry(r, more, entry, key, at, |log| + 1)
    ensures OnlyLastDelivers(r, log + more)
    ensures MeantBy(r, more[|more| - 1]).Failure? ==> AllFailed(r, log + more)
  {
    hide Meant;
    var all := log + more;
    forall i | 0 <= i < |all| - 1 ensures MeantBy(r, all[i]).Failure? {
      if i >= |log| {
        var a := more[i - |log|];
        assert Continues(r, a);
      }
    }
  }

  lemma UnconfiguredFails(r: Request, a: Attempt)
    requires a.what == NotConfigured
    ensures QuotaReset(r, a).None? && !Continues(r, a) && MeantBy(r, a).Failure?
  {
    hide Meant;
  }

  lemma Unconfigures(r: Request, log: Log, a: Attempt, entries: seq<Routing.Entry>, before: map<string, Option<int>>,
                     current: nat, tries: nat, settled: seq<Why>, key: string, at: int,
                     blocked: map<string, Option<int>>)
    requires Books(r, log, blocked, entries, before, current, tries, settled, at) && AllFailed(r, log)
    requires MayTry(r, log, entries, current, tries)
    requires |log| < MAXIMUM_ATTEMPTS && key !in blocked && current < |entries|
             && tries + 1 <= Allowed(entries[current]) && key == KeyOf(entries[current].route)
    requires a.what == NotConfigured && a.known && Placed(a, 0, current, key, at, |log| + 1)
    ensures Books(r, log + [a], blocked, entries, before, current + 1, 0, settled + [Unconfigured], at)
            && AllFailed(r, log + [a])
  {
    hide LogLaws, Held, Counts, AllSettle, Reasons, AllFailed, MeantBy, QuotaReset, Continues, Allowed,
         BlockedForAReason;
    UnconfiguredFails(r, a);
    TryKeepsLaws(r, log, [a], entries, before, current, tries, settled, key, at, blocked);
    BooksSay(r, log, blocked, entries, before, current, tries, settled, at);
    TryKeepsOrder(r, log, [a], entries, current, tries, key, at);
    TryDeliversLast(r, log, [a], current, key, at);
    assert Settles(r, log + [a], before, entries, current, Unconfigured) by { assert (log + [a])[|log|] == a; }
    EntryLeft(r, log + [a], blocked, entries, before, current, tries + 1, settled, at, Unconfigured);
  }

  datatype Client = Absent | Plain | Translating(hinted: Format)

  datatype Probe = Probe(supported: bool, known: bool, failed: bool)

  /** Everything outside the program, as answers to the run's successive questions. */
  datatype World = World(
    clock: nat -> int, probe: nat -> Probe, client: nat -> Client, storedFormat: nat -> Option<Format>,
    prepares: nat -> bool, reply: nat -> Reply, raw: nat -> RawReply, waited: nat -> bool)
  {
    /** What trying one format comes to when the run's next question is number `t`. */
    function Answer(t: nat): What { if prepares(t) then Called(reply(t + 1)) else Unencodable }

    ghost predicate Answers(what: What) { exists t: nat :: what == Answer(t) }
  }

  /** A try under way: `used` of its formats tried, and whether the last one stopped it. */
  ghost predicate Under(r: Request, w: World, more: Log, used: nat, formats: seq<Format>, stopped: bool, known: bool,
                        entry: nat, key: string, at: int, first: nat) {
    && |more| == used <= |formats|
    && (forall k :: 0 <= k < used ==>
          && Placed(more[k], k, entry, key, at, first)
          && more[k].left == |formats| - 1 - k && more[k].format == formats[k]
          && more[k].known == known && w.Answers(more[k].what))
    && (forall k :: 0 <= k < (if stopped then used - 1 else used) ==> Continues(r, more[k]))
    && (stopped ==> used > 0 && !Continues(r, more[used - 1]))
  }

  /** Each attempt got an answer of the world, in a format of the list in its order. */
  ghost predicate Tried(w: World, more: Log, known: bool, search: seq<Format>) {
    |more| <= |search|
    && forall k :: 0 <= k < |more| ==> w.Answers(more[k].what) && more[k].known == known && more[k].format == search[k]
  }

  lemma TriedPrefix(w: World, more: Log, known: bool, search: seq<Format>, n: nat)
    requires Tried(w, more, known, UpTo(search, n))
    ensures Tried(w, more, known, search)
  {}

  lemma NothingTried(r: Request, w: World, formats: seq<Format>, known: bool, entry: nat, key: string, at: int,
                     first: nat)
    ensures Under(r, w, [], 0, formats, false, known, entry, key, at, first)
  {}

  lemma TryEnds(r: Request, w: World, more: Log, used: nat, formats: seq<Format>, stopped: bool, known: bool,
                entry: nat, key: string, at: int, first: nat)
    requires Under(r, w, more, used, formats, stopped, known, entry, key, at, first)
    requires 0 < used && (stopped || used == |formats|)
    ensures IsTry(r, more, entry, key, at, first)
    ensures Tried(w, more, known, formats)
  {
    hide Continues, World.Answers;
  }

  lemma TryGrows(r: Request, w: World, more: Log, a: Attempt, used: nat, formats: seq<Format>, known: bool,
                 entry: nat, key: string, at: int, first: nat)
    requires Under(r, w, more, used, formats, false, known, entry, key, at, first) && used < |formats|
    requires |formats| == if known then 1 else Min(3, MAXIMUM_ATTEMPTS - first + 1)
    requires a == Attempt(first + used, entry, used, |formats| - used - 1, key, at, known, formats[used], a.what)
             && w.Answers(a.what)
    ensures Under(r, w, more + [a], used + 1, formats, !Continues(r, a), known, entry, key, at, first)
  {
    hide Continues, World.Answers;
    assert Placed(a, used, entry, key, at, first);
  }

  ghost predicate ClockRuns(w: World) {
    forall s: nat, t: nat :: s <= t ==> w.clock(s) <= w.clock(t)
  }

  class Execution {
    const world: World
    const request: Request
    const out: ClientWriter
    var tick: nat
    var blocked: map<string, Option<int>>
    var formats: map<string, Format>
    var attempts: Log

    constructor (world: World, request: Request, out: ClientWriter, blocked: map<string, Option<int>>,
                 formats: map<string, Format>)
      ensures this.world == world && this.request == request && this.out == out
      ensures this.blocked == blocked && this.formats == formats && attempts == []
    {
      this.world, this.request, this.out := world, request, out;
      this.blocked, this.formats := blocked, formats;
      tick, attempts := 0, [];
    }

    // -------------------------------------------------------------- catalogue state

    method SetProviderBlocked(key: string, until: Option<int>)
      modifies this`blocked
      ensures blocked == old(blocked)[key := until]
    {
      blocked := blocked[key := until];
    }

    /** Whether the key is still limited; an expired limit is dropped. */
    method ProviderBlocked(key: string, now: int) returns (yes: bool)
      modifies this`blocked
      ensures yes <==> key in old(blocked) && (old(blocked)[key].None? || now < old(blocked)[key].value)
      ensures blocked == if yes then old(blocked) else old(blocked) - {key}
    {
      if key !in blocked {
        return false;
      }
      if blocked[key].Some? && now >= blocked[key].value {
        blocked := blocked - {key};
        return false;
      }
      return true;
    }

    method LearnFormat(routeID: string, format: Format)
      modifies this`formats
      ensures formats == if format.Valid() && routeID in old(formats) then old(formats)[routeID := format]
                         else old(formats)
    {
      if format.Valid() && routeID in formats { formats := formats[routeID := format]; }
    }

    method ClearFormat(routeID: string)
      modifies this`formats
      ensures formats == if routeID in old(formats) then old(formats)[routeID := UnknownFormat] else old(formats)
    {
      if routeID in formats { formats := formats[routeID := UnknownFormat]; }
    }

    // -------------------------------------------------------------- calling upstream

    /** One call to a provider. Nothing may have reached the client yet. */
    method Call(a: Attempt) returns (reply: Reply)
      requires out.Untouched()
      modifies this`tick, this`attempts
      ensures tick >= old(tick)
      ensures reply == world.reply(old(tick))
      ensures attempts == old(attempts) + [a.(what := Called(reply))]
    {
      reply := world.reply(tick);
      tick := tick + 1;
      attempts := attempts + [a.(what := Called(reply))];
    }

    method Forward(a: Attempt) returns (raw: RawReply)
      requires out.Untouched()
      modifies this`tick, this`attempts
      ensures tick >= old(tick)
      ensures raw == world.raw(old(tick))
      ensures attempts == old(attempts) + [a.(what := Forwarded(raw))]
    {
      raw := world.raw(tick);
      tick := tick + 1;
      attempts := attempts + [a.(what := Forwarded(raw))];
    }

    /** A usable reply goes to the client; an unusable one leaves it untouched and gives the error. */
    method Deliver(routeID: string, format: Format, reply: Reply) returns (error: Option<CallError>, delivered: bool)
      requires out.Untouched() && request.client.Valid() && !reply.Refused?
      modifies out, this`formats
      ensures var m := Meant(request, format, reply);
              if m.Success? then
                && delivered && out.frames == UpTo(m.value.frames, old(out.budget))
                && (error.None? <==> m.value.Succeeds(old(out.budget)))
              else !delivered && error == Some(m.error) && out.Untouched() && out.budget == old(out.budget)
    {
      hide Streamed, DispatchAll, EndFrames, StartFrames;
      if reply.Events? && request.wantsStream {
        var committed, fault := PumpTranslatedStream(out, request.client, format, reply.frames, reply.readFailed);
        if fault.Some? && !committed {
          StreamedNothing(request.client);
          return fault, false;
        }
        if fault.None? { LearnFormat(routeID, format); }
        return fault, true;
      }
      if reply.Events? {
        var events, fault := StreamResponse(format, reply.frames, reply.readFailed);
        if fault.Some? {
          if events != [] {
            StreamReplayed(events);
            var ok := CompleteTranslatedStream(out, request.client, events, false, true);
            return Some(Local), true;
          }
          return Some(FaultOf(fault.value)), false;
        }
        LearnFormat(routeID, format);
        WholeStream(request.client, events);
        var ok := EncodeStream(request.client, events, out);
        return if ok then None else Some(Local), true;
      }
      if reply.result.Failure? {
        return Some(reply.result.error), false;
      }
      LearnFormat(routeID, format);
      var ok: bool;
      if request.wantsStream {
        ok := CompleteTranslatedStream(out, request.client, [ResponseEvent(reply.result.value)], true, false);
      } else {
        ok := WriteDocument(out, Frame("", Payload(request.document(reply.result.value))));
      }
      return if ok then None else Some(Local), true;
    }

    /** What the last attempt means for the client decides the outcome of a try that found `budget` frames of room. */
    ghost predicate Concluded(budget: nat, error: Option<CallError>, delivered: bool)
      reads this`attempts, out
    {
      && attempts != []
      && var m := MeantBy(request, attempts[|attempts| - 1]);
      if m.Success? then
        && delivered && out.frames == UpTo(m.value.frames, budget)
        && (error.None? <==> m.value.Succeeds(budget))
      else !delivered && error == Some(m.error) && out.Untouched() && out.budget == budget
    }

    /** One candidate format: encode the request, call, and deliver what comes back. */
    method TryFormat(a: Attempt, routeID: string) returns (error: Option<CallError>, delivered: bool, what: What)
      requires out.Untouched() && request.client.Valid()
      modifies this`tick, this`attempts, this`formats, out
      ensures tick >= old(tick)
      ensures what == world.Answer(old(tick)) && world.Answers(what) && attempts == old(attempts) + [a.(what := what)]
      ensures Concluded(old(out.budget), error, delivered)
    {
      hide Meant;
      var prepared := world.prepares(tick);
      tick := tick + 1;
      if !prepared {
        attempts := attempts + [a.(what := Unencodable)];
        return Some(Local), false, Unencodable;
      }
      var reply := Call(a);
      if reply.Refused? {
        RefusedMeans(request, a.format, reply);
        return Some(reply.error), false, Called(reply);
      }
      error, delivered := Deliver(routeID, a.format, reply);
      what := Called(reply);
    }

    /** The format saved for the route, in the database or else in the catalogue. */
    function SavedFormat(routeID: string): Format
      reads this`tick, this`formats
    {
      var stored := world.storedFormat(tick);
      if stored.Some? then stored.value else if routeID in formats then formats[routeID] else UnknownFormat
    }

    /** Whether a format is known for the route: saved or hinted by its endpoint. */
    predicate FormatKnown(routeID: string, hinted: Format)
      reads this`tick, this`formats
    {
      SavedFormat(routeID).Valid() || hinted.Valid()
    }

    /** The formats a try goes through: the one known format, or all three. */
    function SearchList(routeID: string, hinted: Format): seq<Format>
      reads this`tick, this`formats
    {
      var saved := SavedFormat(routeID);
      if saved.Valid() then [saved]
      else if hinted.Valid() then [hinted]
      else FirstSeen(SearchOrder(saved, hinted, request.client))
    }

    /** The search list as far as the attempt budget goes. */
    method FormatsToTry(routeID: string, hinted: Format, remainingBudget: int)
      returns (known: bool, candidates: seq<Format>)
      requires remainingBudget >= 0
      modifies this`tick
      ensures tick >= old(tick)
      ensures known <==> old(FormatKnown(routeID, hinted))
      ensures candidates == UpTo(old(SearchList(routeID, hinted)), remainingBudget + 1)
      ensures |candidates| == if known then 1 else Min(3, remainingBudget + 1)
    {
      hide FirstSeen, SearchOrder;
      var saved := if routeID in formats then formats[routeID] else UnknownFormat;
      if world.storedFormat(tick).Some? { saved := world.storedFormat(tick).value; }
      tick := tick + 1;
      known := saved.Valid() || hinted.Valid();
      candidates := CandidateFormats(saved, hinted, request.client);
      if known {
        candidates := [if saved.Valid() then saved else hinted];
      }
      if |candidates| > remainingBudget + 1 { candidates := candidates[..remainingBudget + 1]; }
    }

    /** executeTranslatedRoute: the formats of one route, one after the other while the evidence allows. */
    method ExecuteTranslatedRoute(entry: nat, routeID: string, key: string, at: int, hinted: Format, firstAttempt: nat,
                                  remainingBudget: int)
      returns (lastErr: Option<CallError>, completed: bool, used: nat)
      requires out.Untouched() && request.client.Valid()
      requires remainingBudget == MAXIMUM_ATTEMPTS - firstAttempt && firstAttempt <= MAXIMUM_ATTEMPTS
      modifies this`tick, this`attempts, this`formats, out
      ensures tick >= old(tick)
      ensures |attempts| == |old(attempts)| + used && attempts[..|old(attempts)|] == old(attempts)
      ensures IsTry(request, attempts[|old(attempts)|..], entry, key, at, firstAttempt)
      ensures Concluded(old(out.budget), lastErr, completed)
      ensures Tried(world, attempts[|old(attempts)|..], old(FormatKnown(routeID, hinted)),
                    old(SearchList(routeID, hinted)))
    {
      ghost var search := SearchList(routeID, hinted);
      hide Meant, MeantBy, Concluded, Continues, ShouldTryNextFormat, UpTo, World.Answers, FormatKnown, SearchList,
           IsTry, Under, Placed, Tried;
      var known, candidates := FormatsToTry(routeID, hinted, remainingBudget);
      var formatFailure, stopped := false, false;
      lastErr, used := None, 0;
      ghost var more: Log := [];
      NothingTried(request, world, candidates, known, entry, key, at, firstAttempt);
      while used < |candidates| && !stopped
        invariant used == |more| <= |candidates| && (stopped ==> used > 0) && attempts == old(attempts) + more
        invariant Under(request, world, more, used, candidates, stopped, known, entry, key, at, firstAttempt)
        invariant used > 0 ==> Concluded(old(out.budget), lastErr, false)
        invariant out.Untouched() && out.budget == old(out.budget) && tick >= old(tick)
      {
        var a := Attempt(firstAttempt + used, entry, used, |candidates| - used - 1, key, at, known, candidates[used],
                         Unencodable);
        var error, delivered, what := TryFormat(a, routeID);
        ConcludedMeans(old(out.budget), error, delivered);
        TryGrows(request, world, more, a.(what := what), used, candidates, known, entry, key, at, firstAttempt);
        more := more + [a.(what := what)];
        used := used + 1;
        if delivered {
          TryEnds(request, world, more, used, candidates, true, known, entry, key, at, firstAttempt);
          TriedPrefix(world, more, known, search, remainingBudget + 1);
          assert attempts[|old(attempts)|..] == more;
          return error, true, used;
        }
        lastErr := error;
        if what.Called? {
          if ShouldTryNextFormat(error.value, !known) { formatFailure := true; } else { stopped := true; }
        }
      }
      TryEnds(request, world, more, used, candidates, stopped, known, entry, key, at, firstAttempt);
      TriedPrefix(world, more, known, search, remainingBudget + 1);
      assert attempts[|old(attempts)|..] == more;
      if formatFailure { ClearFormat(routeID); }
      completed := false;
    }

    /** The legacy path: the client's own body forwarded, the answer passed through unread. */
    method ForwardRaw(a: Attempt) returns (error: Option<CallError>, delivered: bool, what: What)
      requires out.Untouched()
      modifies this`tick, this`attempts, out
      ensures tick >= old(tick)
      ensures what.Forwarded? && attempts == old(attempts) + [a.(what := what)]
      ensures Concluded(old(out.budget), error, delivered)
    {
      hide Through, AnyFailure, AnyTerminal;
      var raw := Forward(a);
      what := Forwarded(raw);
      match raw {
        case RawRefused(e) =>
          return Some(e), false, what;
        case Lines(lines, readFailed) =>
          var ok := PassThrough(out, lines, readFailed);
          LinesFit(lines);
          return if ok then None else Some(Local), true, what;
        case Whole(body, readFailed) =>
          if readFailed {
            return Some(Local), true, what;
          }
          var ignored := WriteDocument(out, body);
          return None, true, what;
      }
    }

    /** One try of a plan entry with a configured client. */
    method TryEntry(entry: nat, route: Matcher.Route, key: string, at: int, client: Client)
      returns (error: Option<CallError>, completed: bool)
      requires out.Untouched() && request.client.Valid() && !client.Absent? && |attempts| < MAXIMUM_ATTEMPTS
      modifies this`tick, this`attempts, this`formats, out
      ensures tick >= old(tick)
      ensures |attempts| > |old(attempts)| && attempts[..|old(attempts)|] == old(attempts)
      ensures IsTry(request, attempts[|old(attempts)|..], entry, key, at, |old(attempts)| + 1)
      ensures Concluded(old(out.budget), error, completed)
    {
      hide Concluded, MeantBy;
      var number := |attempts| + 1;
      if client.Translating? {
        var used: nat;
        error, completed, used := ExecuteTranslatedRoute(entry, route.id, key, at, client.hinted, number,
                                                         MAXIMUM_ATTEMPTS - number);
        return;
      }
      var a := Attempt(number, entry, 0, 0, key, at, true, request.client, NotConfigured);
      var what: What;
      error, completed, what := ForwardRaw(a);
      assert attempts[|old(attempts)|..] == [a.(what := what)];
    }

    /** ensureStructuredOutput, as far as a run depends on it. */
    method StructuredOutput(route: Matcher.Route) returns (usable: bool, failed: bool)
      modifies this`tick
      ensures tick >= old(tick)
      ensures !usable ==> request.requireStructured && !route.capabilities.structuredOutput
    {
      if !request.requireStructured || route.capabilities.structuredOutput {
        return true, false;
      }
      var probe := world.probe(tick);
      tick := tick + 1;
      return probe.known && probe.supported, probe.failed;
    }

    method Wait(delay: Retry.Duration) returns (ok: bool)
      modifies this`tick
      ensures tick >= old(tick)
    {
      if delay <= 0 {
        return true;
      }
      ok := world.waited(tick);
      tick := tick + 1;
    }

    /** A try of the current entry, and the block that follows a final quota error. */
    method TryCurrent(ghost entries: seq<Routing.Entry>, ghost before: map<string, Option<int>>, current: nat,
                      ghost tries: nat,
                      ghost settled: seq<Why>, route: Matcher.Route, key: string, now: int, client: Client)
      returns (error: Option<CallError>, completed: bool)
      requires out.Untouched() && request.client.Valid() && !client.Absent? && |attempts| < MAXIMUM_ATTEMPTS
      requires key !in blocked && current < |entries| && key == KeyOf(entries[current].route)
      requires Books(request, attempts, blocked, entries, before, current, tries, settled, now)
               && AllFailed(request, attempts) && MayTry(request, attempts, entries, current, tries)
      modifies this, out
      ensures tick >= old(tick)
      ensures |attempts| > |old(attempts)| && OnlyLastDelivers(request, attempts)
              && (!completed ==> AllFailed(request, attempts))
      ensures Books(request, attempts, blocked, entries, before, current, tries + 1, settled, now)
      ensures attempts[|attempts| - 1].entry == current && attempts[|attempts| - 1].number == |attempts|
      ensures Concluded(old(out.budget), error, completed)
    {
      hide LogLaws, Held, Counts, AllSettle, Reasons, Meant, MeantBy, IsTry, UpTo, AllFailed, OnlyLastDelivers,
           UpToEntry, MayTry, TriesOf, KeyOf;
      error, completed := TryEntry(current, route, key, now, client);
      ghost var log, more := old(attempts), attempts[|old(attempts)|..];
      assert attempts == log + more;
      TryKeepsLaws(request, log, more, entries, before, current, tries, settled, key, now, blocked);
      BooksSay(request, log, blocked, entries, before, current, tries, settled, now);
      TryKeepsOrder(request, log, more, entries, current, tries, key, now);
      TryDeliversLast(request, log, more, current, key, now);
      if !completed && ClassOf(error.value) == Retry.QuotaExhausted && error.value.Upstream? {
        SetProviderBlocked(key, error.value.nextAvailableAt);
      }
    }

    /** An entry whose client is gone still costs an attempt. */
    method NoClient(ghost entries: seq<Routing.Entry>, ghost before: map<string, Option<int>>, current: nat,
                    ghost tries: nat, ghost settled: seq<Why>, key: string, now: int)
      requires |attempts| < MAXIMUM_ATTEMPTS && key !in blocked && current < |entries|
               && tries + 1 <= Allowed(entries[current]) && key == KeyOf(entries[current].route)
      requires Books(request, attempts, blocked, entries, before, current, tries, settled, now)
               && AllFailed(request, attempts) && MayTry(request, attempts, entries, current, tries)
      modifies this`attempts
      ensures |attempts| > |old(attempts)| && AllFailed(request, attempts)
      ensures Books(request, attempts, blocked, entries, before, current + 1, 0, settled + [Unconfigured], now)
    {
      var a := Attempt(|attempts| + 1, current, 0, 0, key, now, true, request.client, NotConfigured);
      attempts := attempts + [a];
      Unconfigures(request, old(attempts), a, entries, before, current, tries, settled, key, now, blocked);
    }

    /** What to do after a failed try with `after` entries left. */
    method Decide(error: CallError, route: Matcher.Route, after: int, retries: int, now: int)
      returns (action: Retry.Action, delay: Retry.Duration)
      requires attempts != [] && MeantBy(request, attempts[|attempts| - 1]) == Failure(error)
      ensures action == Retry.RetrySameRoute <==>
                ClassOf(error) in {Retry.RateLimit, Retry.Timeout, Retry.Transport, Retry.Server} && retries > 0
                && |attempts| < MAXIMUM_ATTEMPTS - 1
      ensures action !in {Retry.RetrySameRoute, Retry.FailOver} ==> after <= 0
    {
      hide Meant, MeantBy, Retry.Decide;
      NextActionExactly(error, route, |attempts|, after, retries, now);
      hide NextAction, RetryInput;
      var input := RetryInput(error, route, |attempts|, after, retries, now);
      action, delay := NextAction(input).0, NextAction(input).1;
    }

    /** The checks before a try: structured output if asked for, and a key that is not blocked. Otherwise why not. */
    method Admit(ghost entries: seq<Routing.Entry>, ghost before: map<string, Option<int>>, ghost current: nat,
                 ghost tries: nat, ghost settled: seq<Why>, ghost now: int, route: Matcher.Route)
      returns (passedOver: Option<Why>, key: string, time: int, probeFailed: bool)
      requires ClockRuns(world) && now <= world.clock(tick)
      requires current < |entries| && route == entries[current].route && tries <= Allowed(entries[current])
      requires Books(request, attempts, blocked, entries, before, current, tries, settled, now)
      modifies this`tick, this`blocked
      ensures tick >= old(tick) && time <= world.clock(tick) && key == KeyOf(route)
      ensures passedOver.None? ==>
                key !in blocked && Books(request, attempts, blocked, entries, before, current, tries, settled, time)
      ensures passedOver.Some? ==>
                && Books(request, attempts, blocked, entries, before, current + 1, 0, settled + [passedOver.value],
                         time)
                && (AnyKeyBlocked(settled + [passedOver.value]) <==>
                      AnyKeyBlocked(settled) || passedOver.value.KeyBlocked?)
    {
      hide Books, KeyOf, AnyKeyBlocked, Allowed;
      key := KeyOf(route);
      var usable: bool;
      usable, probeFailed := StructuredOutput(route);
      time := world.clock(tick);
      TimePasses(request, attempts, blocked, entries, before, current, tries, settled, now, time, key);
      if !usable {
        EntrySkipped(request, attempts, blocked, entries, before, current, tries, settled, time, NoStructuredOutput);
        return Some(NoStructuredOutput), key, time, probeFailed;
      }
      tick := tick + 1;
      var isBlocked := ProviderBlocked(key, time);
      if isBlocked {
        EntrySkipped(request, attempts, blocked, entries, before, current, tries, settled, time, KeyBlocked);
        return Some(KeyBlocked), key, time, probeFailed;
      }
      return None, key, time, probeFailed;
    }

    /** Bookkeeping after a failed try: stay for a retry, move on, or stop. */
    method AfterFailure(entries: seq<Routing.Entry>, ghost before: map<string, Option<int>>, current: nat, retries: int,
                        ghost tries: nat, settled: seq<Why>, now: int, error: CallError, route: Matcher.Route)
      returns (current': nat, retries': int, ghost tries': nat, settled': seq<Why>, stop: bool, delay: Retry.Duration)
      requires current < |entries| && 0 < tries && RetriesLeft(entries, current, retries, tries - 1)
      requires tries - 1 + retries == entries[current].sameRouteRetries
      requires attempts != [] && MeantBy(request, attempts[|attempts| - 1]) == Failure(error)
      requires attempts[|attempts| - 1].entry == current && attempts[|attempts| - 1].number == |attempts|
      requires Books(request, attempts, blocked, entries, before, current, tries, settled, now)
      ensures MayTry(request, attempts, entries, current', tries')
      ensures current <= current' <= |entries| && RetriesLeft(entries, current', retries', tries')
      ensures Books(request, attempts, blocked, entries, before, current', tries', settled', now)
      ensures Accounted(request, attempts, entries, before, settled')
      ensures stop ==> FailsFairly(attempts, entries, settled')
    {
      hide LogLaws, Counts, AllSettle, Reasons, Held, FailsFairly, MeantBy, Accounted;
      TriesAreAllowed(request, attempts, blocked, entries, before, current, tries, settled, now);
      var action, wait_ := Decide(error, route, |entries| - current - 1, retries, now);
      if action == Retry.RetrySameRoute {
        return current, retries - 1, tries, settled, false, wait_;
      }
      EntryTried(request, attempts, blocked, entries, before, current, tries, settled, now);
      TriesAreAllowed(request, attempts, blocked, entries, before, current + 1, 0, settled + [Exhausted], now);
      return current + 1, -1, 0, settled + [Exhausted], action != Retry.FailOver, wait_;
    }

    /**
     execute: runs the plan until a reply reaches the client, the entries or the attempts run out, or the request ends.
     Only the last attempt can have reached the client; `settled` says why each entry before the one that delivered,
     or each entry the run got past, was left behind.
     */
    method Execute(plan: Routing.Plan) returns (outcome: Outcome, settled: seq<Why>)
      requires attempts == [] && out.Untouched() && request.client.Valid() && ClockRuns(world)
      modifies this, out
      ensures Accounted(request, attempts, plan.entries, old(blocked), settled) && OnlyLastDelivers(request, attempts)
      ensures outcome.Completed? ==>
                && attempts != [] && attempts[|attempts| - 1].entry == |settled| < |plan.entries|
                && var m := MeantBy(request, attempts[|attempts| - 1]);
                m.Success? && out.frames == UpTo(m.value.frames, old(out.budget))
                && (outcome.ok <==> m.value.Succeeds(old(out.budget)))
      ensures !outcome.Completed? ==> out.Untouched() && AllFailed(request, attempts)
      ensures outcome.Failed? ==> FailsFairly(attempts, plan.entries, settled) && outcome.attempts == |attempts|
      ensures outcome.Failed? && !outcome.code.AllProviderAttemptsFailed? ==>
                attempts == [] && (outcome.code.AllSubscriptionQuotasExhausted? <==> AnyKeyBlocked(settled))
    {
      hide LogLaws, Counts, AllSettle, Reasons, Held, Books, FailsFairly, TriesOf, Settles, MeantBy, UpTo, Concluded,
           KeyOf, StatusFor, Meaning.Succeeds, Continues, AnyKeyBlocked, Accounted, AllFailed, OnlyLastDelivers,
           RetryDue, FollowsPlan, UpToEntry;
      ghost var before := blocked;
      var entries := plan.entries;
      var current, retriesRemaining, limited := 0, -1, false;
      var errors: seq<string> := [];
      settled := [];
      ghost var tries: nat := 0;
      ghost var now := world.clock(tick);
      RunStarts(request, entries, before, now);
      OneMoreSettled([], Exhausted);
      NothingFailed(request, []);
      while |attempts| < MAXIMUM_ATTEMPTS
        invariant current <= |entries|
                  && Books(request, attempts, blocked, entries, before, current, tries, settled, now)
        invariant RetriesLeft(entries, current, retriesRemaining, tries) && AllFailed(request, attempts)
        invariant MayTry(request, attempts, entries, current, tries)
        invariant out.Untouched() && out.budget == old(out.budget) && now <= world.clock(tick)
        invariant if attempts == [] then limited == AnyKeyBlocked(settled) else errors != []
        decreases MAXIMUM_ATTEMPTS - |attempts| + |entries| - current
      {
        if current >= |entries| {
          AllSettled(request, attempts, blocked, entries, before, current, tries, settled, now);
          TriesAreAllowed(request, attempts, blocked, entries, before, current, tries, settled, now);
          NothingFailed(request, attempts);
          if limited {
            return Failed(429, if errors != [] then AllProviderAttemptsFailed else AllSubscriptionQuotasExhausted,
                          |attempts|), settled;
          }
          return Failed(503, if errors != [] then AllProviderAttemptsFailed else NoFallbackRoute, |attempts|), settled;
        }
        var entry := entries[current];
        var route := entry.route;
        if retriesRemaining < 0 { retriesRemaining := entry.sameRouteRetries; }
        var passedOver, key, time, probeFailed := Admit(entries, before, current, tries, settled, now, route);
        now := time;
        if probeFailed { errors := errors + [route.provider]; }
        if passedOver.Some? {
          if passedOver.value.KeyBlocked? { limited := true; }
          settled := settled + [passedOver.value];
          current, retriesRemaining, tries := current + 1, -1, 0;
          continue;
        }
        var client := world.client(tick);
        tick := tick + 1;
        if client.Absent? {
          errors := errors + [route.provider];
          NoClient(entries, before, current, tries, settled, key, time);
          settled := settled + [Unconfigured];
          current, retriesRemaining, tries := current + 1, -1, 0;
          continue;
        }
        BooksSay(request, attempts, blocked, entries, before, current, tries, settled, time);
        var error, completed := TryCurrent(entries, before, current, tries, settled, route, key, time, client);
        tries := tries + 1;
        TriesAreAllowed(request, attempts, blocked, entries, before, current, tries, settled, now);
        ConcludedMeans(old(out.budget), error, completed);
        if completed {
          return Completed(error.None?), settled;
        }
        if ClassOf(error.value) == Retry.QuotaExhausted { limited := true; }
        errors := errors + [route.provider];
        var stop, delay;
        current, retriesRemaining, tries, settled, stop, delay :=
          AfterFailure(entries, before, current, retriesRemaining, tries, settled, time, error.value, route);
        if stop {
          return Failed(StatusFor(error.value), AllProviderAttemptsFailed, |attempts|), settled;
        }
        var waited := Wait(delay);
        if !waited {
          return Interrupted, settled;
        }
      }
      TriesAreAllowed(request, attempts, blocked, entries, before, current, tries, settled, now);
      BudgetEndsFairly(request, attempts, blocked, entries, before, current, retriesRemaining, tries, settled, now);
      NothingFailed(request, attempts);
      return Failed(502, AllProviderAttemptsFailed, |attempts|), settled;
    }

    lemma ConcludedMeans(budget: nat, error: Option<CallError>, delivered: bool)
      requires Concluded(budget, error, delivered)
      ensures var last := attempts[|attempts| - 1];
              && (delivered ==> !Continues(request, last) && MeantBy(request, last).Success?
                                && out.frames == UpTo(MeantBy(request, last).value.frames, budget)
                                && (error.None? <==> MeantBy(request, last).value.Succeeds(budget)))
              && (!delivered ==>
                    error.Some? && out.Untouched() && out.budget == budget
                    && MeantBy(request, last) == Failure(error.value))
              && (!delivered && last.what.Called? ==>
                    (Continues(request, last) <==> ShouldTryNextFormat(error.value, !last.known)))
              && (!delivered && last.what.Unencodable? ==> Continues(request, last))
    {
      hide Meant;
    }
  }

  lemma {:induction false} LinesFit(lines: seq<Line>)
    ensures |Through(lines)| <= |lines|
    ensures !AnyFailure(lines) ==> |Through(lines)| == |lines|
  {
    if lines != [] {
      LinesFit(lines[1..]);
      assert lines[0] in lines && forall l :: l in lines[1..] ==> l in lines;
    }
  }

  lemma RefusedMeans(r: Request, f: Format, reply: Reply)
    requires reply.Refused?
    ensures Meant(r, f, reply) == Failure(reply.error)
  {}

  lemma StreamedNothing(f: Format)
    ensures Streamed(f, [], true) == [] && Streamed(f, [], false) == []
  {}

  lemma WholeStream(f: Format, es: seq<Event>)
    requires es != []
    ensures Transcript(f, es) == Streamed(f, es, true)
  {}
}
