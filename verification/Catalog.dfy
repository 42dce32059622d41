/** The provider catalogue and its discovery history (internal/catalog/catalog.go, internal/catalog/discoveries.go). */
module Catalog {
  import opened Wrappers
  import opened Text
  import opened Wire
  import Ordering

  /** A model as a provider lists it. */
  datatype Listing = Listing(id: string, free: bool, context: int, format: Format)

  datatype Model = Model(id: string, free: bool, context: int)

  datatype Route = Route(
    id: string, provider: string, logicalModel: string, upstream: string, free: bool, context: int,
    executionKey: string, format: Format)

  datatype Client = Client(name: string, executionKey: string, hinted: Format) {
    function Key(): string { if executionKey != "" then executionKey else name }
  }

  datatype Addition = Addition(id: string, addedAt: int)

  datatype Snapshot = Snapshot(updatedAt: int, models: seq<Model>, routes: seq<Route>, additions: seq<Addition>,
                               failed: bool)

  /** The persisted discovery history; `known` is None until a first catalogue set the baseline. */
  datatype History = History(known: Option<set<string>>, additions: seq<Addition>)

  function RouteKey(r: Route): string { if r.executionKey != "" then r.executionKey else r.provider }

  // ---------------------------------------------------------------- what every run keeps

  ghost predicate DistinctModels(models: seq<Model>) {
    forall i, j :: 0 <= i < j < |models| ==> models[i].id != models[j].id
  }

  predicate HasModel(models: seq<Model>, id: string) { exists m :: m in models && m.id == id }

  /** Every route's logical model has exactly one entry. */
  ghost predicate Consistent(s: Snapshot) {
    DistinctModels(s.models) && forall r :: r in s.routes ==> HasModel(s.models, r.logicalModel)
  }

  /** Each addition appears once and is known. */
  ghost predicate Sound(h: History) {
    && (forall i, j :: 0 <= i < j < |h.additions| ==> h.additions[i].id != h.additions[j].id)
    && (forall a :: a in h.additions ==> h.known.Some? && a.id in h.known.value)
  }

  // ---------------------------------------------------------------- what a discovery amounts to

  datatype Batch = Batch(client: Client, listings: seq<Listing>)

  function RouteOf(slug: string -> string, c: Client, l: Listing): Route {
    Route(c.Key() + ":" + l.id, c.name, slug(l.id), l.id, l.free || HasFreeSuffix(l.id), l.context, c.Key(),
          if l.format.Valid() then l.format else c.hinted)
  }

  predicate HasFreeSuffix(id: string) {
    HasSuffix(Clean(id), ":free") || HasSuffix(Clean(id), "-free")
  }

  function RoutesOf(slug: string -> string, c: Client, listings: seq<Listing>): seq<Route> {
    seq(|listings|, i requires 0 <= i < |listings| => RouteOf(slug, c, listings[i]))
  }

  function AllRoutes(slug: string -> string, batches: seq<Batch>): seq<Route> {
    if batches == [] then []
    else AllRoutes(slug, batches[..|batches| - 1])
         + RoutesOf(slug, batches[|batches| - 1].client, batches[|batches| - 1].listings)
  }

  /** Earlier routes whose client could not be asked. */
  function Preserved(routes: seq<Route>, failed: set<string>): seq<Route> {
    if routes == [] then []
    else Preserved(routes[..|routes| - 1], failed)
         + if RouteKey(routes[|routes| - 1]) in failed then [routes[|routes| - 1]] else []
  }

  /** A route keeps an earlier format when none is found for it any more. */
  function KnownFormats(routes: seq<Route>): map<string, Format> {
    if routes == [] then map[]
    else
      var before, last := KnownFormats(routes[..|routes| - 1]), routes[|routes| - 1];
      if last.format.Valid() then before[last.id := last.format] else before
  }

  function WithFormat(r: Route, formats: map<string, Format>): Route {
    if r.format.Valid() || r.id !in formats then r else r.(format := formats[r.id])
  }

  function WithFormats(routes: seq<Route>, formats: map<string, Format>): seq<Route> {
    seq(|routes|, i requires 0 <= i < |routes| => WithFormat(routes[i], formats))
  }

  function Merge(a: Model, b: Model): Model { Model(a.id, a.free || b.free, Max(a.context, b.context)) }

  function ModelOf(slug: string -> string, l: Listing): Model {
    Model(slug(l.id), l.free || HasFreeSuffix(l.id), l.context)
  }

  // ---------------------------------------------------------------- recording discoveries

  /** The history after a catalogue with these models: the baseline, or additions for the models not known yet. */
  function Recorded(h: History, models: seq<Model>, at: int): History {
    if models == [] then History(Some(h.known.GetOr({})), h.additions)
    else
      var before, id := Recorded(h, models[..|models| - 1], at), models[|models| - 1].id;
      History(Some(before.known.value + {id}),
              if h.known.Some? && id !in before.known.value then before.additions + [Addition(id, at)]
              else before.additions)
  }

  function ModelIDs(models: seq<Model>): set<string> { set m | m in models :: m.id }

  function AddedIDs(additions: seq<Addition>): set<string> { set a | a in additions :: a.id }

  lemma OneMoreModel(models: seq<Model>, m: Model)
    ensures ModelIDs(models + [m]) == ModelIDs(models) + {m.id}
  {}

  lemma OneMoreAddition(additions: seq<Addition>, a: Addition)
    ensures AddedIDs(additions + [a]) == AddedIDs(additions) + {a.id}
  {}

  /** `r` is `h` grown by additions of time `at` for exactly the ids of `more` that were not known. */
  ghost predicate GrownBy(h: History, r: History, more: set<string>, at: int) {
    && Sound(r) && r.known == Some(h.known.GetOr({}) + more)
    && h.additions <= r.additions
    && (forall a :: a in r.additions[|h.additions|..] ==> a.addedAt == at)
    && AddedIDs(r.additions[|h.additions|..]) == if h.known.Some? then more - h.known.value else {}
  }

  lemma GrowsByOne(h: History, b: History, r: History, more: set<string>, id: string, at: int)
    requires GrownBy(h, b, more, at)
    requires r == History(Some(b.known.value + {id}),
                          if h.known.Some? && id !in b.known.value then b.additions + [Addition(id, at)]
                          else b.additions)
    ensures GrownBy(h, r, more + {id}, at)
  {
    hide AddedIDs;
    var n := |h.additions|;
    assert h.known.GetOr({}) + more + {id} == h.known.GetOr({}) + (more + {id});
    if h.known.Some? {
      var k := h.known.value;
      assert (more + {id}) - k == (more - k) + if id in k then {} else {id};
    }
    if r.additions != b.additions {
      OneMoreAddition(b.additions[n..], Addition(id, at));
      assert r.additions[n..] == b.additions[n..] + [Addition(id, at)];
    }
  }

  /** Known models only grow, every listed one is known, and what is added is exactly what was not known before. */
  lemma {:induction false} RecordedExactly(h: History, models: seq<Model>, at: int)
    requires Sound(h)
    ensures GrownBy(h, Recorded(h, models, at), ModelIDs(models), at)
  {
    if models == [] {
      assert h.additions[|h.additions|..] == [] && ModelIDs([]) == {} && AddedIDs([]) == {};
      assert h.known.GetOr({}) + {} == h.known.GetOr({});
    } else {
      hide GrownBy, ModelIDs, Sound;
      var init, last := models[..|models| - 1], models[|models| - 1];
      RecordedExactly(h, init, at);
      OneMoreModel(init, last);
      assert models == init + [last];
      GrownByIsKnown(h, Recorded(h, init, at), ModelIDs(init), at);
      GrowsByOne(h, Recorded(h, init, at), Recorded(h, models, at), ModelIDs(init), last.id, at);
    }
  }

  lemma GrownByIsKnown(h: History, r: History, more: set<string>, at: int)
    requires GrownBy(h, r, more, at)
    ensures r.known.Some? && Sound(r)
  {}

  // ---------------------------------------------------------------- asking the providers

  function Succeeded(clients: seq<Client>, outcomes: seq<Option<seq<Listing>>>): seq<Batch>
    requires |clients| == |outcomes|
  {
    if clients == [] then []
    else
      var n := |clients| - 1;
      Succeeded(clients[..n], outcomes[..n]) + if outcomes[n].Some? then [Batch(clients[n], outcomes[n].value)] else []
  }

  function FailedKeys(clients: seq<Client>, outcomes: seq<Option<seq<Listing>>>): set<string>
    requires |clients| == |outcomes|
  {
    set i | 0 <= i < |clients| && outcomes[i].None? :: clients[i].Key()
  }

  method Discover(clients: seq<Client>, outcomes: seq<Option<seq<Listing>>>)
    returns (batches: seq<Batch>, failed: set<string>, failures: nat)
    requires |clients| == |outcomes|
    ensures batches == Succeeded(clients, outcomes) && failed == FailedKeys(clients, outcomes)
    ensures failures == 0 <==> None !in outcomes
  {
    batches, failed, failures := [], {}, 0;
    for i := 0 to |clients|
      invariant batches == Succeeded(clients[..i], outcomes[..i])
      invariant failed == FailedKeys(clients[..i], outcomes[..i])
      invariant failures == 0 <==> None !in outcomes[..i]
    {
      assert clients[..i + 1][..i] == clients[..i] && outcomes[..i + 1][..i] == outcomes[..i];
      assert outcomes[..i + 1] == outcomes[..i] + [outcomes[i]];
      FailedNext(clients, outcomes, i);
      if outcomes[i].Some? {
        batches := batches + [Batch(clients[i], outcomes[i].value)];
      } else {
        failures := failures + 1;
        failed := failed + {clients[i].Key()};
      }
    }
    assert clients[..|clients|] == clients && outcomes[..|clients|] == outcomes;
  }

  lemma FailedNext(clients: seq<Client>, outcomes: seq<Option<seq<Listing>>>, i: nat)
    requires |clients| == |outcomes| && i < |clients|
    ensures FailedKeys(clients[..i + 1], outcomes[..i + 1])
         == FailedKeys(clients[..i], outcomes[..i]) + if outcomes[i].None? then {clients[i].Key()} else {}
  {}

  function LogicalIDs(routes: seq<Route>): set<string> { set r | r in routes :: r.logicalModel }

  /** One model entry under each logical name of these routes. */
  ghost predicate Names(models: map<string, Model>, routes: seq<Route>) {
    models.Keys == LogicalIDs(routes) && forall k :: k in models ==> models[k].id == k
  }

  lemma NameAdded(models: map<string, Model>, routes: seq<Route>, route: Route, m: Model)
    requires Names(models, routes) && m.id == route.logicalModel
    ensures Names(models[m.id := m], routes + [route])
    ensures m.id in models ==> Names(models, routes + [route])
  {}

  /** A model is free if one of its routes is, and its context is the largest of its routes. */
  ghost predicate Describes(models: map<string, Model>, routes: seq<Route>) {
    forall k :: k in models ==>
      && (models[k].free <==> exists r :: r in routes && r.logicalModel == k && r.free)
      && (forall r :: r in routes && r.logicalModel == k ==> r.context <= models[k].context)
      && (exists r :: r in routes && r.logicalModel == k && r.context == models[k].context)
  }

  lemma DescriptionAdded(models: map<string, Model>, routes: seq<Route>, route: Route, m: Model)
    requires Names(models, routes) && Describes(models, routes)
    requires m.id == route.logicalModel && m.free == route.free && m.context == route.context
    ensures Describes(models[m.id := if m.id in models then Merge(models[m.id], m) else m], routes + [route])
  {
    var all, after := routes + [route], models[m.id := if m.id in models then Merge(models[m.id], m) else m];
    assert forall r :: r in all <==> r in routes || r == route;
    forall k | k in after
      ensures after[k].free <==> exists r :: r in all && r.logicalModel == k && r.free
      ensures forall r :: r in all && r.logicalModel == k ==> r.context <= after[k].context
      ensures exists r :: r in all && r.logicalModel == k && r.context == after[k].context
    {
      if k == m.id && k !in models {
        assert forall r :: r in routes ==> r.logicalModel in LogicalIDs(routes);
        assert route in all;
      }
    }
  }

  method BuildRoutes(slug: string -> string, batches: seq<Batch>)
    returns (routes: seq<Route>, models: map<string, Model>)
    ensures routes == AllRoutes(slug, batches) && Names(models, routes) && Describes(models, routes)
  {
    hide Names, Describes, RouteOf, ModelOf, Merge;
    routes, models := [], map[];
    assert Names(models, routes) && Describes(models, routes) by { NoNames(); }
    for i := 0 to |batches|
      invariant routes == AllRoutes(slug, batches[..i]) && Names(models, routes) && Describes(models, routes)
    {
      assert batches[..i + 1][..i] == batches[..i];
      routes, models := AddListings(slug, batches[i].client, batches[i].listings, routes, models);
    }
    assert batches[..|batches|] == batches;
  }

  lemma NoNames()
    ensures Names(map[], []) && Describes(map[], [])
  {}

  method AddListings(slug: string -> string, c: Client, listings: seq<Listing>, before: seq<Route>,
                     found: map<string, Model>)
    returns (routes: seq<Route>, models: map<string, Model>)
    requires Names(found, before) && Describes(found, before)
    ensures routes == before + RoutesOf(slug, c, listings) && Names(models, routes) && Describes(models, routes)
  {
    hide Names, Describes, HasFreeSuffix;
    routes, models := before, found;
    assert before + RoutesOf(slug, c, listings[..0]) == before;
    for j := 0 to |listings|
      invariant routes == before + RoutesOf(slug, c, listings[..j]) && Names(models, routes)
                && Describes(models, routes)
    {
      var route, candidate := RouteOf(slug, c, listings[j]), ModelOf(slug, listings[j]);
      NamedByKey(models, routes);
      var merged := if candidate.id in models then Merge(models[candidate.id], candidate) else candidate;
      NameAdded(models, routes, route, merged);
      DescriptionAdded(models, routes, route, candidate);
      models := models[candidate.id := merged];
      routes := routes + [route];
      OneMoreListing(slug, c, listings, j);
    }
    assert listings[..|listings|] == listings;
  }

  lemma OneMoreListing(slug: string -> string, c: Client, listings: seq<Listing>, j: nat)
    requires j < |listings|
    ensures RoutesOf(slug, c, listings[..j + 1]) == RoutesOf(slug, c, listings[..j]) + [RouteOf(slug, c, listings[j])]
  {}

  lemma NamedByKey(models: map<string, Model>, routes: seq<Route>)
    requires Names(models, routes)
    ensures forall k :: k in models ==> models[k].id == k
  {}

  method FindModel(models: seq<Model>, id: string) returns (m: Model)
    requires HasModel(models, id)
    ensures m in models && m.id == id
  {
    for i := 0 to |models|
      invariant forall k :: 0 <= k < i ==> models[k].id != id
    {
      if models[i].id == id {
        return models[i];
      }
    }
    assert false;
  }

  /** Keeps the routes, and the models, of providers that could not be asked. */
  method Preserve(previous: Snapshot, failed: set<string>, discovered: seq<Route>, found: map<string, Model>)
    returns (routes: seq<Route>, models: map<string, Model>)
    requires Consistent(previous) && Names(found, discovered)
    ensures routes == discovered + Preserved(previous.routes, failed) && Names(models, routes)
  {
    hide Names, HasModel;
    routes, models := discovered, found;
    assert discovered + [] == discovered;
    for i := 0 to |previous.routes|
      invariant routes == discovered + Preserved(previous.routes[..i], failed) && Names(models, routes)
    {
      assert previous.routes[..i + 1][..i] == previous.routes[..i];
      var route := previous.routes[i];
      if RouteKey(route) in failed {
        if route.logicalModel !in models {
          var m := FindModel(previous.models, route.logicalModel);
          NameAdded(models, routes, route, m);
          models := models[m.id := m];
        } else {
          NameAdded(models, routes, route, Model(route.logicalModel, false, 0));
        }
        routes := routes + [route];
      }
    }
    assert previous.routes[..|previous.routes|] == previous.routes;
  }

  // ---------------------------------------------------------------- the next snapshot

  function ByID(): (Model, Model) -> bool { (a: Model, b: Model) => StringLess(a.id, b.id) }

  function RoutesByID(): (Route, Route) -> bool { (a: Route, b: Route) => StringLess(a.id, b.id) }

  lemma IDsAreOrdered()
    ensures Ordering.StrictWeakOrder(ByID()) && Ordering.StrictWeakOrder(RoutesByID())
  {
    StringLessIsStrictTotalOrder();
    hide StringLess;
  }

  /** The entries of the model map, sorted by id. */
  method SortedModels(models: map<string, Model>) returns (result: seq<Model>)
    requires forall k :: k in models ==> models[k].id == k
    ensures DistinctModels(result) && ModelIDs(result) == models.Keys
            && (forall m :: m in result ==> m.id in models && models[m.id] == m)
    ensures Ordering.SortedBy(ByID(), result)
  {
    var entries: seq<Model> := [];
    var rest := models.Keys;
    while rest != {}
      invariant rest <= models.Keys && DistinctModels(entries)
      invariant forall m :: m in entries ==> m.id in models.Keys - rest && models[m.id] == m
      invariant forall k :: k in models.Keys - rest ==> models[k] in entries
      decreases |rest|
    {
      var k :| k in rest;
      rest := rest - {k};
      entries := entries + [models[k]];
    }
    result := Ordering.StableSort(ByID(), entries);
    IDsAreOrdered();
    Ordering.SortIsSorted(ByID(), entries);
    Ordering.SortMembers(ByID(), entries);
    SortKeepsDistinct(entries, result);
    assert ModelIDs(result) == models.Keys by {
      forall k | k in models.Keys ensures k in ModelIDs(result) { assert models[k] in entries && models[k] in result; }
    }
  }

  lemma SortKeepsDistinct(a: seq<Model>, b: seq<Model>)
    requires multiset(a) == multiset(b) && DistinctModels(a)
    ensures DistinctModels(b)
  {
    Ordering.UniqueByCount(a, b);
    forall i, j | 0 <= i < j < |b| ensures b[i].id != b[j].id {
      assert b[i] in multiset(a) && b[j] in multiset(a);
      var k :| 0 <= k < |a| && a[k] == b[i];
      var l :| 0 <= l < |a| && a[l] == b[j];
      assert k != l;
    }
  }

  /** Formats found earlier, for routes that have none now. */
  method FillFormats(routes: seq<Route>, previous: seq<Route>) returns (result: seq<Route>)
    ensures result == WithFormats(routes, KnownFormats(previous))
  {
    var formats: map<string, Format> := map[];
    for i := 0 to |previous|
      invariant formats == KnownFormats(previous[..i])
    {
      assert previous[..i + 1][..i] == previous[..i];
      if previous[i].format.Valid() { formats := formats[previous[i].id := previous[i].format]; }
    }
    assert previous[..|previous|] == previous;
    result := routes;
    for i := 0 to |routes|
      invariant |result| == |routes|
      invariant forall k :: 0 <= k < |routes| ==>
                  result[k] == if k < i then WithFormat(routes[k], formats) else routes[k]
    {
      result := result[i := WithFormat(routes[i], formats)];
    }
  }

  /** The routes a refresh comes to, before they are sorted. */
  function NextRoutes(slug: string -> string, previous: Snapshot, clients: seq<Client>,
                      outcomes: seq<Option<seq<Listing>>>): seq<Route>
    requires |clients| == |outcomes|
  {
    WithFormats(AllRoutes(slug, Succeeded(clients, outcomes))
                + Preserved(previous.routes, FailedKeys(clients, outcomes)),
                KnownFormats(previous.routes))
  }

  /** `b` knows and records everything that `a` did, in the same order. */
  ghost predicate Extends(a: History, b: History) {
    (a.known.Some? ==> b.known.Some? && a.known.value <= b.known.value) && a.additions <= b.additions
  }

  lemma ExtendsItself(h: History)
    ensures Extends(h, h)
  {}

  datatype Choice =
    | DoRestart(clients: seq<Client>) | DoRestore(readable: bool) | DoSetClients(clients: seq<Client>)
    | DoLearn(id: string, format: Format) | DoClear(id: string)
    | DoRefresh(answers: nat -> Option<seq<Listing>>, now: int, storeFails: bool, hookFails: bool)

  function Outcomes(n: nat, answers: nat -> Option<seq<Listing>>): (r: seq<Option<seq<Listing>>>)
    ensures |r| == n
  {
    seq(n, i requires 0 <= i < n => answers(i))
  }

  class Manager {
    const slug: string -> string
    var clients: seq<Client>
    var current: Snapshot
    var known: Option<set<string>>
    var store: Option<History>
    var hasStore: bool

    constructor (slug: string -> string, clients: seq<Client>, store: Option<History>)
      requires store.Some? ==> Sound(store.value)
      ensures Valid() && this.clients == clients && this.store == store
    {
      this.slug, this.clients, this.store := slug, clients, store;
      current, known, hasStore := Snapshot(0, [], [], [], false), None, false;
    }

    function Remembered(): History
      reads this`known, this`current
    {
      History(known, current.additions)
    }

    function Stored(): History
      reads this`store
    {
      store.GetOr(History(None, []))
    }

    /** Kept by every call, whatever the providers and the store do. With a store, memory and store agree. */
    ghost predicate Valid()
      reads this`known, this`current, this`store, this`hasStore
    {
      Consistent(current) && Sound(Remembered()) && Sound(Stored()) && (hasStore ==> Remembered() == Stored())
    }

    /** Loads the discovery history. A store that cannot be read changes nothing. */
    method Restore(readable: bool) returns (ok: bool)
      requires Valid()
      modifies this`known, this`current, this`hasStore
      ensures Valid() && ok == readable
      ensures !ok ==> known == old(known) && current == old(current)
      ensures ok ==> hasStore && Remembered() == Stored() && current == old(current).(additions := current.additions)
    {
      if !readable {
        return false;
      }
      var history := Stored();
      hasStore := true;
      known, current := history.known, current.(additions := history.additions);
      return true;
    }

    method SetClients(clients: seq<Client>)
      requires Valid()
      modifies this`clients
      ensures Valid() && this.clients == clients
    {
      this.clients := clients;
    }

    method LearnFormat(routeID: string, format: Format)
      requires Valid()
      modifies this`current
      ensures Valid() && |current.routes| == |old(current).routes| && current == old(current).(routes := current.routes)
      ensures forall i :: 0 <= i < |current.routes| ==>
                current.routes[i] == if format.Valid() && old(current).routes[i].id == routeID
                                     then old(current).routes[i].(format := format) else old(current).routes[i]
    {
      if !format.Valid() {
        return;
      }
      var routes := current.routes;
      for i := 0 to |routes|
        invariant |routes| == |current.routes|
        invariant forall k :: 0 <= k < |routes| ==>
                    routes[k] == if k < i && current.routes[k].id == routeID then current.routes[k].(format := format)
                                 else current.routes[k]
      {
        if routes[i].id == routeID { routes := routes[i := routes[i].(format := format)]; }
      }
      assert forall k :: 0 <= k < |routes| ==>
               routes[k].logicalModel == current.routes[k].logicalModel && current.routes[k] in current.routes;
      current := current.(routes := routes);
    }

    method ClearFormat(routeID: string)
      requires Valid()
      modifies this`current
      ensures Valid() && |current.routes| == |old(current).routes| && current == old(current).(routes := current.routes)
      ensures forall i :: 0 <= i < |current.routes| ==>
                current.routes[i] == if old(current).routes[i].id == routeID
                                     then old(current).routes[i].(format := UnknownFormat)
                                     else old(current).routes[i]
    {
      var routes := current.routes;
      for i := 0 to |routes|
        invariant |routes| == |current.routes|
        invariant forall k :: 0 <= k < |routes| ==>
                    routes[k] == if k < i && current.routes[k].id == routeID
                                 then current.routes[k].(format := UnknownFormat) else current.routes[k]
      {
        if routes[i].id == routeID { routes := routes[i := routes[i].(format := UnknownFormat)]; }
      }
      assert forall k :: 0 <= k < |routes| ==>
               routes[k].logicalModel == current.routes[k].logicalModel && current.routes[k] in current.routes;
      current := current.(routes := routes);
    }

    /** recordDiscoveries: history first to the store, then to memory. */
    method RecordDiscoveries(next: Snapshot, storeFails: bool) returns (ok: bool, recorded: Snapshot)
      requires Valid() && next.additions == current.additions
      modifies this`known, this`store
      ensures Sound(Stored()) && (ok && hasStore ==> Stored() == History(known, recorded.additions))
      ensures ok <==> !(hasStore && storeFails && (old(known).Some? || next.models != []))
      ensures !ok ==> known == old(known) && store == old(store)
      ensures ok && old(known).None? && next.models == [] ==> known == None && recorded == next && store == old(store)
      ensures ok && (old(known).Some? || next.models != []) ==>
                var h := Recorded(old(Remembered()), next.models, next.updatedAt);
                known == h.known && recorded == next.(additions := h.additions) && store == if hasStore then Some(h)
                  else old(store)
    {
      var ids, additions := known.GetOr({}), next.additions;
      ghost var before := Remembered();
      for i := 0 to |next.models|
        invariant Recorded(before, next.models[..i], next.updatedAt) == History(Some(ids), additions)
      {
        assert next.models[..i + 1][..i] == next.models[..i];
        var id := next.models[i].id;
        if id !in ids && known.Some? { additions := additions + [Addition(id, next.updatedAt)]; }
        ids := ids + {id};
      }
      assert next.models[..|next.models|] == next.models;
      if known.None? && next.models == [] {
        return true, next;
      }
      RecordedExactly(before, next.models, next.updatedAt);
      GrownByIsKnown(before, Recorded(before, next.models, next.updatedAt), ModelIDs(next.models), next.updatedAt);
      hide GrownBy;
      if hasStore {
        if storeFails {
          return false, next;
        }
        store := Some(History(Some(ids), additions));
      }
      known := Some(ids);
      return true, next.(additions := additions);
    }
  
    /**
     One refresh, with each client's outcome given (None for a failed discovery). A failed write of the history
     leaves models, routes, additions and known models as they were.
     */
    method Refresh(outcomes: seq<Option<seq<Listing>>>, now: int, storeFails: bool, hookFails: bool) returns (ok: bool)
      requires Valid() && |outcomes| == |clients|
      modifies this`current, this`known, this`store
      ensures Valid() && current.failed == !ok
      ensures var next := NextRoutes(slug, old(current), clients, outcomes);
              if hasStore && storeFails && (old(known).Some? || next != [])
              then !ok && known == old(known) && store == old(store) && current == old(current).(failed := true)
              else
                && multiset(current.routes) == multiset(next) && Ordering.SortedBy(RoutesByID(), current.routes)
                && ModelIDs(current.models) == LogicalIDs(current.routes) && Ordering.SortedBy(ByID(), current.models)
                && (if old(known).None? && next == [] then Remembered() == old(Remembered()) && store == old(store)
                    else GrownBy(old(Remembered()), Remembered(), ModelIDs(current.models), current.updatedAt)
                         && store == if hasStore then Some(Remembered()) else old(store))
    {
      hide NextRoutes, GrownBy, ModelIDs, LogicalIDs, Ordering.SortedBy, DistinctModels, HasModel;
      var previous := current;
      var next, failures := NextSnapshot(outcomes, now);
      var recorded: Snapshot;
      ok, recorded := RecordDiscoveries(next, storeFails);
      if !ok {
        current := current.(failed := true);
        return;
      }
      RecordedExactly(old(Remembered()), next.models, next.updatedAt);
      GrownByIsKnown(old(Remembered()), Recorded(old(Remembered()), next.models, next.updatedAt), ModelIDs(next.models),
                     next.updatedAt);
      hide Recorded, Sound;
      ok := failures == 0 && !(hookFails && HasNewRoute(previous.routes, next.routes));
      current := recorded.(failed := !ok);
    }

    /** The program starts again: nothing but the store is left. */
    method Restart(clients: seq<Client>)
      requires Valid()
      modifies this`clients, this`current, this`known, this`hasStore
      ensures Valid() && current.routes == [] && Remembered() == History(None, []) && !hasStore
    {
      this.clients, current, known, hasStore := clients, Snapshot(0, [], [], [], false), None, false;
    }

    /**
     Any run of calls and restarts, with arbitrary provider and store failures. The stored history only grows, and so
     does the remembered one unless the program starts again or loads another one.
     */
    method Run(schedule: seq<Choice>)
      requires Valid()
      modifies this
      ensures Valid() && Extends(old(Stored()), Stored())
      ensures (forall c :: c in schedule ==> !c.DoRestart? && !c.DoRestore?) ==>
                Extends(old(Remembered()), Remembered())
    {
      hide Valid, Extends;
      ghost var stored, remembered := Stored(), Remembered();
      assert Extends(stored, stored) && Extends(remembered, remembered) by {
        ExtendsItself(stored); ExtendsItself(remembered);
      }
      for n := 0 to |schedule|
        invariant Valid() && Extends(stored, Stored())
        invariant (forall c :: c in schedule[..n] ==> !c.DoRestart? && !c.DoRestore?) ==>
                    Extends(remembered, Remembered())
      {
        assert schedule[n] in schedule[..n + 1] && forall c :: c in schedule[..n] ==> c in schedule[..n + 1];
        match schedule[n]
        case DoRestart(clients) => Restart(clients);
        case DoRestore(readable) => var ok := Restore(readable);
        case DoSetClients(clients) => SetClients(clients);
        case DoLearn(id, format) => LearnFormat(id, format);
        case DoClear(id) => ClearFormat(id);
        case DoRefresh(answers, now, storeFails, hookFails) =>
          RefreshAndGrow(Outcomes(|clients|, answers), now, storeFails, hookFails, stored, remembered);
      }
      assert schedule[..|schedule|] == schedule;
    }

    method RefreshAndGrow(outcomes: seq<Option<seq<Listing>>>, now: int, storeFails: bool, hookFails: bool,
                          ghost stored: History, ghost remembered: History)
      requires Valid() && |outcomes| == |clients| && Extends(stored, Stored())
      modifies this`current, this`known, this`store
      ensures Valid() && Extends(stored, Stored())
      ensures Extends(remembered, old(Remembered())) ==> Extends(remembered, Remembered())
    {
      hide Consistent, Sound, NextRoutes, ModelIDs, LogicalIDs, Ordering.SortedBy;
      ghost var before := Remembered();
      var ok := Refresh(outcomes, now, storeFails, hookFails);
    }

    /** Everything a refresh does before the history: ask, merge, preserve, fill in formats and sort. */
    method NextSnapshot(outcomes: seq<Option<seq<Listing>>>, now: int) returns (next: Snapshot, failures: nat)
      requires Valid() && |outcomes| == |clients|
      ensures next.additions == current.additions && Consistent(next) && (failures == 0 <==> None !in outcomes)
      ensures next.updatedAt == if outcomes != [] && (forall i :: 0 <= i < |outcomes| ==> outcomes[i].None?)
                                then current.updatedAt else now
      ensures var routes := NextRoutes(slug, current, clients, outcomes);
              multiset(next.routes) == multiset(routes) && (next.routes == [] <==> routes == [])
      ensures Ordering.SortedBy(RoutesByID(), next.routes) && Ordering.SortedBy(ByID(), next.models)
      ensures ModelIDs(next.models) == LogicalIDs(next.routes) && (next.models == [] <==> next.routes == [])
    {
      hide AllRoutes, Preserved, KnownFormats, WithFormats, Names, Succeeded, FailedKeys, ModelIDs, LogicalIDs,
           Ordering.StableSort, Ordering.StrictWeakOrder, Ordering.SortedBy;
      var batches, failedKeys: set<string>;
      batches, failedKeys, failures := Discover(clients, outcomes);
      NoneSucceeded(clients, outcomes);
      var at := if batches == [] && clients != [] then current.updatedAt else now;
      var discovered, found := BuildRoutes(slug, batches);
      var routes, models := Preserve(current, failedKeys, discovered, found);
      NamedByKey(models, routes);
      var entries := SortedModels(models);
      var filled := FillFormats(routes, current.routes);
      FormatsKeepNames(routes, KnownFormats(current.routes));
      IDsAreOrdered();
      var sorted := Ordering.StableSort(RoutesByID(), filled);
      Ordering.SortIsSorted(RoutesByID(), filled);
      SameNames(filled, sorted);
      NamesMatch(models, routes, entries, sorted);
      next := Snapshot(at, entries, sorted, current.additions, current.failed);
    }
  }

  lemma {:induction false} NoneSucceeded(clients: seq<Client>, outcomes: seq<Option<seq<Listing>>>)
    requires |clients| == |outcomes|
    ensures Succeeded(clients, outcomes) == [] <==> forall i :: 0 <= i < |outcomes| ==> outcomes[i].None?
  {
    if clients != [] {
      var n := |clients| - 1;
      NoneSucceeded(clients[..n], outcomes[..n]);
      assert forall i :: 0 <= i < n ==> outcomes[..n][i] == outcomes[i];
    }
  }

  /** Whether some route's provider and model were not offered together before. */
  predicate HasNewRoute(previous: seq<Route>, routes: seq<Route>) {
    exists r :: r in routes && forall p :: p in previous ==>
        p.provider != r.provider || p.logicalModel != r.logicalModel
  }

  lemma FormatsKeepNames(routes: seq<Route>, formats: map<string, Format>)
    ensures LogicalIDs(WithFormats(routes, formats)) == LogicalIDs(routes)
    ensures routes == [] <==> WithFormats(routes, formats) == []
  {
    var filled := WithFormats(routes, formats);
    forall r | r in routes ensures r.logicalModel in LogicalIDs(filled) {
      var i :| 0 <= i < |routes| && routes[i] == r;
      assert filled[i] in filled;
    }
  }

  lemma SameNames(a: seq<Route>, b: seq<Route>)
    requires multiset(a) == multiset(b)
    ensures LogicalIDs(a) == LogicalIDs(b) && (a == [] <==> b == [])
  {
    assert forall r :: r in a <==> r in multiset(a);
    assert forall r :: r in b <==> r in multiset(b);
    if a != [] { assert a[0] in multiset(b); }
    if b != [] { assert b[0] in multiset(a); }
  }

  lemma NamesMatch(models: map<string, Model>, unsorted: seq<Route>, entries: seq<Model>, routes: seq<Route>)
    requires Names(models, unsorted) && ModelIDs(entries) == models.Keys && LogicalIDs(routes) == LogicalIDs(unsorted)
    requires DistinctModels(entries)
    ensures ModelIDs(entries) == LogicalIDs(routes)
    ensures forall r :: r in routes ==> HasModel(entries, r.logicalModel)
    ensures entries == [] <==> routes == []
  {
    forall r | r in routes ensures HasModel(entries, r.logicalModel) {
      assert r.logicalModel in LogicalIDs(routes);
    }
    if entries != [] { assert entries[0].id in ModelIDs(entries); }
    if routes != [] { assert routes[0].logicalModel in LogicalIDs(routes); }
  }

  // ---------------------------------------------------------------- which routes a refresh leaves

  /** The route comes from a listing of a client that answered. */
  ghost predicate Listed(slug: string -> string, clients: seq<Client>, outcomes: seq<Option<seq<Listing>>>, r: Route)
    requires |clients| == |outcomes|
  {
    exists i, l :: 0 <= i < |clients| && outcomes[i].Some? && l in outcomes[i].value
      && r == RouteOf(slug, clients[i], l)
  }

  lemma {:induction false} AllRoutesAreListed(slug: string -> string, clients: seq<Client>,
                                              outcomes: seq<Option<seq<Listing>>>, r: Route)
    requires |clients| == |outcomes|
    ensures r in AllRoutes(slug, Succeeded(clients, outcomes)) <==> Listed(slug, clients, outcomes, r)
  {
    hide RouteOf;
    if clients != [] {
      var n := |clients| - 1;
      AllRoutesAreListed(slug, clients[..n], outcomes[..n], r);
      ListedByOneMore(slug, clients, outcomes, r);
      var before := Succeeded(clients[..n], outcomes[..n]);
      if outcomes[n].Some? {
        assert (before + [Batch(clients[n], outcomes[n].value)])[..|before|] == before;
        RoutesOfListings(slug, clients[n], outcomes[n].value, r);
      } else {
        assert before + [] == before;
      }
    }
  }

  lemma RoutesOfListings(slug: string -> string, c: Client, listings: seq<Listing>, r: Route)
    ensures r in RoutesOf(slug, c, listings) <==> exists l :: l in listings && r == RouteOf(slug, c, l)
  {
    hide RouteOf;
    var routes := RoutesOf(slug, c, listings);
    if l :| l in listings && r == RouteOf(slug, c, l) {
      var i :| 0 <= i < |listings| && listings[i] == l;
      assert routes[i] == r;
    }
  }

  lemma ListedByOneMore(slug: string -> string, clients: seq<Client>, outcomes: seq<Option<seq<Listing>>>, r: Route)
    requires |clients| == |outcomes| && clients != []
    ensures var n := |clients| - 1;
            Listed(slug, clients, outcomes, r) <==>
              Listed(slug, clients[..n], outcomes[..n], r)
              || (outcomes[n].Some? && exists l :: l in outcomes[n].value && r == RouteOf(slug, clients[n], l))
  {
    hide RouteOf;
    var n := |clients| - 1;
    if Listed(slug, clients[..n], outcomes[..n], r) {
      var i, l :| 0 <= i < n && outcomes[..n][i].Some? && l in outcomes[..n][i].value
                  && r == RouteOf(slug, clients[..n][i], l);
      assert outcomes[i] == outcomes[..n][i] && clients[i] == clients[..n][i];
    }
    if Listed(slug, clients, outcomes, r) {
      var i, l :| 0 <= i < |clients| && outcomes[i].Some? && l in outcomes[i].value
                  && r == RouteOf(slug, clients[i], l);
      if i < n { assert outcomes[..n][i] == outcomes[i] && clients[..n][i] == clients[i]; }
    }
  }

  lemma {:induction false} PreservedExactly(routes: seq<Route>, failed: set<string>, r: Route)
    ensures r in Preserved(routes, failed) <==> r in routes && RouteKey(r) in failed
  {
    if routes != [] {
      PreservedExactly(routes[..|routes| - 1], failed, r);
      assert routes == routes[..|routes| - 1] + [routes[|routes| - 1]];
    }
  }

  /**
   After a refresh a route is there exactly if a client that answered lists it, or it was there before and its
   client could not be asked; either way it keeps a format that was known for it.
   */
  lemma RoutesAfterRefresh(slug: string -> string, previous: Snapshot, clients: seq<Client>,
                           outcomes: seq<Option<seq<Listing>>>, x: Route)
    requires |clients| == |outcomes|
    ensures x in NextRoutes(slug, previous, clients, outcomes) <==>
              exists r :: x == WithFormat(r, KnownFormats(previous.routes))
                       && (Listed(slug, clients, outcomes, r)
                           || (r in previous.routes && RouteKey(r) in FailedKeys(clients, outcomes)))
  {
    hide AllRoutes, Preserved, KnownFormats, WithFormat, Listed, FailedKeys, Succeeded, RouteKey;
    var formats := KnownFormats(previous.routes);
    var routes := AllRoutes(slug, Succeeded(clients, outcomes))
                  + Preserved(previous.routes, FailedKeys(clients, outcomes));
    forall r ensures r in routes <==>
        Listed(slug, clients, outcomes, r) || (r in previous.routes && RouteKey(r) in FailedKeys(clients, outcomes)) {
      AllRoutesAreListed(slug, clients, outcomes, r);
      PreservedExactly(previous.routes, FailedKeys(clients, outcomes), r);
    }
    var next := NextRoutes(slug, previous, clients, outcomes);
    if x in next {
      var i :| 0 <= i < |next| && next[i] == x;
      assert routes[i] in routes && x == WithFormat(routes[i], formats);
    }
    if r :| x == WithFormat(r, formats) && r in routes {
      var i :| 0 <= i < |routes| && routes[i] == r;
      assert next[i] == x;
    }
  }
}
