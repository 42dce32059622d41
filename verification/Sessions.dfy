/**
 Session correlation (internal/session/fingerprint.go, internal/session/detector.go,
 internal/db/repositories/sessions_repository.go). A keyed hash is the value it hashes: two are equal only if those are.
 */
module Sessions {
  import opened Wrappers
  import Ordering

  datatype Item = Item(kind: string, value: string)

  /** The chain of keyed hashes over a client's history, newest item outermost. */
  datatype Digest = Seed(client: string) | Chain(previous: Digest, item: Item) {
    function Client(): string { match this case Seed(c) => c case Chain(p, _) => p.Client() }

    function Length(): nat { match this case Seed(_) => 0 case Chain(p, _) => p.Length() + 1 }

    /** The hash of the first item alone. */
    function Root(): Digest { match this case Seed(_) => this case Chain(p, _) => if p.Seed? then this else p.Root() }
  }

  /** The hash of a whole history. */
  function HashOf(client: string, items: seq<Item>): (d: Digest)
    ensures d.Client() == client && d.Length() == |items|
  {
    if items == [] then Seed(client) else Chain(HashOf(client, items[..|items| - 1]), items[|items| - 1])
  }

  lemma {:induction false} HashIsInjective(c: string, a: seq<Item>, d: string, b: seq<Item>)
    requires HashOf(c, a) == HashOf(d, b)
    ensures c == d && a == b
  {
    if a != [] && b != [] { HashIsInjective(c, a[..|a| - 1], d, b[..|b| - 1]); }
  }

  lemma {:induction false} PrefixesShareRoot(c: string, items: seq<Item>, n: nat)
    requires 0 < n <= |items|
    ensures HashOf(c, items[..n]).Root() == HashOf(c, items[..1])
  {
    assert items[..n][..n - 1] == items[..n - 1];
    if n > 1 { PrefixesShareRoot(c, items, n - 1); } else { assert items[..0] == []; }
  }

  method PrefixHashes(client: string, items: seq<Item>) returns (result: seq<Digest>)
    ensures |result| == |items| && forall i :: 0 <= i < |items| ==> result[i] == HashOf(client, items[..i + 1])
  {
    var previous := Seed(client);
    result := [];
    for i := 0 to |items|
      invariant previous == HashOf(client, items[..i])
      invariant |result| == i && forall k :: 0 <= k < i ==> result[k] == HashOf(client, items[..k + 1])
    {
      assert items[..i + 1][..i] == items[..i];
      previous := Chain(previous, items[i]);
      result := result + [previous];
    }
  }

  // ---------------------------------------------------------------- the two tables

  const HOUR: int := 3600_000_000_000
  const RETENTION: int := 30 * 24 * HOUR
  const CLEANUP_INTERVAL: int := 300_000_000_000
  const MAX_FINGERPRINTS := 8

  datatype KeyRow = KeyRow(anchor: bool, seen: int)

  type SessionKey = (string, string)
  type HashKey = (string, string, Digest)

  /** sessions by (client, session) with their last-seen time; session_keys by (client, session, hash). */
  datatype Tables = Tables(sessions: map<SessionKey, int>, keys: map<HashKey, KeyRow>)

  predicate Retained(t: Tables, client: string, id: string, cutoff: int) {
    (client, id) in t.sessions && t.sessions[(client, id)] >= cutoff
  }

  /** The retained sessions of a client that own a hash. */
  function Owners(t: Tables, client: string, hash: Digest, cutoff: int): set<string> {
    set k | k in t.keys && k.0 == client && k.2 == hash && Retained(t, client, k.1, cutoff) :: k.1
  }

  predicate Expired(t: Tables, k: HashKey, cutoff: int) {
    (k.0, k.1) in t.sessions && t.sessions[(k.0, k.1)] < cutoff
  }

  function Cleaned(t: Tables, cutoff: int): Tables {
    t.(keys := map k | k in t.keys && !Expired(t, k, cutoff) :: t.keys[k])
  }

  /** The fingerprints of a session besides its anchor. */
  function Fingerprints(t: Tables, client: string, id: string): set<Digest> {
    set k | k in t.keys && k.0 == client && k.1 == id && !t.keys[k].anchor :: k.2
  }

  /** Every key hashes its own client's history, its session exists, and only a first message is an anchor. */
  ghost predicate KeysFit(t: Tables) {
    forall k :: k in t.keys ==>
      && (k.0, k.1) in t.sessions && k.2.Client() == k.0 && k.2.Length() > 0
      && (t.keys[k].anchor <==> k.2.Length() == 1)
  }

  ghost predicate RootedAt(t: Tables, client: string, id: string, root: Digest) {
    forall k :: k in t.keys && k.0 == client && k.1 == id ==> k.2.Root() == root
  }

  /** All keys of one session start with the same message. */
  ghost predicate OneRoot(t: Tables) {
    forall k, l :: k in t.keys && l in t.keys && k.0 == l.0 && k.1 == l.1 ==> k.2.Root() == l.2.Root()
  }

  /** What every sequence of store calls keeps. */
  ghost predicate Good(t: Tables) {
    KeysFit(t) && OneRoot(t) && forall c, s :: |Fingerprints(t, c, s)| <= MAX_FINGERPRINTS
  }

  lemma RootOfOne(d: Digest)
    requires d.Length() == 1
    ensures d.Root() == d
  {}

  /** A session has at most one anchor: the hash of the first message all its keys share. */
  lemma AtMostOneAnchor(t: Tables, k: HashKey, l: HashKey)
    requires Good(t) && k in t.keys && l in t.keys && k.0 == l.0 && k.1 == l.1
    requires t.keys[k].anchor && t.keys[l].anchor
    ensures k == l
  {
    RootOfOne(k.2);
    RootOfOne(l.2);
  }

  function KeysOf(t: Tables, client: string, id: string): set<Digest> {
    set k | k in t.keys && k.0 == client && k.1 == id :: k.2
  }

  lemma AtMostNineKeys(t: Tables, client: string, id: string)
    requires Good(t)
    ensures |KeysOf(t, client, id)| <= MAX_FINGERPRINTS + 1
  {
    hide KeysFit, OneRoot;
    var all, prints := KeysOf(t, client, id), Fingerprints(t, client, id);
    var anchors := all - prints;
    forall a, b | a in anchors && b in anchors ensures a == b {
      AtMostOneAnchor(t, (client, id, a), (client, id, b));
    }
    assert |anchors| <= 1 by { if anchors != {} { var a :| a in anchors; assert anchors == {a}; } }
    assert prints <= all && all == prints + anchors;
  }

  // ---------------------------------------------------------------- choosing and registering

  /** The sole owner of the longest owned prefix; `freshID` if that prefix has several owners, or nothing is owned. */
  ghost function Choose(t: Tables, client: string, hashes: seq<Digest>, freshID: string, cutoff: int): string {
    if hashes == [] then freshID
    else
      var owners := Owners(t, client, hashes[0], cutoff);
      if owners == {} then Choose(t, client, hashes[1..], freshID, cutoff)
      else if exists s :: owners == {s} then (var s :| owners == {s}; s)
      else freshID
  }

  function WithKey(t: Tables, client: string, id: string, hash: Digest, anchor: bool, now: int): Tables {
    var k := (client, id, hash);
    t.(keys := t.keys[k := KeyRow(anchor || (k in t.keys && t.keys[k].anchor), now)])
  }

  function WithSession(t: Tables, client: string, id: string, now: int): Tables {
    t.(sessions := t.sessions[(client, id) := now])
  }

  /** A new session adds no evidence that another retained session already owns, as far as the hash was looked up. */
  predicate Withheld(t: Tables, client: string, id: string, freshID: string, hashes: seq<Digest>, hash: Digest,
                     cutoff: int) {
    id == freshID && hash in hashes && Owners(t, client, hash, cutoff) != {}
  }

  /** The tables after a call that chose `id`, before pruning. */
  function Registered(t: Tables, client: string, id: string, freshID: string, hashes: seq<Digest>,
                      anchor: Digest, fingerprint: Digest, now: int): Tables {
    var cutoff := now - RETENTION;
    var t0 := WithSession(t, client, id, now);
    var t1 := if Withheld(t, client, id, freshID, hashes, anchor, cutoff) then t0
              else WithKey(t0, client, id, anchor, true, now);
    if fingerprint == anchor || Withheld(t, client, id, freshID, hashes, fingerprint, cutoff) then t1
    else WithKey(t1, client, id, fingerprint, false, now)
  }

  datatype Row = Row(hash: Digest, anchor: bool, seen: int)

  /** ORDER BY is_anchor DESC, last_seen_at DESC, key_hash ASC. */
  predicate Before(rank: Digest -> int, a: Row, b: Row) {
    if a.anchor != b.anchor then a.anchor
    else if a.seen != b.seen then a.seen > b.seen
    else rank(a.hash) < rank(b.hash)
  }

  function RowAt(t: Tables, client: string, id: string, hash: Digest): Row
    requires (client, id, hash) in t.keys
  {
    var row := t.keys[(client, id, hash)];
    Row(hash, row.anchor, row.seen)
  }

  /** Only fingerprints of one session go, the least recent first, and only down to the limit. */
  ghost predicate Pruned(rank: Digest -> int, before: Tables, after: Tables, client: string, id: string) {
    && after.sessions == before.sessions
    && after.keys.Keys <= before.keys.Keys && (forall k :: k in after.keys ==> after.keys[k] == before.keys[k])
    && (forall k :: k in before.keys && k !in after.keys ==> k.0 == client && k.1 == id && !before.keys[k].anchor)
    && |Fingerprints(after, client, id)| <= MAX_FINGERPRINTS
    && (forall k :: k in before.keys && k !in after.keys ==> |Fingerprints(after, client, id)| == MAX_FINGERPRINTS)
    && (forall h, d ::
          (client, id, h) in after.keys && (client, id, d) in before.keys && (client, id, d) !in after.keys ==>
          !Before(rank, RowAt(before, client, id, d), RowAt(before, client, id, h)))
  }

  /** One successful ResolveAndRegister: the session it answers, and the tables it leaves. */
  ghost predicate Resolves(rank: Digest -> int, t: Tables, client: string, hashes: seq<Digest>, anchor: Digest,
                           fingerprint: Digest, freshID: string, now: int, id: string, t': Tables) {
    && id == Choose(t, client, hashes, freshID, now - RETENTION)
    && Pruned(rank, Registered(t, client, id, freshID, hashes, anchor, fingerprint, now), t', client, id)
  }

  // ---------------------------------------------------------------- the invariant

  /** `hashes` are the prefixes of a history, longest first, as the detector hands them over. */
  ghost predicate LongestFirst(client: string, items: seq<Item>, hashes: seq<Digest>) {
    |hashes| == |items| && forall i :: 0 <= i < |items| ==> hashes[i] == HashOf(client, items[..|items| - i])
  }

  lemma CleaningKeepsGood(t: Tables, cutoff: int)
    requires Good(t)
    ensures Good(Cleaned(t, cutoff))
  {
    var t' := Cleaned(t, cutoff);
    forall c, s ensures |Fingerprints(t', c, s)| <= MAX_FINGERPRINTS {
      SubsetSize(Fingerprints(t', c, s), Fingerprints(t, c, s));
    }
  }

  lemma {:induction false} SubsetSize<T>(a: set<T>, b: set<T>)
    requires a <= b
    ensures |a| <= |b|
  {
    assert b == a + (b - a);
  }

  /** The session chosen is fresh, or the sole owner of some prefix of the history. */
  lemma {:induction false} ChosenOwns(t: Tables, client: string, hashes: seq<Digest>, freshID: string, cutoff: int)
    ensures var id := Choose(t, client, hashes, freshID, cutoff);
            id == freshID || exists i :: 0 <= i < |hashes| && Owners(t, client, hashes[i], cutoff) == {id}
  {
    if hashes != [] && Owners(t, client, hashes[0], cutoff) == {} {
      ChosenOwns(t, client, hashes[1..], freshID, cutoff);
      var id := Choose(t, client, hashes[1..], freshID, cutoff);
      if id != freshID {
        var i :| 0 <= i < |hashes[1..]| && Owners(t, client, hashes[1..][i], cutoff) == {id};
        assert hashes[i + 1] == hashes[1..][i];
      }
    }
  }

  /** Position `i` is the longest prefix that anyone owns. */
  ghost predicate LongestOwned(t: Tables, client: string, hashes: seq<Digest>, cutoff: int, i: nat) {
    && i < |hashes| && Owners(t, client, hashes[i], cutoff) != {}
    && forall j :: 0 <= j < i ==> Owners(t, client, hashes[j], cutoff) == {}
  }

  /** The sole owner of the longest owned prefix is chosen; the fresh id if that has several, or nothing is owned. */
  lemma {:induction false} ChosenExactly(t: Tables, client: string, hashes: seq<Digest>, freshID: string, cutoff: int)
    ensures var id := Choose(t, client, hashes, freshID, cutoff);
            && (forall i: nat :: LongestOwned(t, client, hashes, cutoff, i) ==>
                  var owners := Owners(t, client, hashes[i], cutoff);
                  if |owners| == 1 then owners == {id} else id == freshID)
            && ((forall i: nat :: !LongestOwned(t, client, hashes, cutoff, i)) ==> id == freshID)
  {
    hide Owners;
    if hashes != [] {
      var owners := Owners(t, client, hashes[0], cutoff);
      if owners == {} {
        ChosenExactly(t, client, hashes[1..], freshID, cutoff);
        forall i: nat
          ensures LongestOwned(t, client, hashes[1..], cutoff, i) <==> LongestOwned(t, client, hashes, cutoff, i + 1)
        {
          LongestOwnedLater(t, client, hashes, cutoff, i);
        }
      } else {
        assert LongestOwned(t, client, hashes, cutoff, 0);
        SoleMember(owners);
      }
    }
  }

  lemma LongestOwnedLater(t: Tables, client: string, hashes: seq<Digest>, cutoff: int, i: nat)
    requires hashes != [] && Owners(t, client, hashes[0], cutoff) == {}
    ensures LongestOwned(t, client, hashes[1..], cutoff, i) <==> LongestOwned(t, client, hashes, cutoff, i + 1)
  {
    hide Owners;
    assert forall j :: 0 <= j < |hashes| - 1 ==> hashes[1..][j] == hashes[j + 1];
    if LongestOwned(t, client, hashes[1..], cutoff, i) {
      forall j | 0 <= j < i + 1 ensures Owners(t, client, hashes[j], cutoff) == {} {
        if j > 0 { assert hashes[1..][j - 1] == hashes[j]; }
      }
    }
  }

  lemma SoleMember<T>(s: set<T>)
    ensures |s| == 1 <==> exists x :: s == {x}
  {
    if |s| == 1 {
      var x :| x in s;
      assert |s - {x}| == 0;
      assert s == {x};
    }
  }

  /** Everything a session holds shares the root of the history it is chosen for. */
  lemma ChosenSharesRoot(t: Tables, client: string, items: seq<Item>, hashes: seq<Digest>, freshID: string, cutoff: int,
                         k: HashKey)
    requires Good(t) && items != [] && LongestFirst(client, items, hashes)
    requires forall l :: l in t.keys ==> !(l.0 == client && l.1 == freshID)
    requires k in t.keys && k.0 == client && k.1 == Choose(t, client, hashes, freshID, cutoff)
    ensures k.2.Root() == HashOf(client, items[..1])
  {
    ChosenOwns(t, client, hashes, freshID, cutoff);
    var i :| 0 <= i < |hashes| && Owners(t, client, hashes[i], cutoff) == {k.1};
    assert k.1 in Owners(t, client, hashes[i], cutoff);
    PrefixesShareRoot(client, items, |items| - i);
  }

  ghost predicate OthersKept(t: Tables, t': Tables, client: string, id: string) {
    && (forall k :: k in t'.keys && !(k.0 == client && k.1 == id) ==> k in t.keys && t'.keys[k] == t.keys[k])
    && (forall k :: k in t.keys && !(k.0 == client && k.1 == id) ==> k in t'.keys)
  }

  lemma AddingAKey(t: Tables, client: string, id: string, hash: Digest, anchor: bool, now: int, root: Digest)
    requires KeysFit(t) && OneRoot(t) && RootedAt(t, client, id, root) && (client, id) in t.sessions
    requires hash.Client() == client && hash.Length() > 0 && (anchor <==> hash.Length() == 1) && hash.Root() == root
    ensures var t' := WithKey(t, client, id, hash, anchor, now);
            KeysFit(t') && OneRoot(t') && RootedAt(t', client, id, root) && OthersKept(t, t', client, id)
            && t'.sessions == t.sessions
  {
    var t' := WithKey(t, client, id, hash, anchor, now);
    assert forall k :: k in t'.keys ==> k == (client, id, hash) || (k in t.keys && t'.keys[k] == t.keys[k]);
  }

  lemma OneItem(client: string, items: seq<Item>)
    requires items != []
    ensures |items| == 1 <==> HashOf(client, items) == HashOf(client, items[..1])
    ensures HashOf(client, items).Root() == HashOf(client, items[..1]) == HashOf(client, items[..1]).Root()
  {
    assert items[..|items|] == items;
    PrefixesShareRoot(client, items, 1);
    PrefixesShareRoot(client, items, |items|);
    if |items| == 1 { assert items[..1] == items; } else { assert HashOf(client, items).Length() == |items|; }
  }

  lemma OthersKeptTwice(t: Tables, u: Tables, v: Tables, client: string, id: string)
    requires OthersKept(t, u, client, id) && OthersKept(u, v, client, id)
    ensures OthersKept(t, v, client, id)
  {}

  lemma SeeingASession(t: Tables, client: string, id: string, now: int, root: Digest)
    requires KeysFit(t) && OneRoot(t) && RootedAt(t, client, id, root)
    ensures var t' := WithSession(t, client, id, now);
            KeysFit(t') && OneRoot(t') && RootedAt(t', client, id, root) && OthersKept(t, t', client, id)
            && (client, id) in t'.sessions
  {}

  lemma RegisteringAt(t: Tables, client: string, items: seq<Item>, hashes: seq<Digest>, id: string, freshID: string,
                      now: int)
    requires items != [] && KeysFit(t) && OneRoot(t) && RootedAt(t, client, id, HashOf(client, items[..1]))
    ensures var r := Registered(t, client, id, freshID, hashes, HashOf(client, items[..1]), HashOf(client, items), now);
            KeysFit(r) && OneRoot(r) && OthersKept(t, r, client, id)
  {
    var a, f, cutoff := HashOf(client, items[..1]), HashOf(client, items), now - RETENTION;
    OneItem(client, items);
    var t0 := WithSession(t, client, id, now);
    SeeingASession(t, client, id, now, a);
    hide KeysFit, OneRoot, RootedAt, WithSession, Withheld, OthersKept, WithKey, HashOf;
    AddingAKey(t0, client, id, a, true, now, a);
    OthersKeptTwice(t, t0, WithKey(t0, client, id, a, true, now), client, id);
    var t1 := if Withheld(t, client, id, freshID, hashes, a, cutoff) then t0 else WithKey(t0, client, id, a, true, now);
    if f != a {
      AddingAKey(t1, client, id, f, false, now, a);
      OthersKeptTwice(t, t1, WithKey(t1, client, id, f, false, now), client, id);
    }
  }

  /** Registering keeps every law but the limit on the chosen session's fingerprints. */
  lemma RegisteringKeeps(t: Tables, client: string, items: seq<Item>, hashes: seq<Digest>, freshID: string, now: int)
    requires Good(t) && items != [] && LongestFirst(client, items, hashes)
    requires forall l :: l in t.keys ==> !(l.0 == client && l.1 == freshID)
    ensures var id := Choose(t, client, hashes, freshID, now - RETENTION);
            var r := Registered(t, client, id, freshID, hashes, HashOf(client, items[..1]), HashOf(client, items), now);
            KeysFit(r) && OneRoot(r) && OthersKept(t, r, client, id)
  {
    var id := Choose(t, client, hashes, freshID, now - RETENTION);
    forall k | k in t.keys && k.0 == client && k.1 == id ensures k.2.Root() == HashOf(client, items[..1]) {
      ChosenSharesRoot(t, client, items, hashes, freshID, now - RETENTION, k);
    }
    RegisteringAt(t, client, items, hashes, id, freshID, now);
  }

  lemma PruningRestoresLimit(rank: Digest -> int, t: Tables, r: Tables, t': Tables, client: string, id: string)
    requires Good(t) && KeysFit(r) && OneRoot(r) && OthersKept(t, r, client, id) && Pruned(rank, r, t', client, id)
    ensures Good(t') && OthersKept(t, t', client, id)
  {
    hide Before, RowAt, KeysFit, OneRoot;
    PrunedFits(rank, r, t', client, id);
    forall c, s ensures |Fingerprints(t', c, s)| <= MAX_FINGERPRINTS {
      if c != client || s != id { SubsetSize(Fingerprints(t', c, s), Fingerprints(t, c, s)); }
    }
  }

  lemma PrunedFits(rank: Digest -> int, r: Tables, t': Tables, client: string, id: string)
    requires KeysFit(r) && OneRoot(r) && Pruned(rank, r, t', client, id)
    ensures KeysFit(t') && OneRoot(t')
  {
    hide Before, RowAt, Fingerprints;
  }

  /** One call keeps the invariant and leaves every other session as it was. */
  lemma ResolvingKeepsGood(rank: Digest -> int, t: Tables, client: string, items: seq<Item>, hashes: seq<Digest>,
                           freshID: string, now: int, id: string, t': Tables)
    requires Good(t) && items != [] && LongestFirst(client, items, hashes)
    requires forall l :: l in t.keys ==> !(l.0 == client && l.1 == freshID)
    requires Resolves(rank, t, client, hashes, HashOf(client, items[..1]), HashOf(client, items), freshID, now, id, t')
    ensures Good(t') && OthersKept(t, t', client, id)
    ensures t'.sessions == t.sessions[(client, id) := now]
  {
    hide Good, KeysFit, OneRoot, OthersKept, Choose;
    RegisteringKeeps(t, client, items, hashes, freshID, now);
    var r := Registered(t, client, id, freshID, hashes, HashOf(client, items[..1]), HashOf(client, items), now);
    PruningRestoresLimit(rank, t, r, t', client, id);
  }

  // ---------------------------------------------------------------- continuity

  /** The key just registered is the newest, so pruning keeps it. */
  lemma NewestKeyStays(rank: Digest -> int, r: Tables, t': Tables, client: string, id: string, hash: Digest)
    requires Pruned(rank, r, t', client, id) && (client, id, hash) in r.keys
    requires forall h :: h in Fingerprints(r, client, id) && h != hash ==>
               r.keys[(client, id, h)].seen < r.keys[(client, id, hash)].seen
    ensures (client, id, hash) in t'.keys
  {}

  /** Owners of longer prefixes permitting, the sole owner of a prefix is chosen. */
  lemma {:induction false} SoleOwnerIsChosen(t: Tables, client: string, hashes: seq<Digest>, freshID: string,
                                             cutoff: int, i: nat, id: string)
    requires i < |hashes| && Owners(t, client, hashes[i], cutoff) == {id}
    requires forall j :: 0 <= j < i ==> Owners(t, client, hashes[j], cutoff) <= {id}
    ensures Choose(t, client, hashes, freshID, cutoff) == id
  {
    hide Owners;
    var owners := Owners(t, client, hashes[0], cutoff);
    if i == 0 {
      assert owners == {id};
    } else if owners == {} {
      SoleOwnerIsChosen(t, client, hashes[1..], freshID, cutoff, i - 1, id);
    } else {
      assert owners == {id};
    }
  }

  /** The whole history has exactly one owner left after a call that was not ambiguous. */
  lemma CallOwnsItsHistory(rank: Digest -> int, t: Tables, client: string, items: seq<Item>, hashes: seq<Digest>,
                           freshID: string, now: int, id: string, t': Tables, cutoff: int)
    requires Good(t) && items != [] && LongestFirst(client, items, hashes)
    requires forall l :: l in t.keys ==> !(l.0 == client && l.1 == freshID)
    requires Resolves(rank, t, client, hashes, HashOf(client, items[..1]), HashOf(client, items), freshID, now, id, t')
    requires id == freshID ==> forall i :: 0 <= i < |hashes| ==> Owners(t, client, hashes[i], now - RETENTION) == {}
    requires forall k :: k in t.keys && k.0 == client && k.1 == id ==> t.keys[k].seen < now
    requires now - RETENTION <= cutoff <= now
    ensures Owners(t', client, HashOf(client, items), cutoff) == {id}
  {
    hide KeysFit, OneRoot, Choose, Registered, Pruned, Fingerprints;
    var a, f := HashOf(client, items[..1]), HashOf(client, items);
    var r := Registered(t, client, id, freshID, hashes, a, f, now);
    ResolvingKeepsGood(rank, t, client, items, hashes, freshID, now, id, t');
    assert items[..|items|] == items && hashes[0] == f;
    var before := Owners(t, client, f, now - RETENTION);
    assert before == {} || before == {id} by { FirstDecides(t, client, hashes, freshID, now - RETENTION); }
    OneItem(client, items);
    NewKeys(t, client, id, freshID, hashes, a, f, now);
    NewestKeyStays(rank, r, t', client, id, f);
    forall s | s in Owners(t', client, f, cutoff) ensures s == id {
      OwnedBefore(t, t', client, id, now, f, s, now - RETENTION, cutoff);
    }
    assert (client, id, f) in t'.keys;
  }

  lemma OwnedBefore(t: Tables, t': Tables, client: string, id: string, now: int, hash: Digest, s: string, cutoff: int,
                    cutoff': int)
    requires OthersKept(t, t', client, id) && t'.sessions == t.sessions[(client, id) := now] && cutoff <= cutoff'
    ensures s in Owners(t', client, hash, cutoff') && s != id ==> s in Owners(t, client, hash, cutoff)
  {}

  lemma FirstDecides(t: Tables, client: string, hashes: seq<Digest>, freshID: string, cutoff: int)
    requires hashes != []
    ensures var owners := Owners(t, client, hashes[0], cutoff);
            var id := Choose(t, client, hashes, freshID, cutoff);
            owners == {} || owners == {id} || id == freshID
  {}

  /** What a registration leaves in the rows of its session: the history's own key, stamped now, and older ones. */
  lemma NewKeys(t: Tables, client: string, id: string, freshID: string, hashes: seq<Digest>, a: Digest, f: Digest,
                now: int)
    requires !Withheld(t, client, id, freshID, hashes, f, now - RETENTION)
    requires forall k :: k in t.keys && k.0 == client && k.1 == id ==> t.keys[k].seen < now
    ensures var r := Registered(t, client, id, freshID, hashes, a, f, now);
            && (client, id, f) in r.keys && r.keys[(client, id, f)].seen == now
            && forall h :: h in Fingerprints(r, client, id) && h != f ==> r.keys[(client, id, h)].seen < now
  {}

  ghost predicate SameOwners(t: Tables, u: Tables, client: string, cutoff: int) {
    forall h :: Owners(t, client, h, cutoff) == Owners(u, client, h, cutoff)
  }

  /**
   Continuity: after a call that was not ambiguous answered `id` for a history, the client's next call within
   retention with that history or an extension of it answers `id` again, unless another session already owns
   a longer prefix. `u` is the store by then: other clients may have used it.
   */
  lemma SessionContinues(rank: Digest -> int, t: Tables, client: string, items: seq<Item>, hashes: seq<Digest>,
                         freshID: string, now: int, id: string, t': Tables,
                         u: Tables, items': seq<Item>, hashes': seq<Digest>, freshID': string, now': int)
    requires Good(t) && items != [] && LongestFirst(client, items, hashes)
    requires forall l :: l in t.keys ==> !(l.0 == client && l.1 == freshID)
    requires Resolves(rank, t, client, hashes, HashOf(client, items[..1]), HashOf(client, items), freshID, now, id, t')
    requires id == freshID ==> forall i :: 0 <= i < |hashes| ==> Owners(t, client, hashes[i], now - RETENTION) == {}
    requires forall k :: k in t.keys && k.0 == client && k.1 == id ==> t.keys[k].seen < now
    requires now <= now' <= now + RETENTION && items <= items' && LongestFirst(client, items', hashes')
    requires SameOwners(u, t', client, now' - RETENTION)
    requires forall n :: |items| < n <= |items'| ==>
               Owners(u, client, HashOf(client, items'[..n]), now' - RETENTION) <= {id}
    ensures Choose(u, client, hashes', freshID', now' - RETENTION) == id
  {
    hide Owners, Choose, Resolves, Good, HashOf;
    CallOwnsItsHistory(rank, t, client, items, hashes, freshID, now, id, t', now' - RETENTION);
    var i := |items'| - |items|;
    assert items'[..|items|] == items;
    forall j | 0 <= j < i ensures Owners(u, client, hashes'[j], now' - RETENTION) <= {id} {
      assert hashes'[j] == HashOf(client, items'[..|items'| - j]);
    }
    SoleOwnerIsChosen(u, client, hashes', freshID', now' - RETENTION, i, id);
  }

  /** Cleaning takes no retained owner away. */
  lemma CleaningKeepsOwners(t: Tables, client: string, cleaned: int, cutoff: int)
    requires cleaned <= cutoff
    ensures SameOwners(Cleaned(t, cleaned), t, client, cutoff)
  {}

  /** A call for one client changes no owner of another's hashes. */
  lemma OtherClientsKeepOwners(t: Tables, t': Tables, other: string, id: string, now: int, client: string, cutoff: int)
    requires OthersKept(t, t', other, id) && t'.sessions == t.sessions[(other, id) := now] && other != client
    ensures SameOwners(t', t, client, cutoff)
  {}

  // ---------------------------------------------------------------- runs of calls

  ghost predicate Unused(t: Tables, client: string, id: string) {
    forall k :: k in t.keys ==> !(k.0 == client && k.1 == id)
  }

  /** What a call for `client` leaves alone: who owns other clients' hashes, and every id it cannot have answered. */
  ghost predicate Confined(t: Tables, t': Tables, client: string, freshID: string, now: int) {
    && (forall c, cutoff :: c != client && now - RETENTION <= cutoff ==> SameOwners(t', t, c, cutoff))
    && (forall c, s :: Unused(t, c, s) && (c != client || s != freshID) ==> Unused(t', c, s))
  }

  lemma NothingIsConfined(t: Tables, client: string, freshID: string, now: int)
    ensures Confined(t, t, client, freshID, now)
  {}

  lemma UpsertIsConfined(t: Tables, client: string, id: string, freshID: string, now: int)
    ensures Confined(t, WithSession(t, client, id, now), client, freshID, now)
  {
    var t' := WithSession(t, client, id, now);
    forall c, cutoff, h | c != client ensures Owners(t', c, h, cutoff) == Owners(t, c, h, cutoff) {}
  }

  /** The store a call starts from: cleaned first when that is due. */
  function StartOf(t: Tables, due: bool, now: int): Tables { if due then Cleaned(t, now - RETENTION) else t }

  lemma StartKeepsOwners(t: Tables, due: bool, now: int, client: string, cutoff: int)
    requires now - RETENTION <= cutoff
    ensures SameOwners(StartOf(t, due, now), t, client, cutoff)
  {
    CleaningKeepsOwners(t, client, now - RETENTION, cutoff);
  }

  lemma CallIsConfined(rank: Digest -> int, t: Tables, due: bool, client: string, items: seq<Item>, hashes: seq<Digest>,
                       freshID: string, now: int, id: string, t': Tables)
    requires Good(StartOf(t, due, now)) && Unused(StartOf(t, due, now), client, freshID) && items != []
             && LongestFirst(client, items, hashes)
    requires Resolves(rank, StartOf(t, due, now), client, hashes, HashOf(client, items[..1]), HashOf(client, items),
                      freshID, now, id, t')
    ensures Confined(t, t', client, freshID, now)
  {
    hide Good, HashOf, Resolves, Owners, Cleaned;
    var start := StartOf(t, due, now);
    ResolvingKeepsGood(rank, start, client, items, hashes, freshID, now, id, t');
    forall c, cutoff | c != client && now - RETENTION <= cutoff ensures SameOwners(t', t, c, cutoff) {
      StartKeepsOwners(t, due, now, c, cutoff);
      OtherClientsKeepOwners(start, t', client, id, now, c, cutoff);
    }
    forall c, s | Unused(t, c, s) && (c != client || s != freshID) ensures Unused(t', c, s) {
      UnusedAtStart(t, due, now, c, s);
      AnsweredIsUsed(start, client, hashes, freshID, now - RETENTION);
      ChosenByCall(rank, start, client, items, hashes, freshID, now, id, t');
    }
  }

  lemma ChosenByCall(rank: Digest -> int, t: Tables, client: string, items: seq<Item>, hashes: seq<Digest>,
                     freshID: string, now: int, id: string, t': Tables)
    requires items != [] && Resolves(rank, t, client, hashes, HashOf(client, items[..1]), HashOf(client, items),
                                     freshID, now, id, t')
    ensures id == Choose(t, client, hashes, freshID, now - RETENTION)
  {}

  lemma UnusedAtStart(t: Tables, due: bool, now: int, client: string, id: string)
    requires Unused(t, client, id)
    ensures Unused(StartOf(t, due, now), client, id)
  {}

  /** The answer is fresh or in use: a session without keys is never found again. */
  lemma AnsweredIsUsed(t: Tables, client: string, hashes: seq<Digest>, freshID: string, cutoff: int)
    ensures var id := Choose(t, client, hashes, freshID, cutoff);
            id == freshID || !Unused(t, client, id)
  {
    ChosenOwns(t, client, hashes, freshID, cutoff);
    var id := Choose(t, client, hashes, freshID, cutoff);
    if id != freshID {
      var i :| 0 <= i < |hashes| && Owners(t, client, hashes[i], cutoff) == {id};
      assert id in Owners(t, client, hashes[i], cutoff);
    }
  }

  /** No prefix of the history has an owner. */
  ghost predicate NothingOwned(t: Tables, client: string, items: seq<Item>, cutoff: int) {
    forall n :: 0 < n <= |items| ==> Owners(t, client, HashOf(client, items[..n]), cutoff) == {}
  }

  /** No other session owns a prefix of `items'` longer than `items`. */
  ghost predicate NoLongerOwner(t: Tables, client: string, items: seq<Item>, items': seq<Item>, id: string,
                                cutoff: int) {
    forall n :: |items| < n <= |items'| ==> Owners(t, client, HashOf(client, items'[..n]), cutoff) <= {id}
  }

  lemma SameOwnersTwice(t: Tables, u: Tables, v: Tables, client: string, cutoff: int)
    requires SameOwners(u, t, client, cutoff) && SameOwners(v, u, client, cutoff)
    ensures SameOwners(v, t, client, cutoff)
  {}

  /** Longer prefixes have no owner but `id` after its call either. */
  lemma StillNoLongerOwner(t: Tables, due: bool, client: string, items: seq<Item>, items': seq<Item>, now: int,
                           id: string, t': Tables, cutoff: int)
    requires OthersKept(StartOf(t, due, now), t', client, id)
             && t'.sessions == StartOf(t, due, now).sessions[(client, id) := now]
    requires now - RETENTION <= cutoff && NoLongerOwner(t, client, items, items', id, cutoff)
    ensures NoLongerOwner(t', client, items, items', id, cutoff)
  {
    hide Owners, StartOf, OthersKept, HashOf;
    StartKeepsOwners(t, due, now, client, cutoff);
    forall n | |items| < n <= |items'| ensures Owners(t', client, HashOf(client, items'[..n]), cutoff) <= {id} {
      var h := HashOf(client, items'[..n]);
      forall s | s in Owners(t', client, h, cutoff) ensures s == id {
        OwnedBefore(StartOf(t, due, now), t', client, id, now, h, s, cutoff, cutoff);
      }
    }
  }

  lemma NothingOwnedAtStart(t: Tables, due: bool, client: string, items: seq<Item>, hashes: seq<Digest>, now: int)
    requires NothingOwned(t, client, items, now - RETENTION) && LongestFirst(client, items, hashes)
    ensures forall i :: 0 <= i < |hashes| ==> Owners(StartOf(t, due, now), client, hashes[i], now - RETENTION) == {}
  {
    hide Owners, StartOf, HashOf;
    StartKeepsOwners(t, due, now, client, now - RETENTION);
  }

  /** Continuity with cleaning before either call, and anything in between that leaves the client's owners alone. */
  lemma SessionContinuesLater(rank: Digest -> int, t: Tables, due: bool, client: string, items: seq<Item>,
                              hashes: seq<Digest>, freshID: string, now: int, id: string, t': Tables,
                              u: Tables, due': bool, items': seq<Item>, hashes': seq<Digest>, freshID': string,
                              now': int)
    requires Good(StartOf(t, due, now)) && Unused(StartOf(t, due, now), client, freshID)
    requires items != [] && LongestFirst(client, items, hashes)
    requires Resolves(rank, StartOf(t, due, now), client, hashes, HashOf(client, items[..1]), HashOf(client, items),
                      freshID, now, id, t')
    requires id == freshID ==> NothingOwned(t, client, items, now - RETENTION)
    requires forall k :: k in t.keys && k.0 == client ==> t.keys[k].seen < now
    requires now <= now' <= now + RETENTION && items <= items' && LongestFirst(client, items', hashes')
    requires SameOwners(u, t', client, now' - RETENTION)
    requires NoLongerOwner(t, client, items, items', id, now' - RETENTION)
    ensures Choose(StartOf(u, due', now'), client, hashes', freshID', now' - RETENTION) == id
  {
    var start, start' := StartOf(t, due, now), StartOf(u, due', now');
    assert forall k :: k in start.keys ==> k in t.keys && start.keys[k] == t.keys[k];
    hide Owners, StartOf, HashOf, Resolves, Good, Choose, OthersKept;
    ResolvingKeepsGood(rank, start, client, items, hashes, freshID, now, id, t');
    StillNoLongerOwner(t, due, client, items, items', now, id, t', now' - RETENTION);
    StartKeepsOwners(u, due', now', client, now' - RETENTION);
    SameOwnersTwice(t', u, start', client, now' - RETENTION);
    if id == freshID { NothingOwnedAtStart(t, due, client, items, hashes, now); }
    SessionContinues(rank, start, client, items, hashes, freshID, now, id, t', start', items', hashes', freshID', now');
  }
}
