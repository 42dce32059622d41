/** The session store and its detector as they run (sessions_repository.go, detector.go). */
module SessionStore {
  import opened Wrappers
  import opened Sessions
  import Ordering

  // ---------------------------------------------------------------- lookup

  /** Owners of a hash among some of the rows. */
  function OwnersIn(t: Tables, rows: set<HashKey>, client: string, hash: Digest, cutoff: int): set<string> {
    set k | k in rows && k in t.keys && k.0 == client && k.2 == hash && Retained(t, client, k.1, cutoff) :: k.1
  }

  /** Up to two owners, enough to tell none, one and several apart. */
  ghost predicate Tells(found: seq<string>, owners: set<string>) {
    && |found| <= 2 && (forall s :: s in found ==> s in owners)
    && (|found| == 0 ==> owners == {}) && (|found| == 1 ==> owners == {found[0]})
    && (|found| == 2 ==> found[0] != found[1])
  }

  function Found(result: map<Digest, seq<string>>, hash: Digest): seq<string> {
    if hash in result then result[hash] else []
  }

  function AddFound(found: seq<string>, id: string): seq<string> {
    if id !in found && |found| < 2 then found + [id] else found
  }

  lemma AddTells(found: seq<string>, owners: set<string>, id: string)
    requires Tells(found, owners)
    ensures Tells(AddFound(found, id), owners + {id})
  {}

  ghost predicate AllTell(t: Tables, result: map<Digest, seq<string>>, rows: set<HashKey>, client: string,
                          hashes: seq<Digest>, cutoff: int) {
    forall h :: h in hashes ==> Tells(Found(result, h), OwnersIn(t, rows, client, h, cutoff))
  }

  lemma NothingFound(t: Tables, client: string, hashes: seq<Digest>, cutoff: int)
    ensures AllTell(t, map[], {}, client, hashes, cutoff)
  {}

  lemma AllRows(t: Tables, client: string, hash: Digest, cutoff: int)
    ensures OwnersIn(t, t.keys.Keys, client, hash, cutoff) == Owners(t, client, hash, cutoff)
  {}

  lemma OwnersGrow(t: Tables, rows: set<HashKey>, k: HashKey, client: string, hash: Digest, cutoff: int)
    requires k in t.keys
    ensures OwnersIn(t, rows + {k}, client, hash, cutoff)
         == OwnersIn(t, rows, client, hash, cutoff)
            + if k.0 == client && k.2 == hash && Retained(t, client, k.1, cutoff) then {k.1} else {}
  {}

  lemma OneMoreRow(t: Tables, result: map<Digest, seq<string>>, rows: set<HashKey>, k: HashKey,
                   client: string, hashes: seq<Digest>, cutoff: int)
    requires AllTell(t, result, rows, client, hashes, cutoff) && k in t.keys
    ensures AllTell(t, if k.0 == client && k.2 in hashes && Retained(t, client, k.1, cutoff)
                       then result[k.2 := AddFound(Found(result, k.2), k.1)]
                            else result, rows + {k}, client, hashes, cutoff)
  {
    hide Tells, OwnersIn, AddFound, Retained;
    var fits := k.0 == client && k.2 in hashes && Retained(t, client, k.1, cutoff);
    var result' := if fits then result[k.2 := AddFound(Found(result, k.2), k.1)] else result;
    forall h | h in hashes ensures Tells(Found(result', h), OwnersIn(t, rows + {k}, client, h, cutoff)) {
      OwnersGrow(t, rows, k, client, h, cutoff);
      AddTells(Found(result, h), OwnersIn(t, rows, client, h, cutoff), k.1);
      assert OwnersIn(t, rows, client, h, cutoff) + {} == OwnersIn(t, rows, client, h, cutoff);
    }
  }

  /** Cleaning runs at most once per interval. */
  predicate Due(lastCleanup: Option<int>, now: int) {
    lastCleanup.None? || now - lastCleanup.value >= CLEANUP_INTERVAL
  }

  lemma TellsSome(found: seq<string>, owners: set<string>)
    requires Tells(found, owners)
    ensures found == [] <==> owners == {}
  {
    if found != [] { assert found[0] in found; }
  }

  class Store {
    const rank: Digest -> int
    var sessions: map<SessionKey, int>
    var keys: map<HashKey, KeyRow>
    var lastCleanup: Option<int>

    constructor (rank: Digest -> int)
      ensures Good(Now()) && this.rank == rank
    {
      this.rank := rank;
      sessions, keys, lastCleanup := map[], map[], None;
    }

    function Now(): Tables
      reads this`sessions, this`keys
    {
      Tables(sessions, keys)
    }

    method CleanupDue(now: int) returns (due: bool)
      modifies this`lastCleanup
      ensures due == Due(old(lastCleanup), now)
      ensures lastCleanup == if due then Some(now) else old(lastCleanup)
    {
      if lastCleanup.Some? && now - lastCleanup.value < CLEANUP_INTERVAL {
        return false;
      }
      lastCleanup := Some(now);
      return true;
    }

    method UpsertSession(client: string, id: string, now: int, fails: bool) returns (ok: bool)
      modifies this`sessions
      ensures ok <==> client != "" && id != "" && !fails
      ensures Now() == if ok then WithSession(old(Now()), client, id, now) else old(Now())
    {
      if client == "" || id == "" || fails {
        return false;
      }
      sessions := sessions[(client, id) := now];
      return true;
    }

    /** Up to two retained owners for each hash, whatever order the rows come in. */
    method Lookup(client: string, hashes: seq<Digest>, cutoff: int) returns (result: map<Digest, seq<string>>)
      ensures result.Keys <= (set h | h in hashes)
      ensures forall h :: h in hashes ==> Tells(Found(result, h), Owners(Now(), client, h, cutoff))
    {
      hide Owners, Tells;
      result := map[];
      var rows := keys.Keys;
      ghost var done: set<HashKey> := {};
      NothingFound(Now(), client, hashes, cutoff);
      while rows != {}
        invariant done + rows == keys.Keys
        invariant result.Keys <= (set h | h in hashes) && AllTell(Now(), result, done, client, hashes, cutoff)
        decreases |rows|
      {
        var k :| k in rows;
        rows := rows - {k};
        OneMoreRow(Now(), result, done, k, client, hashes, cutoff);
        done := done + {k};
        if k.0 == client && k.2 in hashes && Retained(Now(), client, k.1, cutoff) {
          result := result[k.2 := AddFound(Found(result, k.2), k.1)];
        }
      }
      forall h | h in hashes ensures Tells(Found(result, h), Owners(Now(), client, h, cutoff)) {
        AllRows(Now(), client, h, cutoff);
      }
    }
  
    /** The rows of one session, in no particular order. */
    method RowsOf(client: string, id: string) returns (rows: seq<Row>)
      ensures forall i :: 0 <= i < |rows| ==>
                (client, id, rows[i].hash) in keys && rows[i] == RowAt(Now(), client, id, rows[i].hash)
      ensures forall h :: (client, id, h) in keys ==> RowAt(Now(), client, id, h) in rows
      ensures forall i, j :: 0 <= i < j < |rows| ==> rows[i] != rows[j]
    {
      rows := [];
      var rest := keys.Keys;
      while rest != {}
        invariant rest <= keys.Keys
        invariant forall i :: 0 <= i < |rows| ==>
                    (client, id, rows[i].hash) in keys.Keys - rest && rows[i] == RowAt(Now(), client, id, rows[i].hash)
        invariant forall h :: (client, id, h) in keys.Keys - rest ==> RowAt(Now(), client, id, h) in rows
        invariant forall i, j :: 0 <= i < j < |rows| ==> rows[i] != rows[j]
        decreases |rest|
      {
        var k :| k in rest;
        rest := rest - {k};
        if k.0 == client && k.1 == id {
          rows := rows + [Row(k.2, keys[k].anchor, keys[k].seen)];
        }
      }
    }

    /** Keeps the anchor and the eight most recent other keys of a session. */
    method Prune(client: string, id: string)
      modifies this`keys
      ensures Pruned(rank, old(Now()), Now(), client, id)
    {
      hide Pruned, Kept, Others, Before, Fingerprints, IsSorted, RowAt, Ordering.StableSort;
      ghost var before := Now();
      var rows := RowsOf(client, id);
      var less := (a, b) => Before(rank, a, b);
      var sorted := Ordering.StableSort(less, rows);
      SortedRows(rank, Now(), client, id, rows, less);
      var keep: set<Digest> := {};
      var nonAnchor := 0;
      NothingKept(sorted);
      for i := 0 to |sorted|
        invariant keep == Kept(sorted[..i]) && nonAnchor == Others(sorted[..i]) && Now() == before
      {
        KeptNext(sorted, i);
        if sorted[i].anchor || nonAnchor < MAX_FINGERPRINTS {
          keep := keep + {sorted[i].hash};
          if !sorted[i].anchor { nonAnchor := nonAnchor + 1; }
        }
      }
      assert sorted[..|sorted|] == sorted;
      for i := 0 to |sorted|
        invariant keys == before.keys - DroppedFrom(client, id, sorted[..i], keep)
        invariant sessions == before.sessions
      {
        DroppedNext(client, id, sorted, i, keep);
        if sorted[i].hash !in keep {
          keys := keys - {(client, id, sorted[i].hash)};
        }
      }
      assert sorted[..|sorted|] == sorted;
      PruneResult(rank, before, client, id, sorted);
      assert Now() == before.(keys := before.keys - DroppedFrom(client, id, sorted, Kept(sorted)));
    }

    method RegisterKey(client: string, id: string, hash: Digest, anchor: bool, now: int)
      modifies this`keys
      ensures Now() == WithKey(old(Now()), client, id, hash, anchor, now)
    {
      var k := (client, id, hash);
      keys := keys[k := KeyRow(anchor || (k in keys && keys[k].anchor), now)];
    }

    /** The first looked-up prefix that has an owner decides. */
    method Select(client: string, hashes: seq<Digest>, existing: map<Digest, seq<string>>, freshID: string,
                  ghost cutoff: int) returns (selected: string)
      requires forall h :: h in hashes ==> Tells(Found(existing, h), Owners(Now(), client, h, cutoff))
      ensures selected == Choose(Now(), client, hashes, freshID, cutoff)
    {
      for i := 0 to |hashes|
        invariant Choose(Now(), client, hashes, freshID, cutoff) == Choose(Now(), client, hashes[i..], freshID, cutoff)
      {
        var matches := Found(existing, hashes[i]);
        assert hashes[i..][0] == hashes[i] && hashes[i..][1..] == hashes[i + 1..];
        ChooseByMatches(Now(), client, hashes[i..], freshID, cutoff, matches);
        if |matches| == 1 {
          return matches[0];
        }
        if |matches| > 1 {
          return freshID;
        }
      }
      return freshID;
    }

    /** Stamps the session and adds the history's anchor and fingerprint, each once. */
    method Register(client: string, id: string, freshID: string, ghost hashes: seq<Digest>, anchor: Digest,
                    fingerprint: Digest, now: int, existing: map<Digest, seq<string>>)
      requires existing.Keys <= (set h | h in hashes)
      requires forall h :: h in hashes ==> Tells(Found(existing, h), Owners(Now(), client, h, now - RETENTION))
      modifies this`sessions, this`keys
      ensures Now() == Registered(old(Now()), client, id, freshID, hashes, anchor, fingerprint, now)
    {
      hide Owners, WithKey;
      assert forall h :: h !in hashes ==> Found(existing, h) == [];
      forall h | h in hashes ensures Found(existing, h) == [] <==> Owners(Now(), client, h, now - RETENTION) == {} {
        TellsSome(Found(existing, h), Owners(Now(), client, h, now - RETENTION));
      }
      hide Tells;
      sessions := sessions[(client, id) := now];
      if !(id == freshID && Found(existing, anchor) != []) {
        RegisterKey(client, id, anchor, true, now);
      }
      if fingerprint != anchor && !(id == freshID && Found(existing, fingerprint) != []) {
        RegisterKey(client, id, fingerprint, false, now);
      }
    }

    /** Looks up, chooses, registers and prunes; a store that fails changes nothing but the cleanup clock. */
    method ResolveAndRegister(client: string, hashes: seq<Digest>, anchor: Digest, fingerprint: Digest, freshID: string,
                              now: int, fails: bool)
      returns (id: Option<string>)
      modifies this
      ensures id.None? <==> client == "" || hashes == [] || freshID == "" || fails
      ensures id.None? ==> Now() == old(Now())
      ensures id.Some? ==>
                Resolves(rank, StartOf(old(Now()), Due(old(lastCleanup), now), now),
                         client, hashes, anchor, fingerprint, freshID, now, id.value, Now())
    {
      hide Pruned, Registered, Choose, Owners, Tells;
      if client == "" || hashes == [] || freshID == "" {
        return None;
      }
      var cleanup := CleanupDue(now);
      if fails {
        return None;
      }
      var cutoff := now - RETENTION;
      if cleanup {
        keys := map k | k in keys && !Expired(Now(), k, cutoff) :: keys[k];
      }
      var existing := Lookup(client, hashes, cutoff);
      var selected := Select(client, hashes, existing, freshID, cutoff);
      Register(client, selected, freshID, hashes, anchor, fingerprint, now, existing);
      Prune(client, selected);
      return Some(selected);
    }
  }

  // ---------------------------------------------------------------- pruning

  lemma BeforeIsOrder(rank: Digest -> int, less: (Row, Row) -> bool)
    requires forall a, b :: less(a, b) <==> Before(rank, a, b)
    ensures Ordering.StrictWeakOrder(less)
  {}

  /** The hashes to keep among the first `n` sorted rows: every anchor, and the first eight others. */
  function Kept(rows: seq<Row>): set<Digest> {
    if rows == [] then {}
    else
      var before, last := Kept(rows[..|rows| - 1]), rows[|rows| - 1];
      if last.anchor || Others(rows[..|rows| - 1]) < MAX_FINGERPRINTS then before + {last.hash} else before
  }

  /** Rows kept so far that are no anchors. */
  function Others(rows: seq<Row>): nat {
    if rows == [] then 0
    else
      var before := Others(rows[..|rows| - 1]);
      if rows[|rows| - 1].anchor || before >= MAX_FINGERPRINTS then before else before + 1
  }

  /** The hashes kept that are no anchors. */
  function KeptOthers(rows: seq<Row>): set<Digest> {
    if rows == [] then {}
    else
      var before, last := KeptOthers(rows[..|rows| - 1]), rows[|rows| - 1];
      if !last.anchor && Others(rows[..|rows| - 1]) < MAX_FINGERPRINTS then before + {last.hash} else before
  }

  ghost predicate DistinctHashes(rows: seq<Row>) {
    forall i, j :: 0 <= i < j < |rows| ==> rows[i].hash != rows[j].hash
  }

  lemma {:induction false} KeptExactly(rows: seq<Row>, i: nat)
    requires DistinctHashes(rows) && i < |rows|
    ensures rows[i].hash in Kept(rows) <==> rows[i].anchor || Others(rows[..i]) < MAX_FINGERPRINTS
    ensures rows[i].hash in KeptOthers(rows) <==> !rows[i].anchor && Others(rows[..i]) < MAX_FINGERPRINTS
  {
    if i < |rows| - 1 {
      KeptExactly(rows[..|rows| - 1], i);
      assert rows[..|rows| - 1][..i] == rows[..i];
    } else {
      KeptAreRows(rows[..|rows| - 1]);
    }
  }

  lemma {:induction false} KeptAreRows(rows: seq<Row>)
    ensures forall h :: h in Kept(rows) ==> exists k :: 0 <= k < |rows| && rows[k].hash == h
    ensures KeptOthers(rows) <= Kept(rows)
  {
    if rows != [] {
      var init := rows[..|rows| - 1];
      KeptAreRows(init);
      forall h | h in Kept(rows) ensures exists k :: 0 <= k < |rows| && rows[k].hash == h {
        if h in Kept(init) {
          var k :| 0 <= k < |init| && init[k].hash == h;
          assert rows[k].hash == h;
        } else {
          assert rows[|rows| - 1].hash == h;
        }
      }
    }
  }

  lemma {:induction false} OthersGrow(rows: seq<Row>, i: nat)
    requires i <= |rows|
    ensures Others(rows[..i]) <= Others(rows) <= MAX_FINGERPRINTS
  {
    if i < |rows| {
      assert rows[..|rows| - 1][..i] == rows[..i];
      OthersGrow(rows[..|rows| - 1], i);
    } else {
      assert rows[..i] == rows;
      if rows != [] { OthersGrow(rows[..i - 1], i - 1); }
    }
  }

  lemma {:induction false} OthersCounted(rows: seq<Row>)
    requires DistinctHashes(rows)
    ensures |KeptOthers(rows)| == Others(rows)
  {
    if rows != [] {
      var init := rows[..|rows| - 1];
      OthersCounted(init);
      KeptAreRows(init);
      assert rows[|rows| - 1].hash !in KeptOthers(init);
    }
  }

  /** The rows of a session in pruning order. */
  ghost predicate IsSorted(rank: Digest -> int, t: Tables, client: string, id: string, rows: seq<Row>) {
    && (forall i :: 0 <= i < |rows| ==>
          (client, id, rows[i].hash) in t.keys && rows[i] == RowAt(t, client, id, rows[i].hash))
    && (forall h :: (client, id, h) in t.keys ==> exists i :: 0 <= i < |rows| && rows[i] == RowAt(t, client, id, h))
    && DistinctHashes(rows)
    && (forall i, j :: 0 <= i < j < |rows| ==> !Before(rank, rows[j], rows[i]))
  }

  lemma SortedRows(rank: Digest -> int, t: Tables, client: string, id: string, rows: seq<Row>, less: (Row, Row) -> bool)
    requires forall a, b :: less(a, b) <==> Before(rank, a, b)
    requires forall i :: 0 <= i < |rows| ==>
               (client, id, rows[i].hash) in t.keys && rows[i] == RowAt(t, client, id, rows[i].hash)
    requires forall h :: (client, id, h) in t.keys ==> RowAt(t, client, id, h) in rows
    requires forall i, j :: 0 <= i < j < |rows| ==> rows[i] != rows[j]
    ensures IsSorted(rank, t, client, id, Ordering.StableSort(less, rows))
  {
    var sorted := Ordering.StableSort(less, rows);
    BeforeIsOrder(rank, less);
    hide Before, Ordering.StrictWeakOrder, Ordering.StableSort, RowAt;
    Ordering.SortIsSorted(less, rows);
    Ordering.SortMembers(less, rows);
    Ordering.UniqueByCount(rows, sorted);
    forall i, j | 0 <= i < j < |sorted| ensures !Before(rank, sorted[j], sorted[i]) {
      assert !less(sorted[j], sorted[i]);
    }
    hide *;
    SortedFacts(rank, t, client, id, rows, sorted);
  }

  lemma SortedFacts(rank: Digest -> int, t: Tables, client: string, id: string, rows: seq<Row>, sorted: seq<Row>)
    requires forall i :: 0 <= i < |rows| ==>
               (client, id, rows[i].hash) in t.keys && rows[i] == RowAt(t, client, id, rows[i].hash)
    requires forall h :: (client, id, h) in t.keys ==> RowAt(t, client, id, h) in rows
    requires forall x :: x in sorted <==> x in rows
    requires forall i, j :: 0 <= i < j < |sorted| ==> sorted[i] != sorted[j]
    requires forall i, j :: 0 <= i < j < |sorted| ==> !Before(rank, sorted[j], sorted[i])
    ensures IsSorted(rank, t, client, id, sorted)
  {
    hide Before, RowAt;
    forall i | 0 <= i < |sorted|
      ensures (client, id, sorted[i].hash) in t.keys && sorted[i] == RowAt(t, client, id, sorted[i].hash)
    {
      assert sorted[i] in rows;
    }
    forall h | (client, id, h) in t.keys ensures exists i :: 0 <= i < |sorted| && sorted[i] == RowAt(t, client, id, h) {
      assert RowAt(t, client, id, h) in sorted;
    }
  }

  lemma NothingKept(rows: seq<Row>)
    ensures Kept(rows[..0]) == {} && Others(rows[..0]) == 0
  {}

  lemma KeptNext(rows: seq<Row>, i: nat)
    requires i < |rows|
    ensures Kept(rows[..i + 1]) == if rows[i].anchor || Others(rows[..i]) < MAX_FINGERPRINTS
                                   then Kept(rows[..i]) + {rows[i].hash} else Kept(rows[..i])
    ensures Others(rows[..i + 1]) == if rows[i].anchor || Others(rows[..i]) >= MAX_FINGERPRINTS then Others(rows[..i])
                                     else Others(rows[..i]) + 1
  {
    assert rows[..i + 1][..i] == rows[..i];
  }

  ghost function DroppedFrom(client: string, id: string, rows: seq<Row>, keep: set<Digest>): set<HashKey> {
    set i | 0 <= i < |rows| && rows[i].hash !in keep :: (client, id, rows[i].hash)
  }

  lemma DroppedNext(client: string, id: string, rows: seq<Row>, i: nat, keep: set<Digest>)
    requires i < |rows|
    ensures DroppedFrom(client, id, rows[..i + 1], keep)
         == DroppedFrom(client, id, rows[..i], keep)
            + if rows[i].hash !in keep then {(client, id, rows[i].hash)} else {}
  {}

  lemma PruneResult(rank: Digest -> int, t: Tables, client: string, id: string, rows: seq<Row>)
    requires IsSorted(rank, t, client, id, rows)
    ensures Pruned(rank, t, t.(keys := t.keys - DroppedFrom(client, id, rows, Kept(rows))), client, id)
  {
    var t' := t.(keys := t.keys - DroppedFrom(client, id, rows, Kept(rows)));
    hide Kept, Others, KeptOthers, Before;
    forall i | 0 <= i < |rows|
      ensures rows[i].hash in Kept(rows) <==> rows[i].anchor || Others(rows[..i]) < MAX_FINGERPRINTS
      ensures rows[i].hash in KeptOthers(rows) <==> !rows[i].anchor && Others(rows[..i]) < MAX_FINGERPRINTS
      ensures Others(rows[..i]) <= Others(rows) <= MAX_FINGERPRINTS
    {
      KeptExactly(rows, i);
      OthersGrow(rows, i);
    }
    KeptAreRows(rows);
    OthersCounted(rows);
    assert Fingerprints(t', client, id) == KeptOthers(rows);
    forall h, d | (client, id, h) in t'.keys && (client, id, d) in t.keys && (client, id, d) !in t'.keys
      ensures !Before(rank, RowAt(t, client, id, d), RowAt(t, client, id, h))
    {
      var i :| 0 <= i < |rows| && rows[i] == RowAt(t, client, id, h);
      var j :| 0 <= j < |rows| && rows[j] == RowAt(t, client, id, d);
      KeptComesFirst(rank, rows, i, j);
    }
  }

  lemma OthersBetween(rows: seq<Row>, j: nat, i: nat)
    requires j <= i <= |rows|
    ensures Others(rows[..j]) <= Others(rows[..i])
  {
    OthersGrow(rows[..i], j);
    assert rows[..i][..j] == rows[..j];
  }

  lemma KeptComesFirst(rank: Digest -> int, rows: seq<Row>, i: nat, j: nat)
    requires i < |rows| && j < |rows| && !rows[j].anchor && Others(rows[..j]) >= MAX_FINGERPRINTS
    requires rows[i].anchor || Others(rows[..i]) < MAX_FINGERPRINTS
    requires forall a, b :: 0 <= a < b < |rows| ==> !Before(rank, rows[b], rows[a])
    ensures !Before(rank, rows[j], rows[i])
  {
    if j <= i { OthersBetween(rows, j, i); }
  }

  lemma ChooseByMatches(t: Tables, client: string, hashes: seq<Digest>, freshID: string, cutoff: int,
                        matches: seq<string>)
    requires hashes != [] && Tells(matches, Owners(t, client, hashes[0], cutoff))
    ensures Choose(t, client, hashes, freshID, cutoff)
         == if |matches| == 1 then matches[0] else if |matches| > 1 then freshID
            else Choose(t, client, hashes[1..], freshID, cutoff)
  {
    hide Owners;
    var owners := Owners(t, client, hashes[0], cutoff);
    if |matches| == 2 { assert matches[0] in owners && matches[1] in owners; }
  }

  // ---------------------------------------------------------------- the detector

  /** Swaps from both ends inwards. */
  method ReverseInPlace(hashes: array<Digest>)
    modifies hashes
    ensures forall i :: 0 <= i < hashes.Length ==> hashes[i] == old(hashes[hashes.Length - 1 - i])
  {
    var left, right := 0, hashes.Length - 1;
    while left < right
      invariant 0 <= left <= right + 2 && left + right == hashes.Length - 1
      invariant forall i :: (0 <= i < left || right < i < hashes.Length) ==>
                  hashes[i] == old(hashes[hashes.Length - 1 - i])
      invariant forall i :: left <= i <= right ==> hashes[i] == old(hashes[i])
    {
      hashes[left], hashes[right] := hashes[right], hashes[left];
      left, right := left + 1, right - 1;
    }
  }

  /** One request as the detector sees it, with the id drawn for it, its time, and whether the store fails. */
  datatype Call = Call(header: Option<string>, client: string, history: Option<seq<Item>>, freshID: string, now: int,
                       fails: bool)

  /** A client that makes none of these calls, at a cutoff none of them cleans beyond. */
  ghost predicate Bystander(calls: seq<Call>, client: string, cutoff: int) {
    forall k :: k in calls ==> k.client != client && k.now - RETENTION <= cutoff
  }

  ghost predicate NotDrawn(calls: seq<Call>, client: string, id: string) {
    forall k :: k in calls ==> k.client != client || k.freshID != id
  }

  /** What a run of calls leaves alone: the owners of each bystander's hashes, and unused ids it has not drawn. */
  ghost predicate AllConfined(t: Tables, t': Tables, calls: seq<Call>) {
    && (forall c, cutoff :: Bystander(calls, c, cutoff) ==> SameOwners(t', t, c, cutoff))
    && (forall c, s :: Unused(t, c, s) && NotDrawn(calls, c, s) ==> Unused(t', c, s))
  }

  /** The fresh ids of a run are new: neither in use nor repeated. */
  ghost predicate FreshIDs(t: Tables, calls: seq<Call>) {
    && (forall i :: 0 <= i < |calls| ==> calls[i].freshID != "" && Unused(t, calls[i].client, calls[i].freshID))
    && (forall i, j :: 0 <= i < j < |calls| ==>
          calls[i].client != calls[j].client || calls[i].freshID != calls[j].freshID)
  }

  class Detector {
    const store: Store?
    const hasKey: bool

    constructor (store: Store?, hasKey: bool)
      ensures this.store == store && this.hasKey == hasKey
    {
      this.store, this.hasKey := store, hasKey;
    }

    /** The conditions under which a request without a session header is looked up at all. */
    predicate Correlates(client: string, history: Option<seq<Item>>) {
      client != "" && hasKey && history.Some? && history.value != [] && store != null
    }

    /**
     Always answers an ID: the client's own header, a known session that owns the longest known prefix of the
     history, or the fresh one. `fails` says whether the store does.
     */
    method DetectSessionID(header: Option<string>, client: string, history: Option<seq<Item>>, freshID: string,
                           now: int, fails: bool)
      returns (id: string)
      requires freshID != ""
      modifies if store == null then {} else {store}
      ensures header.Some? ==> id == header.value
      ensures header.Some? && store != null ==>
                store.Now() == if client != "" && id != "" && !fails then WithSession(old(store.Now()), client, id, now)
                               else old(store.Now())
      ensures header.None? && (!Correlates(client, history) || fails) ==>
                id == freshID && (store != null ==> store.Now() == old(store.Now()))
      ensures header.None? && Correlates(client, history) && !fails ==>
                exists hashes ::
                  && LongestFirst(client, history.value, hashes)
                  && Resolves(store.rank, StartOf(old(store.Now()), Due(old(store.lastCleanup), now), now), client,
                              hashes, HashOf(client, history.value[..1]), HashOf(client, history.value),
                              freshID, now, id, store.Now())
      ensures store != null && old(Good(store.Now()) && Unused(store.Now(), client, freshID)) ==>
                Good(store.Now()) && Confined(old(store.Now()), store.Now(), client, freshID, now)
    {
      hide Good, Resolves, HashOf, Due, StartOf, Unused, Confined;
      ghost var t := if store != null then store.Now() else Tables(map[], map[]);
      NothingIsConfined(t, client, freshID, now);
      if header.Some? {
        if store != null && client != "" {
          var ok := store.UpsertSession(client, header.value, now, fails);
          if ok && Good(t) { UpsertKeepsGood(t, client, header.value, now); }
          if ok { UpsertIsConfined(t, client, header.value, freshID, now); }
        }
        return header.value;
      }
      if client == "" || !hasKey || history.None? {
        return freshID;
      }
      var items := history.value;
      var prefixes := PrefixHashes(client, items);
      if |prefixes| == 0 || store == null {
        return freshID;
      }
      var anchor, fingerprint := prefixes[0], prefixes[|prefixes| - 1];
      assert items[..|items|] == items;
      var hashes := new Digest[|prefixes|](i requires 0 <= i < |prefixes| => prefixes[i]);
      ReverseInPlace(hashes);
      ghost var due := Due(store.lastCleanup, now);
      var found := store.ResolveAndRegister(client, hashes[..], anchor, fingerprint, freshID, now, fails);
      if found.None? {
        return freshID;
      }
      assert LongestFirst(client, items, hashes[..]);
      if Good(t) && Unused(t, client, freshID) {
        StartIsGood(t, due, now, client, freshID);
        CallKeepsGood(store.rank, StartOf(t, due, now), client, items, hashes[..], freshID, now, found.value,
                      store.Now());
        CallIsConfined(store.rank, t, due, client, items, hashes[..], freshID, now, found.value, store.Now());
      }
      return found.value;
    }

    // -------------------------------------------------------------- runs

    /** Any run of requests keeps the store's invariant, and the owners of every client that takes no part in it. */
    method Run(calls: seq<Call>)
      requires store != null && Good(store.Now()) && FreshIDs(store.Now(), calls)
      modifies store
      ensures Good(store.Now()) && AllConfined(old(store.Now()), store.Now(), calls)
    {
      hide Good, Unused, Confined, AllConfined;
      ghost var t := store.Now();
      NoCalls(t);
      for n := 0 to |calls|
        invariant Good(store.Now()) && AllConfined(t, store.Now(), calls[..n])
      {
        var k := calls[n];
        StillFresh(t, store.Now(), calls, n);
        OneMoreCall(t, store.Now(), calls[..n], k);
        assert calls[..n + 1] == calls[..n] + [k];
        var id := DetectSessionID(k.header, k.client, k.history, k.freshID, k.now, k.fails);
      }
      assert calls[..|calls|] == calls;
    }

    /**
     Continuity over a run: a client is answered `id` for a history; then come any requests of other clients, and the
     client's next request, within retention, with that history or an extension of it. It is answered `id` again, if
     the first answer was not ambiguous (no prefix had an owner, or the answer is one) and no other session owned a
     longer prefix. All of this is said of the store as it was at the start.
     */
    method Converse(first: Call, others: seq<Call>, next: Call) returns (id: string, again: string)
      requires IsLookup(first) && IsLookup(next) && first.client == next.client
               && first.history.value <= next.history.value
      requires first.now <= next.now <= first.now + RETENTION
      requires forall k :: k in others ==> k.client != first.client && k.now <= next.now
      requires Good(store.Now()) && Unused(store.Now(), first.client, first.freshID) && FreshIDs(store.Now(), others)
      requires forall k :: k in store.keys && k.0 == first.client ==> store.keys[k].seen < first.now
      modifies store
      ensures var t, c, items := old(store.Now()), first.client, first.history.value;
              (id == first.freshID ==> NothingOwned(t, c, items, first.now - RETENTION))
              && NoLongerOwner(t, c, items, next.history.value, id, next.now - RETENTION)
              ==> again == id
    {
      hide Good, Resolves, HashOf, Due, StartOf, Confined, AllConfined, SameOwners, NothingOwned, NoLongerOwner, Unused,
           Choose;
      ghost var t, c, items, items' := store.Now(), first.client, first.history.value, next.history.value;
      ghost var due := Due(store.lastCleanup, first.now);
      id := DetectSessionID(None, first.client, first.history, first.freshID, first.now, false);
      ghost var t' := store.Now();
      ghost var hashes :| LongestFirst(c, items, hashes)
        && Resolves(store.rank, StartOf(t, due, first.now), c, hashes, HashOf(c, items[..1]), HashOf(c, items),
                    first.freshID, first.now, id, t');
      StillFreshForOthers(t, t', first, others);
      Run(others);
      ghost var u := store.Now();
      ghost var due' := Due(store.lastCleanup, next.now);
      again := DetectSessionID(None, next.client, next.history, next.freshID, next.now, false);
      ghost var hashes' :| LongestFirst(c, items', hashes')
        && Resolves(store.rank, StartOf(u, due', next.now), c, hashes', HashOf(c, items'[..1]), HashOf(c, items'),
                    next.freshID, next.now, again, store.Now());
      ChosenByCall(store.rank, StartOf(u, due', next.now), c, items', hashes', next.freshID, next.now, again,
                   store.Now());
      if (id == first.freshID ==> NothingOwned(t, c, items, first.now - RETENTION))
         && NoLongerOwner(t, c, items, items', id, next.now - RETENTION) {
        StartIsGood(t, due, first.now, c, first.freshID);
        OwnersAfterRun(t', u, others, c, next.now - RETENTION);
        SessionContinuesLater(store.rank, t, due, c, items, hashes, first.freshID, first.now, id, t', u, due', items',
                              hashes', next.freshID, next.now);
      }
    }

    /** A request that reaches the store's lookup. */
    predicate IsLookup(k: Call) {
      k.header.None? && Correlates(k.client, k.history) && k.freshID != "" && !k.fails
    }
  }

  lemma StillFreshForOthers(t: Tables, t': Tables, first: Call, others: seq<Call>)
    requires Confined(t, t', first.client, first.freshID, first.now) && FreshIDs(t, others)
    requires forall k :: k in others ==> k.client != first.client
    ensures FreshIDs(t', others)
  {
    hide Unused, SameOwners;
    forall i | 0 <= i < |others| ensures Unused(t', others[i].client, others[i].freshID) {
      assert others[i] in others;
    }
  }

  lemma OwnersAfterRun(t: Tables, u: Tables, calls: seq<Call>, client: string, cutoff: int)
    requires AllConfined(t, u, calls) && Bystander(calls, client, cutoff)
    ensures SameOwners(u, t, client, cutoff)
  {
    hide Unused, SameOwners;
  }

  lemma NoCalls(t: Tables)
    ensures AllConfined(t, t, [])
  {}

  lemma StillFresh(t: Tables, u: Tables, calls: seq<Call>, n: nat)
    requires n < |calls| && AllConfined(t, u, calls[..n]) && Unused(t, calls[n].client, calls[n].freshID)
    requires forall i :: 0 <= i < n ==> calls[i].client != calls[n].client || calls[i].freshID != calls[n].freshID
    ensures Unused(u, calls[n].client, calls[n].freshID)
  {
    hide Unused;
    assert NotDrawn(calls[..n], calls[n].client, calls[n].freshID);
  }

  lemma OneMoreCall(t: Tables, u: Tables, calls: seq<Call>, k: Call)
    requires AllConfined(t, u, calls)
    ensures forall v :: Confined(u, v, k.client, k.freshID, k.now) ==> AllConfined(t, v, calls + [k])
  {
    hide Unused, SameOwners;
    forall v | Confined(u, v, k.client, k.freshID, k.now) ensures AllConfined(t, v, calls + [k]) {
      forall c, cutoff | Bystander(calls + [k], c, cutoff) ensures SameOwners(v, t, c, cutoff) {
        assert k in calls + [k] && forall l :: l in calls ==> l in calls + [k];
        assert Bystander(calls, c, cutoff);
        SameOwnersTwice(t, u, v, c, cutoff);
      }
      forall c, s | Unused(t, c, s) && NotDrawn(calls + [k], c, s) ensures Unused(v, c, s) {
        assert k in calls + [k] && forall l :: l in calls ==> l in calls + [k];
        assert NotDrawn(calls, c, s);
      }
    }
  }

  lemma UpsertKeepsGood(t: Tables, client: string, id: string, now: int)
    requires Good(t)
    ensures Good(WithSession(t, client, id, now))
  {
    forall c, s ensures Fingerprints(WithSession(t, client, id, now), c, s) == Fingerprints(t, c, s) {}
  }

  lemma StartIsGood(t: Tables, due: bool, now: int, client: string, freshID: string)
    requires Good(t) && Unused(t, client, freshID)
    ensures Good(StartOf(t, due, now)) && Unused(StartOf(t, due, now), client, freshID)
  {
    CleaningKeepsGood(t, now - RETENTION);
    hide Good;
    UnusedAtStart(t, due, now, client, freshID);
  }

  lemma CallKeepsGood(rank: Digest -> int, t: Tables, client: string, items: seq<Item>, hashes: seq<Digest>,
                      freshID: string, now: int, id: string, t': Tables)
    requires Good(t) && Unused(t, client, freshID) && items != [] && LongestFirst(client, items, hashes)
    requires Resolves(rank, t, client, hashes, HashOf(client, items[..1]), HashOf(client, items), freshID, now, id, t')
    ensures Good(t')
  {
    hide Good, Resolves, HashOf, LongestFirst;
    ResolvingKeepsGood(rank, t, client, items, hashes, freshID, now, id, t');
  }
}
