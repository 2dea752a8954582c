/**
  The bounded store of shares waiting to be picked up.  Storing one drops what has expired, evicts
  the oldest of the rest until there is room, and puts the new record.  The clock may run backwards.
 */
module IncomingShares {
  import opened Wrappers
  import opened StableSort

  const TTL_MS: int := 60 * 60 * 1000
  const MAX_PENDING: nat := 4

  datatype Id = Id(hex: string)

  /** The store by record id; a record without a numeric creation time is `None`. */
  type Store = map<Id, Option<int>>

  predicate Fresh(createdAt: Option<int>, now: int) {
    createdAt.Some? && now - createdAt.value <= TTL_MS
  }

  /** A share stays for an hour. */
  lemma FreshForAnHour(t: int, now: int)
    ensures Fresh(Some(t), now) <==> now - t <= 3600000
  {
  }

  function FreshIds(store: Store, now: int): set<Id> {
    set id | id in store && Fresh(store[id], now)
  }

  /** What storing a share does to the store, whatever the order in which records are read and ties sorted. */
  ghost predicate Stored(before: Store, after: Store, id: Id, now: int) {
    && id in after && after[id] == Some(now)
    && (forall k :: k in after && k != id ==> k in FreshIds(before, now) && after[k] == before[k])
    && (forall e, k :: e in FreshIds(before, now) && e !in after && k in after && k != id ==>
          before[e].value <= before[k].value)
    && |after| <= MAX_PENDING
    && (id !in before ==> |after| == 1 + Min(MAX_PENDING - 1, |FreshIds(before, now)|))
  }

  function Min(a: nat, b: nat): nat {
    if a <= b then a else b
  }

  // ---- the store as it is updated ----

  datatype Candidate = Candidate(id: Id, createdAt: int)

  function CreatedAt(): Candidate -> int {
    (c: Candidate) => c.createdAt
  }

  ghost function Ids(list: seq<Candidate>): set<Id> {
    set c | c in list :: c.id
  }

  ghost predicate AsStored(list: seq<Candidate>, store: Store) {
    forall c :: c in list ==> c.id in store && store[c.id] == Some(c.createdAt)
  }

  /** The records are exactly the listed candidates, each once, as they are in `store`. */
  ghost predicate Lists(list: seq<Candidate>, records: Store, store: Store) {
    && |Ids(list)| == |list| && records.Keys == Ids(list)
    && AsStored(list, store)
    && (forall k :: k in records ==> k in store && records[k] == store[k])
  }

  lemma {:induction false} AtMostLength(list: seq<Candidate>)
    ensures |Ids(list)| <= |list|
  {
    if list != [] {
      AtMostLength(list[1..]);
      assert list == [list[0]] + list[1..];
      assert Ids(list) == Ids(list[1..]) + {list[0].id};
    }
  }

  lemma DropFirst(list: seq<Candidate>, records: Store, store: Store)
    requires list != [] && Lists(list, records, store)
    ensures Lists(list[1..], records - {list[0].id}, store)
  {
    var rest := list[1..];
    AtMostLength(rest);
    assert list == [list[0]] + rest;
    assert Ids(list) == Ids(rest) + {list[0].id};
    assert list[0].id in Ids(rest) ==> Ids(list) == Ids(rest);
  }

  lemma SortKeepsList(list: seq<Candidate>, records: Store, store: Store)
    requires Lists(list, records, store)
    ensures Lists(Sort(list, CreatedAt()), records, store) && |Sort(list, CreatedAt())| == |list|
    ensures Ids(Sort(list, CreatedAt())) == Ids(list)
  {
    var sorted := Sort(list, CreatedAt());
    assert |multiset(sorted)| == |sorted| && |multiset(list)| == |list|;
    forall c ensures c in sorted <==> c in list {
      assert c in multiset(sorted) <==> c in multiset(list);
    }
    assert Ids(sorted) == Ids(list);
  }

  /** Reading all records: every id once, in some order. */
  ghost predicate IsListing(listing: seq<Id>, store: Store) {
    && (forall i, j :: 0 <= i < j < |listing| ==> listing[i] != listing[j])
    && (forall k :: k in listing <==> k in store)
  }

  ghost function Among(ids: seq<Id>, store: Store, now: int, wanted: bool): set<Id> {
    set k | k in ids && k in store && Fresh(store[k], now) == wanted
  }

  lemma OneMore(listing: seq<Id>, i: nat, before: Store, now: int)
    requires IsListing(listing, before) && i < |listing|
    ensures listing[i] in before
    ensures var id, wanted := listing[i], Fresh(before[listing[i]], now);
            && id !in Among(listing[..i], before, now, true) && id !in Among(listing[..i], before, now, false)
            && Among(listing[..i+1], before, now, wanted) == Among(listing[..i], before, now, wanted) + {id}
            && Among(listing[..i+1], before, now, !wanted) == Among(listing[..i], before, now, !wanted)
  {
    assert listing[..i+1] == listing[..i] + [listing[i]];
    assert listing[i] !in listing[..i];
  }

  lemma DropOne(before: Store, gone: set<Id>, id: Id)
    ensures (before - gone) - {id} == before - (gone + {id})
  {
  }

  lemma NoneListed(before: Store, now: int)
    ensures Ids([]) == {} == Among([], before, now, true) == Among([], before, now, false)
    ensures AsStored([], before)
  {
  }

  lemma AllListed(listing: seq<Id>, before: Store, now: int)
    requires IsListing(listing, before)
    ensures Among(listing, before, now, true) == FreshIds(before, now)
    ensures (before - Among(listing, before, now, false)).Keys == FreshIds(before, now)
  {
  }

  lemma PushId(list: seq<Candidate>, c: Candidate, store: Store)
    requires AsStored(list, store) && c.id in store && store[c.id] == Some(c.createdAt)
    ensures Ids(list + [c]) == Ids(list) + {c.id} && AsStored(list + [c], store)
  {
  }

  class ShareStore {
    var records: Store

    constructor ()
      ensures records == map[]
    {
      records := map[];
    }

    method DropExpired(listing: seq<Id>, now: int) returns (retained: seq<Candidate>)
      requires IsListing(listing, records)
      modifies this
      ensures Lists(retained, records, old(records))
      ensures Ids(retained) == FreshIds(old(records), now)
    {
      hide Among, IsListing, Ids, AsStored;
      retained := [];
      ghost var before := records;
      NoneListed(before, now);
      var i := 0;
      while i < |listing|
        invariant 0 <= i <= |listing|
        invariant |Ids(retained)| == |retained|
        invariant Ids(retained) == Among(listing[..i], before, now, true)
        invariant AsStored(retained, before)
        invariant records == before - Among(listing[..i], before, now, false)
      {
        var id := listing[i];
        OneMore(listing, i, before, now);
        if Fresh(records[id], now) {
          PushId(retained, Candidate(id, records[id].value), before);
          retained := retained + [Candidate(id, records[id].value)];
        } else {
          DropOne(before, Among(listing[..i], before, now, false), id);
          records := records - {id};
        }
        i := i + 1;
      }
      AllListed(listing, before, now);
      assert listing[..i] == listing;
    }

    method EvictOldest(sorted: seq<Candidate>, ghost store: Store) returns (retained: seq<Candidate>)
      requires Lists(sorted, records, store)
      modifies this
      ensures Lists(retained, records, store) && |retained| == Min(|sorted|, MAX_PENDING - 1)
      ensures retained == sorted[|sorted| - |retained|..]
    {
      retained := sorted;
      while |retained| >= MAX_PENDING
        invariant Lists(retained, records, store)
        invariant |sorted| >= |retained| >= Min(|sorted|, MAX_PENDING - 1)
        invariant retained == sorted[|sorted| - |retained|..]
      {
        DropFirst(retained, records, store);
        var oldest := retained[0];
        records := records - {oldest.id};
        retained := retained[1..];
      }
    }

    /** Store a share created at `now`, reading the records in the order `listing`. */
    method StoreIncomingShare(listing: seq<Id>, id: Id, now: int)
      requires IsListing(listing, records)
      modifies this
      ensures Stored(old(records), records, id, now)
    {
      ghost var before := records;
      var unexpired := DropExpired(listing, now);
      var sorted := Sort(unexpired, CreatedAt());
      SortSorts(unexpired, CreatedAt());
      SortKeepsList(unexpired, records, before);
      var retained := EvictOldest(sorted, before);
      KeptIsStored(before, sorted, retained, records, id, now);
      records := records[id := Some(now)];
    }
  }

  lemma EvictedAreOlder(sorted: seq<Candidate>, n: nat, e: Candidate, k: Candidate)
    requires Sorted(sorted, CreatedAt()) && n <= |sorted|
    requires e in sorted && e !in sorted[n..] && k in sorted[n..]
    ensures e.createdAt <= k.createdAt
  {
    forall m | n <= m < |sorted| ensures sorted[m] in sorted[n..] {
      assert sorted[n..][m - n] == sorted[m];
    }
    var i :| 0 <= i < |sorted| && sorted[i] == e;
    var j :| 0 <= j < |sorted| - n && sorted[n..][j] == k;
    assert CreatedAt()(sorted[i]) <= CreatedAt()(sorted[n + j]);
  }

  lemma KeptIsStored(before: Store, sorted: seq<Candidate>, retained: seq<Candidate>, records: Store, id: Id, now: int)
    requires Sorted(sorted, CreatedAt()) && |Ids(sorted)| == |sorted| && Ids(sorted) == FreshIds(before, now)
    requires AsStored(sorted, before)
    requires Lists(retained, records, before) && |retained| == Min(|sorted|, MAX_PENDING - 1)
    requires retained == sorted[|sorted| - |retained|..]
    ensures Stored(before, records[id := Some(now)], id, now)
  {
    hide Sorted;
    var after := records[id := Some(now)];
    forall k | k in records ensures exists c :: c in retained && c in sorted && c.id == k {
      var c :| c in retained && c.id == k;
    }
    forall e, k | e in FreshIds(before, now) && e !in after && k in after && k != id
      ensures before[e].value <= before[k].value
    {
      var c :| c in sorted && c.id == e;
      var d :| d in retained && d.id == k;
      EvictedAreOlder(sorted, |sorted| - |retained|, c, d);
    }
    PutCount(records, id, now);
  }

  lemma PutCount(records: Store, id: Id, now: int)
    ensures |records[id := Some(now)]| == |records| + (if id in records then 0 else 1)
    ensures |records| == |records.Keys|
  {
    var after := records[id := Some(now)];
    assert after.Keys == records.Keys + {id};
  }

  // ---- over any sequence of shares ----

  /** Some run from the empty store: each share stored into what the one before left. */
  ghost predicate IsRun(states: seq<Store>, ids: seq<Id>, times: seq<int>) {
    && |states| == |ids| + 1 == |times| + 1 && states[0] == map[]
    && forall n :: 0 <= n < |ids| ==> Stored(states[n], states[n+1], ids[n], times[n])
  }

  /** Every record is that of one of the shares up to `n`, and fresh when share `n` was stored. */
  ghost predicate HoldsOnlyShares(store: Store, ids: seq<Id>, times: seq<int>, n: nat)
    requires n < |ids| == |times|
  {
    forall k :: k in store ==>
      Fresh(store[k], times[n]) && exists i :: 0 <= i <= n && ids[i] == k && store[k] == Some(times[i])
  }

  lemma StoredHoldsShares(before: Store, after: Store, ids: seq<Id>, times: seq<int>, n: nat)
    requires n < |ids| == |times| && Stored(before, after, ids[n], times[n])
    requires if n == 0 then before == map[] else HoldsOnlyShares(before, ids, times, n - 1)
    ensures HoldsOnlyShares(after, ids, times, n)
  {
    forall k | k in after
      ensures Fresh(after[k], times[n]) && exists i :: 0 <= i <= n && ids[i] == k && after[k] == Some(times[i])
    {
      if k != ids[n] {
        assert k in before && after[k] == before[k];
        var i :| 0 <= i <= n - 1 && ids[i] == k && before[k] == Some(times[i]);
      }
    }
  }

  lemma {:induction false} OnlyFreshShares(states: seq<Store>, ids: seq<Id>, times: seq<int>, n: nat)
    requires IsRun(states, ids, times) && n < |ids|
    ensures HoldsOnlyShares(states[n+1], ids, times, n)
    decreases n
  {
    hide Stored, HoldsOnlyShares;
    if n > 0 {
      OnlyFreshShares(states, ids, times, n - 1);
    }
    StoredHoldsShares(states[n], states[n+1], ids, times, n);
  }

  /** All records in some order, as the database may list them. */
  method ListAll(records: Store) returns (listing: seq<Id>)
    ensures IsListing(listing, records)
  {
    listing := [];
    var left := records.Keys;
    while left != {}
      invariant forall i, j :: 0 <= i < j < |listing| ==> listing[i] != listing[j]
      invariant forall k :: k in listing <==> k in records && k !in left
      invariant left <= records.Keys
      decreases left
    {
      var id :| id in left;
      listing := listing + [id];
      left := left - {id};
    }
  }

  /**
    Store any shares one after the other from the empty store.  What is left is at most four records,
    among them the last share, each of an earlier share and fresh at the end; and `states` is a run, so
    no share ever evicted a fresh record newer than one it kept.
   */
  method StoreShares(ids: seq<Id>, times: seq<int>) returns (shares: ShareStore, ghost states: seq<Store>)
    requires |ids| == |times|
    ensures fresh(shares) && IsRun(states, ids, times) && shares.records == states[|ids|]
    ensures |shares.records| <= 4
    ensures ids != [] ==>
              var n := |ids| - 1;
              ids[n] in shares.records && shares.records[ids[n]] == Some(times[n])
              && HoldsOnlyShares(shares.records, ids, times, n)
  {
    hide Stored, HoldsOnlyShares;
    shares := new ShareStore();
    states := [shares.records];
    var n := 0;
    while n < |ids|
      invariant 0 <= n <= |ids| && |states| == n + 1 && states[0] == map[] && shares.records == states[n]
      invariant fresh(shares)
      invariant forall k :: 0 <= k < n ==> Stored(states[k], states[k+1], ids[k], times[k])
    {
      var listing := ListAll(shares.records);
      shares.StoreIncomingShare(listing, ids[n], times[n]);
      states := states + [shares.records];
      n := n + 1;
    }
    if ids != [] {
      OnlyFreshShares(states, ids, times, n - 1);
      HoldsNewest(states[n-1], states[n], ids[n-1], times[n-1]);
    }
  }

  lemma HoldsNewest(before: Store, after: Store, id: Id, now: int)
    requires Stored(before, after, id, now)
    ensures id in after && after[id] == Some(now) && |after| <= MAX_PENDING
  {
  }

  /** Shares with their own ids, at rising times, all within the lifetime of a record. */
  ghost predicate Orderly(ids: seq<Id>, times: seq<int>) {
    && |ids| == |times|
    && (forall i, j :: 0 <= i < j < |ids| ==> ids[i] != ids[j] && times[i] < times[j])
    && (forall i, j :: 0 <= i < |times| && 0 <= j < |times| ==> times[j] - times[i] <= TTL_MS)
  }

  ghost function Span(ids: seq<Id>, low: nat, high: nat): set<Id>
    requires high <= |ids|
  {
    set i | low <= i < high :: ids[i]
  }

  function LastFour(n: nat): nat {
    if n <= MAX_PENDING then 0 else n - MAX_PENDING
  }

  /** The store holds exactly the records of the last four of the first `n` shares. */
  ghost predicate HoldsLast(store: Store, ids: seq<Id>, times: seq<int>, n: nat)
    requires n <= |ids| == |times|
  {
    && store.Keys == Span(ids, LastFour(n), n)
    && forall i :: LastFour(n) <= i < n ==> ids[i] in store && store[ids[i]] == Some(times[i])
  }

  lemma {:induction false} SpanCount(ids: seq<Id>, low: nat, high: nat)
    requires low <= high <= |ids| && forall i, j :: 0 <= i < j < |ids| ==> ids[i] != ids[j]
    ensures |Span(ids, low, high)| == high - low
    decreases high
  {
    if low < high {
      SpanCount(ids, low, high - 1);
      assert Span(ids, low, high) == Span(ids, low, high - 1) + {ids[high-1]};
      assert ids[high-1] !in Span(ids, low, high - 1);
    }
  }

  lemma NewerIsKept(before: Store, after: Store, ids: seq<Id>, times: seq<int>, n: nat, i: nat)
    requires n < |ids| && Orderly(ids, times) && HoldsLast(before, ids, times, n)
    requires Stored(before, after, ids[n], times[n]) && before.Keys == FreshIds(before, times[n])
    requires LastFour(n) < i < n && ids[LastFour(n)] in after
    ensures ids[i] in after
  {
    assert times[LastFour(n)] < times[i] && ids[LastFour(n)] != ids[n];
  }

  /** If four are held, only the oldest can have gone. */
  lemma OldestIsEvicted(before: Store, after: Store, ids: seq<Id>, times: seq<int>, n: nat)
    requires MAX_PENDING <= n < |ids| && Orderly(ids, times) && HoldsLast(before, ids, times, n)
    requires Stored(before, after, ids[n], times[n]) && before.Keys == FreshIds(before, times[n])
    requires |after| == |before| && ids[n] !in before
    ensures ids[LastFour(n)] !in after
  {
    if ids[LastFour(n)] in after {
      forall i | LastFour(n) < i < n ensures ids[i] in after {
        NewerIsKept(before, after, ids, times, n, i);
      }
      assert before.Keys < after.Keys by {
        assert ids[n] in after;
      }
      Smaller(before.Keys, after.Keys);
    }
  }

  lemma Smaller(a: set<Id>, b: set<Id>)
    requires a < b
    ensures |a| < |b|
  {
    assert b == a + (b - a);
  }

  lemma StillFresh(before: Store, ids: seq<Id>, times: seq<int>, n: nat)
    requires n < |ids| && Orderly(ids, times) && HoldsLast(before, ids, times, n)
    ensures before.Keys == FreshIds(before, times[n]) && ids[n] !in before
    ensures |before| == |before.Keys| == n - LastFour(n)
  {
    SpanCount(ids, LastFour(n), n);
  }

  lemma IdsDiffer(ids: seq<Id>, times: seq<int>)
    requires Orderly(ids, times)
    ensures forall i, j :: 0 <= i < j < |ids| ==> ids[i] != ids[j]
  {
  }

  lemma SpanExtends(ids: seq<Id>, low: nat, high: nat)
    requires low <= high < |ids|
    ensures Span(ids, low, high + 1) == Span(ids, low, high) + {ids[high]}
    ensures low < high ==> Span(ids, low, high) == {ids[low]} + Span(ids, low + 1, high)
  {
  }

  /** What is left of the old records is the last three of them, or all if there were fewer. */
  lemma KeptAreTheLast(before: Store, after: Store, ids: seq<Id>, times: seq<int>, n: nat)
    requires n < |ids| && Orderly(ids, times)
    requires HoldsLast(before, ids, times, n) && Stored(before, after, ids[n], times[n])
    ensures after.Keys == Span(ids, LastFour(n + 1), n + 1)
    ensures ids[n] !in before
  {
    hide Orderly, Span;
    StillFresh(before, ids, times, n);
    IdsDiffer(ids, times);
    var low := LastFour(n + 1);
    SpanCount(ids, low, n);
    SpanExtends(ids, low, n);
    SpanExtends(ids, LastFour(n), n);
    if n >= MAX_PENDING {
      OldestIsEvicted(before, after, ids, times, n);
    }
    WithoutOne(after.Keys, ids[n], Span(ids, low, n));
  }

  lemma WithoutOne(all: set<Id>, id: Id, rest: set<Id>)
    requires id in all && all - {id} <= rest && |all| == |rest| + 1
    ensures all == rest + {id}
  {
    assert |all - {id}| == |all| - 1;
    SameSize(all - {id}, rest);
  }

  lemma LastFourStep(before: Store, after: Store, ids: seq<Id>, times: seq<int>, n: nat)
    requires n < |ids| && Orderly(ids, times)
    requires HoldsLast(before, ids, times, n) && Stored(before, after, ids[n], times[n])
    ensures HoldsLast(after, ids, times, n + 1)
  {
    KeptAreTheLast(before, after, ids, times, n);
    forall i | LastFour(n + 1) <= i < n + 1 ensures ids[i] in after && after[ids[i]] == Some(times[i]) {
      assert ids[i] in Span(ids, LastFour(n + 1), n + 1);
      assert i < n ==> ids[i] != ids[n];
    }
  }

  /** With a clock that moves forward and no expiry, the store is the last four shares. */
  lemma {:induction false} LastFourShares(states: seq<Store>, ids: seq<Id>, times: seq<int>, n: nat)
    requires IsRun(states, ids, times) && Orderly(ids, times) && n <= |ids|
    ensures HoldsLast(states[n], ids, times, n)
    decreases n
  {
    hide Stored, Orderly;
    if n > 0 {
      LastFourShares(states, ids, times, n - 1);
      LastFourStep(states[n-1], states[n], ids, times, n - 1);
    }
  }

  lemma SameSize(a: set<Id>, b: set<Id>)
    requires a <= b && |a| == |b|
    ensures a == b
  {
    assert |b - a| == |b| - |a|;
  }
}
