/**
 * Reading records back: one cluster's records from the local store, and the
 * full list through the three tiers (the remote repository, the hot cache,
 * the local scan).
 */
module Loader {
  import opened Optional
  import opened Seqs
  import opened StableSort
  import opened Records
  import opened Paths
  import opened Storage
  import opened HotCache

  /** `year` as a JavaScript condition: absent (null) and 0 are false. */
  predicate YearGiven(year: Option<int>) {
    year.Some? && year.value != 0
  }

  /** `quarter` as a JavaScript condition: absent (null) and "" are false. */
  predicate QuarterGiven(quarter: Option<string>) {
    quarter.Some? && quarter.value != ""
  }

  /**
   * Record `p` belongs to the cluster (`language`, `category`) and, where
   * given, to the reveal year and quarter label asked for.
   */
  predicate InCluster(p: Record, language: string, category: string, year: Option<int>, quarter: Option<string>) {
    && p.language == language
    && p.category == category
    && (YearGiven(year) ==> GetQuarter(p.revealDate).year == year.value)
    && (QuarterGiven(quarter) ==> QuarterLabel(GetQuarter(p.revealDate).quarter) == quarter.value)
  }

  /** `InCluster` as a filter. */
  function ClusterFilter(language: string, category: string, year: Option<int>, quarter: Option<string>): Record -> bool {
    (x: Record) => InCluster(x, language, category, year, quarter)
  }

  /**
   * `loadPredictionsFromCluster`: the stored records of one cluster in
   * enumeration order; a record that does not parse makes the whole load
   * come back empty.
   */
  function LoadCluster(s: Store, language: string, category: string, year: Option<int>, quarter: Option<string>): (r: seq<Record>)
    ensures HasMalformedRecord(s) ==> r == []
    ensures forall x :: x in r ==> InCluster(x, language, category, year, quarter)
    ensures !HasMalformedRecord(s) ==>
      && Subsequence(r, ScanPredictions(s).value)
      && |r| == Count(ScanPredictions(s).value, ClusterFilter(language, category, year, quarter))
      && forall x :: x in r <==> (exists k :: StoresRecord(s, k, x)) && InCluster(x, language, category, year, quarter)
  {
    match ScanPredictions(s)
    case None => []
    case Some(all) =>
      var p := ClusterFilter(language, category, year, quarter);
      FilterIsSubsequence(all, p);
      FilterLength(all, p);
      Filter(all, p)
  }

  /** Sort key for "created descending". */
  function CreatedKey(p: Record): int {
    -p.created
  }

  /** Creation times never increase along `rs`. */
  ghost predicate NewestFirst(rs: seq<Record>) {
    forall i, j :: 0 <= i < j < |rs| ==> rs[i].created >= rs[j].created
  }

  /**
   * `sort((a, b) => b.created - a.created)`: a permutation, newest first;
   * `Array.prototype.sort` is stable, so records created at the same time
   * keep their input order.
   */
  function SortNewestFirst(rs: seq<Record>): (r: seq<Record>)
    ensures multiset(r) == multiset(rs)
    ensures NewestFirst(r)
    ensures forall k :: WithKey(r, CreatedKey, k) == WithKey(rs, CreatedKey, k)
  {
    var r := SortBy(rs, CreatedKey);
    forall k
      ensures WithKey(r, CreatedKey, k) == WithKey(rs, CreatedKey, k)
    {
      SortByStable(rs, CreatedKey, k);
    }
    forall i, j | 0 <= i < j < |r|
      ensures r[i].created >= r[j].created
    {
      assert CreatedKey(r[i]) <= CreatedKey(r[j]);
    }
    r
  }

  /**
   * The remote tier of `loadAllPredictions`: the fetched records are
   * mirrored into the store (the last record with an id wins), sorted newest
   * first, ranked into the hot cache and returned.
   */
  function FromRemote(s: Store, recs: seq<Record>, now: int): (r: (Store, seq<Record>))
    ensures r.1 == SortNewestFirst(recs)
    ensures multiset(r.1) == multiset(recs)
    ensures NewestFirst(r.1)
    ensures HotCacheKey in r.0.values
    ensures r.0.values[HotCacheKey] == HotCacheValue(CacheEntry(now, HotCacheTtl, HotList(r.1, now)))
  {
    var sorted := SortNewestFirst(recs);
    (UpdateHotCache(Mirror(s, recs), sorted, now), sorted)
  }

  /** After a remote load each fetched record with no later namesake reads back from the store. */
  lemma RemoteLoadWarmsStore(s: Store, recs: seq<Record>, now: int)
    ensures forall i :: 0 <= i < |recs| && LastWithId(recs, i) ==>
              LoadPrediction(FromRemote(s, recs, now).0, recs[i].id) == Some(recs[i])
  {
    var mirrored := Mirror(s, recs);
    var sorted := SortNewestFirst(recs);
    var v := HotCacheValue(CacheEntry(now, HotCacheTtl, HotList(sorted, now)));
    assert FromRemote(s, recs, now).0 == Put(mirrored, HotCacheKey, v);
    HotCacheKeyIsNotRecordKey();
    PutKeepsRecords(mirrored, HotCacheKey, v);
    MirrorLastWins(s, recs);
  }

  /**
   * The local tiers of `loadAllPredictions`: a fresh non-empty hot cache is
   * returned as stored (an expired one is evicted on the way); otherwise
   * every stored record, newest first, or nothing at all when a stored
   * record does not parse.
   */
  function FromLocal(s: Store, now: int): (r: (Store, seq<Record>))
    ensures r.0.values - {HotCacheKey} == s.values - {HotCacheKey}
    ensures var (s1, cached) := LoadFromCache(s, "hot", "", now);
      && (cached.Some? && |cached.value.predictions| > 0 ==> r == (s, cached.value.predictions))
      && (!(cached.Some? && |cached.value.predictions| > 0) ==>
            && r.0 == s1
            && (HasMalformedRecord(s) ==> r.1 == [])
            && (!HasMalformedRecord(s) ==>
                  && r.1 == SortNewestFirst(ScanPredictions(s).value)
                  && multiset(r.1) == multiset(ScanPredictions(s).value) && NewestFirst(r.1)))
  {
    var (s1, cached) := LoadFromCache(s, "hot", "", now);
    assert CacheKeyOf("hot", "") == Some(HotCacheKey);
    if cached.Some? && |cached.value.predictions| > 0 then (s1, cached.value.predictions)
    else
      assert ScanPredictions(s1) == ScanPredictions(s) by {
        HotCacheKeyIsNotRecordKey();
        if s1 != s {
          RemoveKeepsScan(s, HotCacheKey);
        }
      }
      match ScanPredictions(s1)
      case None => (s1, [])
      case Some(all) => (s1, SortNewestFirst(all))
  }

  /** The remote tier answered with at least one record. */
  predicate RemoteAnswered(remote: Option<seq<Record>>) {
    remote.Some? && |remote.value| > 0
  }

  /**
   * `loadAllPredictions`. `remote` is the outcome of the remote load: None
   * when no repository is configured, `Some([])` when it found nothing or
   * failed; only a non-empty answer is used, otherwise the local tiers are.
   */
  function LoadAll(s: Store, now: int, remote: Option<seq<Record>>): (r: (Store, seq<Record>))
    ensures RemoteAnswered(remote) ==> r == FromRemote(s, remote.value, now)
    ensures !RemoteAnswered(remote) ==> r == FromLocal(s, now)
  {
    if RemoteAnswered(remote) then FromRemote(s, remote.value, now) else FromLocal(s, now)
  }

  /** Without a remote answer, loading everything changes at most the hot cache, so every record lookup is as before. */
  lemma LocalLoadKeepsRecords(s: Store, now: int, remote: Option<seq<Record>>)
    requires !RemoteAnswered(remote)
    ensures forall id :: LoadPrediction(LoadAll(s, now, remote).0, id) == LoadPrediction(s, id)
  {
    HotCacheKeyIsNotRecordKey();
    FrameKeepsRecords(s, LoadAll(s, now, remote).0, HotCacheKey);
  }

  /**
   * Loading everything, from either tier, leaves every key that is neither a
   * record key nor the hot cache key as it was.
   */
  lemma LoadAllKeepsOtherKeys(s: Store, now: int, remote: Option<seq<Record>>, k: string)
    requires k in s.values && k != HotCacheKey && !IsPredictionKey(k)
    ensures k in LoadAll(s, now, remote).0.values && LoadAll(s, now, remote).0.values[k] == s.values[k]
  {
    if RemoteAnswered(remote) {
      forall x | x in remote.value
        ensures k != PredictionKey(x.id)
      {
        assert PredictionKey(x.id)[..|PredictionPrefix|] == PredictionPrefix;
      }
    } else {
      assert k in (s.values - {HotCacheKey});
    }
  }
}
