/**
 * The cache layer: reading a cache document with a one-hour expiry checked
 * on read, and rebuilding the hot cache, the 100 records with the highest
 * trending score.
 */
module HotCache {
  import opened Optional
  import opened Seqs
  import opened StableSort
  import opened Records
  import opened Storage

  const HotCacheKey: string := "cache_hot"

  /** The hot cache key is not a record key, so rewriting or evicting it leaves every record in place. */
  lemma HotCacheKeyIsNotRecordKey()
    ensures !IsPredictionKey(HotCacheKey)
    ensures forall id :: PredictionKey(id) != HotCacheKey
  {
    assert HotCacheKey[0] != PredictionPrefix[0];
    forall id
      ensures PredictionKey(id) != HotCacheKey
    {
      assert PredictionKey(id)[0] == PredictionPrefix[0];
    }
  }

  /** Entries older than one hour (in milliseconds) are evicted on read. */
  const CacheMaxAgeMs: int := 3600000

  /** The time-to-live written into the hot cache, in seconds. */
  const HotCacheTtl: int := 3600

  /** How many records the hot cache keeps. */
  const HotCacheSize: nat := 100

  /** Records younger than seven days (in milliseconds) get the recency bonus. */
  const RecencyWindowMs: int := 604800000

  const RecencyBonus: int := 100

  /** views + 2·upvotes, plus 100 for a record created less than seven days before `now`. */
  function TrendingScore(p: Record, now: int): int {
    MetaViews(p) + MetaUpvotes(p) * 2 + (if now - p.created < RecencyWindowMs then RecencyBonus else 0)
  }

  /** `{...p, score}` */
  function WithScore(p: Record, now: int): Record {
    p.(score := Some(TrendingScore(p, now)))
  }

  function Scored(preds: seq<Record>, now: int): (r: seq<Record>)
    ensures |r| == |preds|
    ensures forall i :: 0 <= i < |r| ==> r[i] == WithScore(preds[i], now)
  {
    Map(preds, (p: Record) => WithScore(p, now))
  }

  /** Sort key for "score descending". */
  function ScoreKey(p: Record): int {
    -p.score.GetOr(0)
  }

  /**
   * The ranked list the hot cache stores: the scored records stably sorted
   * by score, highest first, cut after 100.
   */
  function HotList(preds: seq<Record>, now: int): (r: seq<Record>)
    ensures |r| == Min(HotCacheSize, |preds|)
    ensures r == SortBy(Scored(preds, now), ScoreKey)[..|r|]
    ensures forall i, j :: 0 <= i < j < |r| ==> r[i].score.GetOr(0) >= r[j].score.GetOr(0)
    ensures multiset(r) <= multiset(Scored(preds, now))
  {
    var r := TopBy(Scored(preds, now), ScoreKey, HotCacheSize);
    ScoreDescending(r);
    r
  }

  /** A list sorted by the score key has its scores in non-increasing order. */
  lemma ScoreDescending(r: seq<Record>)
    requires SortedBy(r, ScoreKey)
    ensures forall i, j :: 0 <= i < j < |r| ==> r[i].score.GetOr(0) >= r[j].score.GetOr(0)
  {
    forall i, j | 0 <= i < j < |r|
      ensures r[i].score.GetOr(0) >= r[j].score.GetOr(0)
    {
      assert ScoreKey(r[i]) <= ScoreKey(r[j]);
    }
  }

  /** Every record in the hot list is the scored copy of an input record. */
  lemma HotListOrigin(preds: seq<Record>, now: int, x: Record)
    requires x in HotList(preds, now)
    ensures exists p :: p in preds && x == WithScore(p, now)
  {
    var scored := Scored(preds, now);
    assert x in multiset(scored);
    var j :| 0 <= j < |scored| && scored[j] == x;
    assert preds[j] in preds;
  }

  /** A record created inside the seven-day window scores exactly 100 above the same record created outside it. */
  lemma RecencyBonusLemma(p: Record, recent: int, stale: int, now: int)
    requires now - recent < RecencyWindowMs <= now - stale
    ensures TrendingScore(p.(created := recent), now) == TrendingScore(p.(created := stale), now) + 100
  {
  }

  /** `updateHotCache`: the ranked list stored under `cache_hot`, stamped with `now` and a one-hour TTL. */
  function UpdateHotCache(s: Store, preds: seq<Record>, now: int): (r: Store)
    ensures r.values == s.values[HotCacheKey := HotCacheValue(CacheEntry(now, HotCacheTtl, HotList(preds, now)))]
  {
    Put(s, HotCacheKey, HotCacheValue(CacheEntry(now, HotCacheTtl, HotList(preds, now))))
  }

  /** The store key of a cache kind; unknown kinds have none. */
  function CacheKeyOf(kind: string, scope: string): Option<string> {
    if kind == "hot" then Some(HotCacheKey)
    else if kind == "language" then Some("cache_language_" + scope)
    else if kind == "category" then Some("cache_category_" + scope)
    else None
  }

  /** The cache entry stored under `key` has outlived its hour at `now`. */
  predicate Expired(e: CacheEntry, now: int) {
    now - e.lastUpdated > CacheMaxAgeMs
  }

  /**
   * `loadFromCache`: null for an unknown kind, a missing key or a value
   * that is not a cache document; an expired entry is removed from the
   * store and null returned; a fresh entry is returned unchanged.
   */
  function LoadFromCache(s: Store, kind: string, scope: string, now: int): (r: (Store, Option<CacheEntry>))
    ensures CacheKeyOf(kind, scope).None? ==> r == (s, None)
    ensures CacheKeyOf(kind, scope).Some? ==>
      var key := CacheKeyOf(kind, scope).value;
      && (key !in s.values || !s.values[key].HotCacheValue? ==> r == (s, None))
      && (key in s.values && s.values[key].HotCacheValue? ==>
            var e := s.values[key].entry;
            && (Expired(e, now) ==> r.1 == None && r.0.values == s.values - {key})
            && (!Expired(e, now) ==> r == (s, Some(e))))
    ensures CacheKeyOf(kind, scope).Some? ==>
      r.0.values - {CacheKeyOf(kind, scope).value} == s.values - {CacheKeyOf(kind, scope).value}
  {
    match CacheKeyOf(kind, scope)
    case None => (s, None)
    case Some(key) =>
      if key !in s.values || !s.values[key].HotCacheValue? then (s, None)
      else
        var e := s.values[key].entry;
        if Expired(e, now) then (Remove(s, key), None) else (s, Some(e))
  }

  /**
   * The hot cache written at `t0` reads back unchanged up to one hour
   * later and is evicted after that.
   */
  lemma HotCacheWriteRead(s: Store, preds: seq<Record>, t0: int, age: int, scope: string)
    ensures var r := LoadFromCache(UpdateHotCache(s, preds, t0), "hot", scope, t0 + age);
      && (age <= CacheMaxAgeMs ==> r.1 == Some(CacheEntry(t0, HotCacheTtl, HotList(preds, t0))))
      && (age > CacheMaxAgeMs ==> r.1 == None && HotCacheKey !in r.0.values)
  {
    var e := CacheEntry(t0, HotCacheTtl, HotList(preds, t0));
    var s1 := UpdateHotCache(s, preds, t0);
    assert CacheKeyOf("hot", scope) == Some(HotCacheKey);
    assert HotCacheKey in s1.values && s1.values[HotCacheKey] == HotCacheValue(e);
  }
}
