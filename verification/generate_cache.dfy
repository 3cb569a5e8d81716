/**
 * The offline hot-cache file built from every stored record: the records
 * ranked by their top-level view counter, and four lists cut from that
 * ranking: the most viewed, the recently created, the recently revealed
 * and the records due to be revealed within a week.
 */
module GenerateCache {
  import opened Optional
  import opened Seqs
  import opened StableSort
  import opened Records

  const CacheFileVersion: string := "1.0"

  /** Length of the most-viewed list. */
  const HotLength: nat := 50

  /** Length of each of the three other lists. */
  const ListLength: nat := 20

  const DayMs: int := 86400000

  const WeekMs: int := 604800000

  /** The generated document; `generated` is the build time in milliseconds. */
  datatype CacheFile = CacheFile(
    generated: int,
    version: string,
    count: nat,
    hot: seq<Record>,
    trending: seq<Record>,
    recentRevealed: seq<Record>,
    nearExpiry: seq<Record>)

  /** `p.views || 0` */
  function Views(p: Record): int {
    p.views.GetOr(0)
  }

  /** Sort key for "most viewed first". */
  function ViewsKey(p: Record): int {
    -Views(p)
  }

  /** `predictions.sort((a, b) => (b.views || 0) - (a.views || 0))`: a stable sort, most viewed first. */
  function ByViews(preds: seq<Record>): (r: seq<Record>)
    ensures multiset(r) == multiset(preds)
    ensures forall i, j :: 0 <= i < j < |r| ==> Views(r[i]) >= Views(r[j])
  {
    MostViewedFirst(SortBy(preds, ViewsKey));
    SortBy(preds, ViewsKey)
  }

  /** A list sorted by the views key has its view counts in non-increasing order. */
  lemma MostViewedFirst(r: seq<Record>)
    requires SortedBy(r, ViewsKey)
    ensures forall i, j :: 0 <= i < j < |r| ==> Views(r[i]) >= Views(r[j])
  {
    forall i, j | 0 <= i < j < |r|
      ensures Views(r[i]) >= Views(r[j])
    {
      assert ViewsKey(r[i]) <= ViewsKey(r[j]);
    }
  }

  /** Viewed exactly `v` times (a missing counter counting as 0). */
  function ViewedTimes(v: int): Record -> bool {
    (p: Record) => Views(p) == v
  }

  /** Records with the same view count keep the order they were read in. */
  lemma ByViewsStable(preds: seq<Record>, v: int)
    ensures Filter(ByViews(preds), ViewedTimes(v)) == Filter(preds, ViewedTimes(v))
  {
    SortByStableFilter(preds, ViewsKey, -v, ViewedTimes(v));
  }

  /** The 50 most viewed records. */
  function HotList(sorted: seq<Record>): (r: seq<Record>)
    requires forall i, j :: 0 <= i < j < |sorted| ==> Views(sorted[i]) >= Views(sorted[j])
    ensures |r| == Min(HotLength, |sorted|)
    ensures r == sorted[..|r|]
    ensures forall x, y :: x in sorted && y in r && Views(x) > Views(y) ==> x in r
  {
    var r := Take(sorted, HotLength);
    forall x, y | x in sorted && y in r && Views(x) > Views(y)
      ensures x in r
    {
      var i :| 0 <= i < |sorted| && sorted[i] == x;
      var j :| 0 <= j < |r| && r[j] == y;
      assert i < j;
    }
    r
  }

  /** Created less than a day before `now`. */
  predicate IsTrending(p: Record, now: int) {
    now - p.created < DayMs
  }

  function TrendingFilter(now: int): Record -> bool {
    (p: Record) => IsTrending(p, now)
  }

  /** The first 20 records of the ranking created within the last day, in ranking order. */
  function TrendingList(sorted: seq<Record>, now: int): (r: seq<Record>)
    ensures |r| == Min(ListLength, Count(sorted, TrendingFilter(now)))
    ensures r <= Filter(sorted, TrendingFilter(now))
    ensures forall x :: x in r ==> IsTrending(x, now)
    ensures Subsequence(r, sorted)
    ensures multiset(r) <= multiset(sorted)
  {
    var young := Filter(sorted, TrendingFilter(now));
    assert forall x :: x in young ==> TrendingFilter(now)(x);
    FilterLength(sorted, TrendingFilter(now));
    FilterIsSubsequence(sorted, TrendingFilter(now));
    var r := Take(young, ListLength);
    assert forall x :: x in r ==> x in young;
    SubsequencePrefix(young, sorted, |r|);
    assert young == r + young[|r|..];
    assert multiset(r) <= multiset(young);
    r
  }

  predicate IsRevealed(p: Record) {
    p.revealed
  }

  /** `p.revealedAt || 0` */
  function RevealedAt(p: Record): int {
    p.revealedAt.GetOr(0)
  }

  /** Sort key for "most recently revealed first". */
  function RevealedAtKey(p: Record): int {
    -RevealedAt(p)
  }

  /**
   * The 20 most recently revealed records: the revealed records of the
   * ranking, stably re-sorted by reveal time, latest first.
   */
  function RecentRevealedList(sorted: seq<Record>): (r: seq<Record>)
    ensures |r| == Min(ListLength, Count(sorted, IsRevealed))
    ensures r <= SortBy(Filter(sorted, IsRevealed), RevealedAtKey)
    ensures forall x :: x in r ==> x in sorted && x.revealed
    ensures multiset(r) <= multiset(sorted)
    ensures forall i, j :: 0 <= i < j < |r| ==> RevealedAt(r[i]) >= RevealedAt(r[j])
    ensures forall x, y :: x in sorted && x.revealed && y in r && RevealedAt(x) > RevealedAt(y) ==> x in r
  {
    var revealed := Filter(sorted, IsRevealed);
    FilterLength(sorted, IsRevealed);
    var r := TopBy(revealed, RevealedAtKey, ListLength);
    assert r <= SortBy(revealed, RevealedAtKey);
    TopByMembers(revealed, RevealedAtKey, ListLength);
    LatestFirst(r);
    r
  }

  /** A list sorted by the reveal-time key has its reveal times in non-increasing order. */
  lemma LatestFirst(r: seq<Record>)
    requires SortedBy(r, RevealedAtKey)
    ensures forall i, j :: 0 <= i < j < |r| ==> RevealedAt(r[i]) >= RevealedAt(r[j])
  {
    forall i, j | 0 <= i < j < |r|
      ensures RevealedAt(r[i]) >= RevealedAt(r[j])
    {
      assert RevealedAtKey(r[i]) <= RevealedAtKey(r[j]);
    }
  }

  /** Not revealed, due less than a week after `now`, and not yet due. */
  predicate IsNearExpiry(p: Record, now: int) {
    !p.revealed && p.revealDate - now < WeekMs && p.revealDate > now
  }

  function Unrevealed(p: Record): bool {
    !p.revealed
  }

  function DueWithinWeek(now: int): Record -> bool {
    (p: Record) => p.revealDate - now < WeekMs
  }

  function NotYetDue(now: int): Record -> bool {
    (p: Record) => p.revealDate > now
  }

  function NearExpiryFilter(now: int): Record -> bool {
    (p: Record) => IsNearExpiry(p, now)
  }

  /**
   * The three filters in the order the script applies them: together they
   * are the one filter by the near-expiry condition, so every qualifying
   * record is kept once per occurrence, in ranking order.
   */
  function NearExpiryCandidates(sorted: seq<Record>, now: int): (r: seq<Record>)
    ensures r == Filter(sorted, NearExpiryFilter(now))
    ensures forall x :: x in r <==> x in sorted && IsNearExpiry(x, now)
    ensures multiset(r) <= multiset(sorted)
  {
    var unrevealedSoon := And(Unrevealed, DueWithinWeek(now));
    FilterFilter(sorted, Unrevealed, DueWithinWeek(now));
    FilterFilter(sorted, unrevealedSoon, NotYetDue(now));
    FilterCongruent(sorted, And(unrevealedSoon, NotYetDue(now)), NearExpiryFilter(now));
    Filter(Filter(Filter(sorted, Unrevealed), DueWithinWeek(now)), NotYetDue(now))
  }

  function RevealDateKey(p: Record): int {
    p.revealDate
  }

  /**
   * The 20 unrevealed records due soonest within the coming week, earliest
   * first; records due at the same time keep their ranking order.
   */
  function NearExpiryList(sorted: seq<Record>, now: int): (r: seq<Record>)
    ensures |r| == Min(ListLength, |NearExpiryCandidates(sorted, now)|)
    ensures r <= SortBy(NearExpiryCandidates(sorted, now), RevealDateKey)
    ensures forall x :: x in r ==> x in sorted && IsNearExpiry(x, now)
    ensures multiset(r) <= multiset(sorted)
    ensures forall i, j :: 0 <= i < j < |r| ==> r[i].revealDate <= r[j].revealDate
    ensures forall x, y :: x in sorted && IsNearExpiry(x, now) && y in r && x.revealDate < y.revealDate ==> x in r
  {
    var due := NearExpiryCandidates(sorted, now);
    var r := TopBy(due, RevealDateKey, ListLength);
    TopByMembers(due, RevealDateKey, ListLength);
    EarliestFirst(r);
    r
  }

  /** A list sorted by the reveal-date key has its reveal dates in non-decreasing order. */
  lemma EarliestFirst(r: seq<Record>)
    requires SortedBy(r, RevealDateKey)
    ensures forall i, j :: 0 <= i < j < |r| ==> r[i].revealDate <= r[j].revealDate
  {
    forall i, j | 0 <= i < j < |r|
      ensures r[i].revealDate <= r[j].revealDate
    {
      assert RevealDateKey(r[i]) <= RevealDateKey(r[j]);
    }
  }

  /** A near-expiry list shorter than 20 holds every record that qualifies. */
  lemma NearExpiryComplete(sorted: seq<Record>, now: int, x: Record)
    requires |NearExpiryList(sorted, now)| < ListLength
    requires x in sorted && IsNearExpiry(x, now)
    ensures x in NearExpiryList(sorted, now)
  {
    var due := NearExpiryCandidates(sorted, now);
    var r := NearExpiryList(sorted, now);
    assert r == TopBy(due, RevealDateKey, ListLength);
    assert |r| == |due|;
    SubMultisetOfSameSize(multiset(r), multiset(due));
    assert x in multiset(due);
  }

  /** A sub-multiset with as many elements as the whole is the whole. */
  lemma SubMultisetOfSameSize<T>(a: multiset<T>, b: multiset<T>)
    requires a <= b
    requires |a| == |b|
    ensures a == b
  {
    assert |b - a| == |b| - |a|;
  }

  /** The ranking holds exactly the records read. */
  lemma ByViewsMembers(preds: seq<Record>)
    ensures forall x :: x in ByViews(preds) <==> x in preds
  {
    var sorted := ByViews(preds);
    forall x
      ensures x in sorted <==> x in preds
    {
      assert x in preds <==> x in multiset(preds);
    }
  }

  /**
   * `hot` is the first min(50, n) records of the ranking, drawn from the
   * input, and no record viewed more than a kept one is left out.
   */
  ghost predicate HotOf(preds: seq<Record>, hot: seq<Record>) {
    && |hot| == Min(HotLength, |preds|)
    && hot <= ByViews(preds)
    && multiset(hot) <= multiset(preds)
    && forall x, y :: x in preds && y in hot && Views(x) > Views(y) ==> x in hot
  }

  /** `trending` is the first min(20, k) of the k ranked records created within a day of `now`, drawn from the input. */
  ghost predicate TrendingOf(preds: seq<Record>, now: int, trending: seq<Record>) {
    && |trending| == Min(ListLength, Count(ByViews(preds), TrendingFilter(now)))
    && trending <= Filter(ByViews(preds), TrendingFilter(now))
    && multiset(trending) <= multiset(preds)
    && forall x :: x in trending ==> x in preds && IsTrending(x, now)
  }

  /**
   * `recent` holds min(20, k) of the k revealed records, drawn from the
   * input, latest reveal first with ties in ranking order, and no revealed
   * record later than a kept one is left out.
   */
  ghost predicate RecentRevealedOf(preds: seq<Record>, recent: seq<Record>) {
    && |recent| == Min(ListLength, Count(ByViews(preds), IsRevealed))
    && recent <= SortBy(Filter(ByViews(preds), IsRevealed), RevealedAtKey)
    && multiset(recent) <= multiset(preds)
    && (forall x :: x in recent ==> x in preds && x.revealed)
    && (forall i, j :: 0 <= i < j < |recent| ==> RevealedAt(recent[i]) >= RevealedAt(recent[j]))
    && forall x, y :: x in preds && x.revealed && y in recent && RevealedAt(x) > RevealedAt(y) ==> x in recent
  }

  /**
   * `near` holds min(20, k) of the k near-expiry records, drawn from the
   * input, earliest reveal date first with ties in ranking order, and no
   * qualifying record due earlier than a kept one is left out
   * (NearExpiryOfHoldsAll: a list shorter than 20 holds them all).
   */
  ghost predicate NearExpiryOf(preds: seq<Record>, now: int, near: seq<Record>) {
    && |near| == Min(ListLength, |NearExpiryCandidates(ByViews(preds), now)|)
    && near <= SortBy(NearExpiryCandidates(ByViews(preds), now), RevealDateKey)
    && multiset(near) <= multiset(preds)
    && (forall x :: x in near ==> x in preds && IsNearExpiry(x, now))
    && (forall i, j :: 0 <= i < j < |near| ==> near[i].revealDate <= near[j].revealDate)
    && forall x, y :: x in preds && IsNearExpiry(x, now) && y in near && x.revealDate < y.revealDate ==> x in near
  }

  lemma HotFromInput(preds: seq<Record>)
    ensures HotOf(preds, HotList(ByViews(preds)))
  {
    var sorted := ByViews(preds);
    ByViewsMembers(preds);
    var hot := HotList(sorted);
    assert sorted == hot + sorted[|hot|..];
  }

  lemma TrendingFromInput(preds: seq<Record>, now: int)
    ensures TrendingOf(preds, now, TrendingList(ByViews(preds), now))
  {
    var sorted := ByViews(preds);
    ByViewsMembers(preds);
    var trending := TrendingList(sorted, now);
    SubsequenceMembers(trending, sorted);
    forall x | x in trending
      ensures x in preds
    {
      assert x in multiset(trending);
    }
  }

  lemma RecentRevealedFromInput(preds: seq<Record>)
    ensures RecentRevealedOf(preds, RecentRevealedList(ByViews(preds)))
  {
    ByViewsMembers(preds);
  }

  lemma NearExpiryFromInput(preds: seq<Record>, now: int)
    ensures NearExpiryOf(preds, now, NearExpiryList(ByViews(preds), now))
  {
    ByViewsMembers(preds);
  }

  /** Any list meeting NearExpiryOf that is shorter than 20 holds every qualifying record read. */
  lemma NearExpiryOfHoldsAll(preds: seq<Record>, now: int, near: seq<Record>)
    requires NearExpiryOf(preds, now, near)
    requires |near| < ListLength
    ensures forall x :: x in preds && IsNearExpiry(x, now) ==> x in near
  {
    var due := NearExpiryCandidates(ByViews(preds), now);
    var all := SortBy(due, RevealDateKey);
    assert near == all;
    ByViewsMembers(preds);
    forall x | x in preds && IsNearExpiry(x, now)
      ensures x in near
    {
      assert x in multiset(due);
    }
  }

  /**
   * The cache document built at `now` from the records read: their count,
   * and four lists each drawn from them under its own criterion.
   */
  function BuildCacheFile(preds: seq<Record>, now: int): (r: CacheFile)
    ensures r.generated == now && r.version == CacheFileVersion && r.count == |preds|
    ensures HotOf(preds, r.hot)
    ensures TrendingOf(preds, now, r.trending)
    ensures RecentRevealedOf(preds, r.recentRevealed)
    ensures NearExpiryOf(preds, now, r.nearExpiry)
  {
    var sorted := ByViews(preds);
    HotFromInput(preds);
    TrendingFromInput(preds, now);
    RecentRevealedFromInput(preds);
    NearExpiryFromInput(preds, now);
    CacheFile(now, CacheFileVersion, |preds|, HotList(sorted), TrendingList(sorted, now),
              RecentRevealedList(sorted), NearExpiryList(sorted, now))
  }
}
