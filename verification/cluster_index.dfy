/**
 * The cluster index of one (language, category) pair: how many of its
 * records reveal in each quarter of each year, and the ten newest records
 * with their file paths.
 */
module ClusterIndexing {
  import opened Optional
  import opened Seqs
  import opened StableSort
  import opened Records
  import opened Paths
  import opened Storage
  import opened Loader
  import opened MapSum

  /** How many of the newest records the index lists. */
  const RecentCount: nat := 10

  const NoQuarters: QuarterCounts := QuarterCounts(0, 0, 0, 0)

  /** The counter of quarter `q` (1 … 4). */
  function QuarterCount(c: QuarterCounts, q: int): nat
    requires 1 <= q <= 4
  {
    if q == 1 then c.q1 else if q == 2 then c.q2 else if q == 3 then c.q3 else c.q4
  }

  /** `byYear[year][quarter]++` */
  function Bump(c: QuarterCounts, q: int): (r: QuarterCounts)
    requires 1 <= q <= 4
    ensures forall k :: 1 <= k <= 4 ==> QuarterCount(r, k) == QuarterCount(c, k) + (if k == q then 1 else 0)
  {
    if q == 1 then c.(q1 := c.q1 + 1)
    else if q == 2 then c.(q2 := c.q2 + 1)
    else if q == 3 then c.(q3 := c.q3 + 1)
    else c.(q4 := c.q4 + 1)
  }

  /** All four counters of a year added up. */
  function QuarterTotal(c: QuarterCounts): int {
    c.q1 + c.q2 + c.q3 + c.q4
  }

  /** The reveal year and quarter of a record. */
  function RevealSlot(p: Record): (r: YearQuarter)
    ensures 1 <= r.quarter <= 4
  {
    GetQuarter(p.revealDate)
  }

  /** "Falls in quarter `q` of year `y`", as a filter. */
  function InSlot<T>(slot: T -> YearQuarter, y: int, q: int): T -> bool {
    (x: T) => slot(x) == YearQuarter(y, q)
  }

  /** One more element counted in quarter `yq.quarter` of year `yq.year`, the year starting from all zeros. */
  function AddSlot(m: map<int, QuarterCounts>, yq: YearQuarter): map<int, QuarterCounts>
    requires 1 <= yq.quarter <= 4
  {
    m[yq.year := Bump(if yq.year in m then m[yq.year] else NoQuarters, yq.quarter)]
  }

  /** Counting one more element raises the sum of all counters by one. */
  lemma AddSlotSum(m: map<int, QuarterCounts>, yq: YearQuarter)
    requires 1 <= yq.quarter <= 4
    ensures Sum(AddSlot(m, yq), QuarterTotal) == Sum(m, QuarterTotal) + 1
  {
    var before := if yq.year in m then m[yq.year] else NoQuarters;
    var after := Bump(before, yq.quarter);
    var t0, t1 := QuarterTotal(before), QuarterTotal(after);
    assert t1 == t0 + 1 by {
      BumpTotal(before, yq.quarter);
    }
    assert AddSlot(m, yq) == m[yq.year := after];
    SumUpdate<int, QuarterCounts>(m, QuarterTotal, yq.year, after);
  }

  lemma BumpTotal(c: QuarterCounts, q: int)
    requires 1 <= q <= 4
    ensures QuarterTotal(Bump(c, q)) == QuarterTotal(c) + 1
  {
  }

  /**
   * The `byYear` table: a year appears exactly when some element falls in
   * it, starting from `{Q1: 0, …, Q4: 0}`, and each counter holds the number
   * of elements falling in that quarter.
   */
  function CountByQuarter<T(!new)>(xs: seq<T>, slot: T -> YearQuarter): (r: map<int, QuarterCounts>)
    requires forall x :: 1 <= slot(x).quarter <= 4
    ensures forall y :: y in r <==> exists x :: x in xs && slot(x).year == y
    ensures forall y, q :: y in r && 1 <= q <= 4 ==> QuarterCount(r[y], q) == Count(xs, InSlot(slot, y, q))
  {
    if |xs| == 0 then map[]
    else
      var m := CountByQuarter(xs[1..], slot);
      var yq := slot(xs[0]);
      var r := AddSlot(m, yq);
      assert xs[0] in xs;
      assert forall x :: x in xs <==> x == xs[0] || x in xs[1..];
      forall y, q | y in r && 1 <= q <= 4
        ensures QuarterCount(r[y], q) == Count(xs, InSlot(slot, y, q))
      {
        assert Count(xs, InSlot(slot, y, q)) == (if InSlot(slot, y, q)(xs[0]) then 1 else 0) + Count(xs[1..], InSlot(slot, y, q));
        if y != yq.year {
          assert y in m;
        } else if yq.year !in m {
          CountNone(xs[1..], InSlot(slot, y, q));
        }
      }
      r
  }

  /** The quarter counters of all years add up to the number of elements counted. */
  lemma {:induction false} CountByQuarterSum<T(!new)>(xs: seq<T>, slot: T -> YearQuarter)
    requires forall x :: 1 <= slot(x).quarter <= 4
    ensures Sum(CountByQuarter(xs, slot), QuarterTotal) == |xs|
  {
    if |xs| > 0 {
      CountByQuarterSum(xs[1..], slot);
      var m := CountByQuarter(xs[1..], slot);
      var yq := slot(xs[0]);
      assert CountByQuarter(xs, slot) == AddSlot(m, yq);
      AddSlotSum(m, yq);
    }
  }

  /**
   * One line of `recentPredictions`; the path comes from
   * `getPredictionPath`, which throws for an unconfigured language or
   * category.
   */
  function RecentEntryOf(p: Record): (r: Result<RecentEntry, PathError>)
    ensures r.Ok? <==> ValidClassification(p.language, p.category)
    ensures r.Err? ==> r.error == ClusterPath(p).error
    ensures r.Ok? ==> && r.value.id == p.id && r.value.title == p.title && r.value.author == p.author
                      && r.value.created == p.created && r.value.revealDate == p.revealDate
                      && r.value.path == PredictionPath(p).value
  {
    match PredictionPath(p)
    case Err(e) => Err(e)
    case Ok(path) => Ok(RecentEntry(p.id, p.title, p.author, p.created, p.revealDate, path))
  }

  /**
   * The ten newest records, newest first: the first ten of the stable sort
   * by creation time, so records created at the same time keep their input
   * order, and no record is listed more often than it occurs.
   */
  function Newest(preds: seq<Record>): (r: seq<Record>)
    ensures |r| == Min(RecentCount, |preds|)
    ensures multiset(r) <= multiset(preds)
    ensures forall k :: WithKey(r, CreatedKey, k) <= WithKey(preds, CreatedKey, k)
  {
    var r := TopBy(preds, CreatedKey, RecentCount);
    forall k
      ensures WithKey(r, CreatedKey, k) <= WithKey(preds, CreatedKey, k)
    {
      TopByStable(preds, CreatedKey, RecentCount, k);
    }
    r
  }

  /**
   * The newest list is the first part of the stable newest-first sort of
   * the records: drawn from them, newest first, and no record newer than a
   * listed one is left out.
   */
  lemma NewestSpec(preds: seq<Record>)
    ensures Newest(preds) <= SortNewestFirst(preds)
    ensures forall p :: p in Newest(preds) ==> p in preds
    ensures NewestFirst(Newest(preds))
    ensures forall p, i :: p in preds && 0 <= i < |Newest(preds)| && p.created > Newest(preds)[i].created ==>
              p in Newest(preds)
  {
    var r := Newest(preds);
    TopByMembers(preds, CreatedKey, RecentCount);
    forall i, j | 0 <= i < j < |r|
      ensures r[i].created >= r[j].created
    {
      assert CreatedKey(r[i]) <= CreatedKey(r[j]);
    }
    forall p, i | p in preds && 0 <= i < |r| && p.created > r[i].created
      ensures p in r
    {
      assert CreatedKey(p) < CreatedKey(r[i]);
      assert r[i] in r;
    }
  }

  /** `recentPredictions`: the newest records as index lines, or the error of the first one without a path. */
  function RecentList(preds: seq<Record>): (r: Result<seq<RecentEntry>, PathError>)
    ensures r.Ok? ==> |r.value| == Min(RecentCount, |preds|)
  {
    MapAll(Newest(preds), RecentEntryOf)
  }

  /** The recent list fails exactly when one of the newest records has no path. */
  lemma RecentListOk(preds: seq<Record>)
    ensures RecentList(preds).Ok? <==> forall p :: p in Newest(preds) ==> ValidClassification(p.language, p.category)
  {
    var recent := Newest(preds);
    assert RecentList(preds) == MapAll(recent, RecentEntryOf);
    assert (forall i :: 0 <= i < |recent| ==> RecentEntryOf(recent[i]).Ok?) <==>
           (forall p :: p in recent ==> ValidClassification(p.language, p.category));
  }

  /** A recent list that succeeds holds the index lines of the newest records, in order, newest first. */
  lemma RecentListEntries(preds: seq<Record>)
    requires RecentList(preds).Ok?
    ensures var entries := RecentList(preds).value;
      && |entries| == |Newest(preds)|
      && (forall i :: 0 <= i < |entries| ==> Ok(entries[i]) == RecentEntryOf(Newest(preds)[i]))
      && (forall i, j :: 0 <= i < j < |entries| ==> entries[i].created >= entries[j].created)
  {
    var recent := Newest(preds);
    var entries := RecentList(preds).value;
    assert RecentList(preds) == MapAll(recent, RecentEntryOf);
    NewestSpec(preds);
    EntriesKeepOrder(recent, entries);
  }

  /** Index lines made from a newest-first list are newest first too. */
  lemma EntriesKeepOrder(recent: seq<Record>, entries: seq<RecentEntry>)
    requires NewestFirst(recent)
    requires |entries| == |recent|
    requires forall i :: 0 <= i < |recent| ==> RecentEntryOf(recent[i]) == Ok(entries[i])
    ensures forall i, j :: 0 <= i < j < |entries| ==> entries[i].created >= entries[j].created
  {
    forall i, j | 0 <= i < j < |entries|
      ensures entries[i].created >= entries[j].created
    {
      assert entries[i].created == recent[i].created;
      assert entries[j].created == recent[j].created;
    }
  }

  /** The newest records of one cluster all have a path exactly when the cluster is empty or configured. */
  lemma ClusterRecentValid(language: string, category: string, preds: seq<Record>)
    ensures (forall p :: p in preds ==> p.language == language && p.category == category) ==>
            ((forall p :: p in Newest(preds) ==> ValidClassification(p.language, p.category)) <==>
             (|preds| == 0 || ValidClassification(language, category)))
  {
    var recent := Newest(preds);
    NewestSpec(preds);
    if |preds| > 0 {
      assert recent[0] in recent;
    }
  }

  /**
   * The index built from the records of one cluster, stamped `now`.
   * Building it throws when a listed record has no path, which for the
   * records of one cluster means an unconfigured language or category.
   */
  function BuildClusterIndex(language: string, category: string, preds: seq<Record>, now: int): (r: Result<ClusterIndex, PathError>)
    ensures (forall p :: p in preds ==> p.language == language && p.category == category) ==>
              (r.Err? <==> |preds| > 0 && !ValidClassification(language, category))
    ensures r.Ok? ==>
      && r.value.language == language && r.value.category == category && r.value.lastUpdated == now
      && r.value.totalPredictions == |preds|
  {
    ClusterRecentValid(language, category, preds);
    RecentListOk(preds);
    match RecentList(preds)
    case Err(e) => Err(e)
    case Ok(entries) =>
      Ok(ClusterIndex(language, category, |preds|, now, CountByQuarter(preds, RevealSlot), entries))
  }

  /**
   * What a built cluster index holds: a quarter table whose counters add up
   * to the record count, a year for exactly the years records fall in, each
   * counter the number of records of its quarter, and the ten newest
   * records with their paths.
   */
  lemma ClusterIndexContents(language: string, category: string, preds: seq<Record>, now: int)
    requires BuildClusterIndex(language, category, preds, now).Ok?
    ensures var index := BuildClusterIndex(language, category, preds, now).value;
      && Sum(index.byYear, QuarterTotal) == index.totalPredictions
      && (forall y :: y in index.byYear <==> exists p :: p in preds && RevealSlot(p).year == y)
      && (forall y, q :: y in index.byYear && 1 <= q <= 4 ==>
            QuarterCount(index.byYear[y], q) == Count(preds, InSlot(RevealSlot, y, q)))
      && RecentList(preds).Ok? && index.recentPredictions == RecentList(preds).value
  {
    CountByQuarterSum(preds, RevealSlot);
  }

  /** `index_<language>_<category>` */
  function ClusterIndexKey(language: string, category: string): string {
    "index_" + language + "_" + category
  }

  /** Key `key` holds the cluster index `index`. */
  ghost predicate HoldsClusterIndex(s: Store, key: string, index: ClusterIndex) {
    key in s.values && s.values[key] == ClusterIndexValue(index)
  }

  /** Stores a built index under `key`; a failed build leaves the store as it was. */
  function StoreBuilt(s: Store, key: string, built: Result<ClusterIndex, PathError>): (r: Store)
    ensures built.Err? ==> r == s
    ensures built.Ok? ==> key in r.values && r.values[key] == ClusterIndexValue(built.value)
    ensures r.values - {key} == s.values - {key}
  {
    if built.Err? then s else Put(s, key, ClusterIndexValue(built.value))
  }

  /**
   * Indexes the records of one cluster and stores the index under its key;
   * when building the index throws, the store is left as it was.
   */
  function StoreClusterIndex(s: Store, language: string, category: string, preds: seq<Record>, now: int): (r: Store)
    requires forall p :: p in preds ==> p.language == language && p.category == category
    ensures |preds| > 0 && !ValidClassification(language, category) ==> r == s
    ensures !(|preds| > 0 && !ValidClassification(language, category)) ==>
      && BuildClusterIndex(language, category, preds, now).Ok?
      && HoldsClusterIndex(r, ClusterIndexKey(language, category), BuildClusterIndex(language, category, preds, now).value)
    ensures r.values - {ClusterIndexKey(language, category)} == s.values - {ClusterIndexKey(language, category)}
  {
    StoreBuilt(s, ClusterIndexKey(language, category), BuildClusterIndex(language, category, preds, now))
  }

  /**
   * `updateClusterIndex`: the cluster's stored records are loaded, indexed
   * and the index stored; an index that cannot be built leaves the store
   * unchanged.
   */
  function UpdateClusterIndex(s: Store, language: string, category: string, now: int): (r: Store)
    ensures var preds := LoadCluster(s, language, category, None, None);
      && (|preds| > 0 && !ValidClassification(language, category) ==> r == s)
      && (!(|preds| > 0 && !ValidClassification(language, category)) ==>
            && BuildClusterIndex(language, category, preds, now).Ok?
            && HoldsClusterIndex(r, ClusterIndexKey(language, category), BuildClusterIndex(language, category, preds, now).value))
    ensures r.values - {ClusterIndexKey(language, category)} == s.values - {ClusterIndexKey(language, category)}
  {
    var preds := LoadCluster(s, language, category, None, None);
    assert forall p :: p in preds ==> p.language == language && p.category == category by {
      assert forall p :: p in preds ==> InCluster(p, language, category, None, None);
    }
    StoreClusterIndex(s, language, category, preds, now)
  }

  /**
   * What a refresh stores for a cluster: an index of exactly the cluster's
   * stored records, stamped `now`, whose quarter table counts each quarter
   * and sums to the total, and whose recent list holds the index lines of
   * the min(10, n) newest records, newest first.
   */
  lemma UpdateClusterIndexContents(s: Store, language: string, category: string, now: int)
    requires var preds := LoadCluster(s, language, category, None, None);
      |preds| == 0 || ValidClassification(language, category)
    ensures var preds := LoadCluster(s, language, category, None, None);
      var r := UpdateClusterIndex(s, language, category, now);
      var key := ClusterIndexKey(language, category);
      && key in r.values && r.values[key].ClusterIndexValue?
      && var index := r.values[key].index;
      && index.language == language && index.category == category
      && index.totalPredictions == |preds| && index.lastUpdated == now
      && Sum(index.byYear, QuarterTotal) == |preds|
      && (forall y, q :: y in index.byYear && 1 <= q <= 4 ==>
            QuarterCount(index.byYear[y], q) == Count(preds, InSlot(RevealSlot, y, q)))
      && |index.recentPredictions| == Min(RecentCount, |preds|)
      && (forall i :: 0 <= i < |index.recentPredictions| ==> Ok(index.recentPredictions[i]) == RecentEntryOf(Newest(preds)[i]))
      && (forall i, j :: 0 <= i < j < |index.recentPredictions| ==>
            index.recentPredictions[i].created >= index.recentPredictions[j].created)
  {
    var preds := LoadCluster(s, language, category, None, None);
    var built := BuildClusterIndex(language, category, preds, now);
    assert built.Ok?;
    ClusterIndexContents(language, category, preds, now);
    RecentListEntries(preds);
    assert HoldsClusterIndex(UpdateClusterIndex(s, language, category, now), ClusterIndexKey(language, category), built.value);
  }

  /** Refreshing a cluster index leaves every record lookup as it was. */
  lemma ClusterRefreshKeepsRecords(s: Store, language: string, category: string, now: int)
    ensures forall id :: LoadPrediction(UpdateClusterIndex(s, language, category, now), id) == LoadPrediction(s, id)
  {
    assert !IsPredictionKey(ClusterIndexKey(language, category)) by {
      assert ClusterIndexKey(language, category)[0] != PredictionPrefix[0];
    }
    FrameKeepsRecords(s, UpdateClusterIndex(s, language, category, now), ClusterIndexKey(language, category));
  }
}
