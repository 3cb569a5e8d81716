/**
 * The global index: record counts per language, per category and per
 * reveal year over everything `loadAllPredictions` returns, and the share of
 * the 100 MB budget the serialized records use.
 */
module GlobalIndexing {
  import opened Optional
  import opened Seqs
  import opened Records
  import opened Storage
  import opened Loader
  import opened MapSum
  import opened ClusterIndexing
  import opened HotCache

  const IndexVersion: string := "1.0.0"

  const GlobalIndexKey: string := "index_global"

  /** The storage budget, 100 · 1024 · 1024 bytes. */
  const MaxSizeBytes: nat := 104857600

  const MaxSizeLabel: string := "100MB"

  /** The number a counter contributes to a sum; NaN contributes nothing. */
  function TallyValue(t: Tally): int {
    match t
    case Number(n) => n
    case NotANumber => 0
  }

  function NatValue(n: nat): int {
    n
  }

  /** Every configured key, seeded at 0. */
  function SeedTallies(keys: seq<string>): (r: map<string, Tally>)
    ensures forall k :: k in r <==> k in keys
    ensures forall k :: k in r ==> r[k] == Number(0)
  {
    map k | k in keys :: Number(0)
  }

  /** `if (k) m[k]++`: a key never seeded becomes NaN, and NaN stays NaN. */
  function Tick(m: map<string, Tally>, k: string): map<string, Tally> {
    if k == "" then m
    else if k in m && m[k].Number? then m[k := Number(m[k].n + 1)]
    else m[k := NotANumber]
  }

  /** "Has field value `k`", as a filter. */
  function FieldIs<T>(field: T -> string, k: string): T -> bool {
    (x: T) => field(x) == k
  }

  /**
   * The counters of `byLanguage` or `byCategory`: every seeded key holds
   * the number of records with that value; a value that was not seeded
   * appears only if some record carries it, and then as NaN; records with
   * an empty value are not counted.
   */
  function TallyBy<T(!new)>(preds: seq<T>, field: T -> string, seeds: seq<string>): (r: map<string, Tally>)
    requires "" !in seeds
    ensures forall k :: k in r <==> k in seeds || (k != "" && exists p :: p in preds && field(p) == k)
    ensures forall k :: k in seeds ==> r[k] == Number(Count(preds, FieldIs(field, k)))
    ensures forall k :: k in r && k !in seeds ==> r[k] == NotANumber
  {
    if |preds| == 0 then SeedTallies(seeds)
    else
      var m := TallyBy(preds[1..], field, seeds);
      assert preds[0] in preds;
      assert forall p :: p in preds <==> p == preds[0] || p in preds[1..];
      forall k | k in seeds
        ensures Tick(m, field(preds[0]))[k] == Number(Count(preds, FieldIs(field, k)))
      {
        assert Count(preds, FieldIs(field, k)) == (if FieldIs(field, k)(preds[0]) then 1 else 0) + Count(preds[1..], FieldIs(field, k));
      }
      var r := Tick(m, field(preds[0]));
      forall k | k in r && k !in seeds
        ensures r[k] == NotANumber
      {
        if k != field(preds[0]) {
          assert k in m;
        }
      }
      r
  }

  /** Every seeded key counts the elements with that value; every other key present holds NaN. */
  ghost predicate CountsSeeded<T>(m: map<string, Tally>, xs: seq<T>, field: T -> string, seeds: seq<string>) {
    && (forall k :: k in seeds ==> k in m && m[k] == Number(Count(xs, FieldIs(field, k))))
    && (forall k :: k in m && k !in seeds ==> m[k] == NotANumber)
  }

  lemma TallyCountsSeeded<T(!new)>(xs: seq<T>, field: T -> string, seeds: seq<string>)
    requires "" !in seeds
    ensures CountsSeeded(TallyBy(xs, field, seeds), xs, field, seeds)
  {
  }

  /** When every record's value is seeded, the counters add up to the number of records. */
  lemma {:induction false} TallySum<T(!new)>(preds: seq<T>, field: T -> string, seeds: seq<string>)
    requires "" !in seeds
    requires forall p :: p in preds ==> field(p) in seeds
    ensures Sum(TallyBy(preds, field, seeds), TallyValue) == |preds|
  {
    if |preds| == 0 {
      SumZero(SeedTallies(seeds), TallyValue);
    } else {
      assert forall p :: p in preds[1..] ==> p in preds;
      TallySum(preds[1..], field, seeds);
      var m := TallyBy(preds[1..], field, seeds);
      var k := field(preds[0]);
      assert k in seeds by {
        assert preds[0] in preds;
      }
      assert k in m && m[k].Number?;
      assert TallyBy(preds, field, seeds) == Tick(m, k);
      TickSum(m, k);
    }
  }

  /** Counting a value whose counter is a number adds one to the sum. */
  lemma TickSum(m: map<string, Tally>, k: string)
    requires k != "" && k in m && m[k].Number?
    ensures Sum(Tick(m, k), TallyValue) == Sum(m, TallyValue) + 1
  {
    SumUpdate(m, TallyValue, k, Number(m[k].n + 1));
  }

  /** "Falls in year `y`", as a filter. */
  function InYear<T>(year: T -> int, y: int): T -> bool {
    (x: T) => year(x) == y
  }

  /** `byYear[y] = (byYear[y] || 0) + 1` */
  function AddYear(m: map<int, nat>, y: int): map<int, nat> {
    m[y := (if y in m then m[y] else 0) + 1]
  }

  /** Counting one more element adds one to the sum. */
  lemma AddYearSum(m: map<int, nat>, y: int)
    ensures Sum(AddYear(m, y), NatValue) == Sum(m, NatValue) + 1
  {
    SumUpdate<int, nat>(m, NatValue, y, (if y in m then m[y] else 0) + 1);
  }

  /**
   * The `byYear` table of the global index: a year appears exactly when
   * some element falls in it, holding the number of those elements.
   */
  function YearCounts<T(!new)>(xs: seq<T>, year: T -> int): (r: map<int, nat>)
    ensures forall y :: y in r <==> exists x :: x in xs && year(x) == y
    ensures forall y :: y in r ==> r[y] == Count(xs, InYear(year, y))
  {
    if |xs| == 0 then map[]
    else
      var m := YearCounts(xs[1..], year);
      var y0 := year(xs[0]);
      var r := AddYear(m, y0);
      assert xs[0] in xs;
      assert forall x :: x in xs <==> x == xs[0] || x in xs[1..];
      forall y | y in r
        ensures r[y] == Count(xs, InYear(year, y))
      {
        assert Count(xs, InYear(year, y)) == (if InYear(year, y)(xs[0]) then 1 else 0) + Count(xs[1..], InYear(year, y));
        if y != y0 {
          assert y in m;
        } else if y0 !in m {
          CountNone(xs[1..], InYear(year, y));
        }
      }
      r
  }

  /** The year counters add up to the number of elements counted. */
  lemma {:induction false} YearCountsSum<T(!new)>(xs: seq<T>, year: T -> int)
    ensures Sum(YearCounts(xs, year), NatValue) == |xs|
  {
    if |xs| > 0 {
      YearCountsSum(xs[1..], year);
      var m := YearCounts(xs[1..], year);
      var y0 := year(xs[0]);
      assert YearCounts(xs, year) == AddYear(m, y0);
      AddYearSum(m, y0);
    }
  }

  /** The reveal year of a record. */
  function RevealYear(p: Record): int {
    RevealSlot(p).year
  }

  function LanguageOf(p: Record): string {
    p.language
  }

  function CategoryOf(p: Record): string {
    p.category
  }

  /** The summed serialized size of the records. */
  function TotalSize(preds: seq<Record>, size: Record -> nat): nat {
    if |preds| == 0 then 0 else size(preds[0]) + TotalSize(preds[1..], size)
  }

  /**
   * `Math.round(totalSize / maxSize * 100)` in exact arithmetic: the
   * nearest integer to the percentage, halves rounded up.
   */
  function UsagePercent(totalSize: nat): (r: nat)
    ensures MaxSizeBytes * (2 * r - 1) <= 200 * totalSize < MaxSizeBytes * (2 * r + 1)
  {
    (200 * totalSize + MaxSizeBytes) / (2 * MaxSizeBytes)
  }

  /** One mebibyte is 1 % of the budget, half a percent rounds up, the full budget is 100 %. */
  lemma UsagePercentExamples()
    ensures UsagePercent(0) == 0
    ensures UsagePercent(1048576) == 1
    ensures UsagePercent(524288) == 1 && UsagePercent(524287) == 0
    ensures UsagePercent(MaxSizeBytes) == 100
  {
  }

  /** No configured language or category is the empty string, so every one of them is counted. */
  lemma SeedsNotEmpty()
    ensures "" !in Languages && "" !in Categories
  {
  }

  /**
   * The global index of a record list, stamped `now`: version "1.0.0", the
   * record count, the year table, the summed size and its percentage of
   * the 100 MB budget.
   */
  function BuildGlobalIndex(preds: seq<Record>, now: int, size: Record -> nat): (r: GlobalIndex)
    ensures r.version == IndexVersion && r.lastUpdated == now && r.maxSize == MaxSizeLabel
    ensures r.totalPredictions == |preds|
    ensures forall y :: y in r.byYear <==> exists p :: p in preds && RevealYear(p) == y
    ensures forall y :: y in r.byYear ==> r.byYear[y] == Count(preds, InYear(RevealYear, y))
    ensures Sum(r.byYear, NatValue) == r.totalPredictions
    ensures r.totalSize == TotalSize(preds, size) && r.usagePercent == UsagePercent(r.totalSize)
  {
    SeedsNotEmpty();
    YearCountsSum(preds, RevealYear);
    var totalSize := TotalSize(preds, size);
    GlobalIndex(
      IndexVersion, now, |preds|,
      TallyBy(preds, LanguageOf, Languages),
      TallyBy(preds, CategoryOf, Categories),
      YearCounts(preds, RevealYear),
      totalSize, MaxSizeLabel, UsagePercent(totalSize))
  }

  /**
   * The language and category tables of the global index: each configured
   * value holds the number of records carrying it, and any other value a
   * record carries holds NaN.
   */
  lemma GlobalIndexTallies(preds: seq<Record>, now: int, size: Record -> nat)
    ensures CountsSeeded(BuildGlobalIndex(preds, now, size).byLanguage, preds, LanguageOf, Languages)
    ensures CountsSeeded(BuildGlobalIndex(preds, now, size).byCategory, preds, CategoryOf, Categories)
  {
    SeedsNotEmpty();
    TallyCountsSeeded(preds, LanguageOf, Languages);
    TallyCountsSeeded(preds, CategoryOf, Categories);
  }

  /** When every record is configured, the language and the category counters each add up to the record count. */
  lemma GlobalIndexTallySums(preds: seq<Record>, now: int, size: Record -> nat)
    requires forall p :: p in preds ==> ValidClassification(p.language, p.category)
    ensures var r := BuildGlobalIndex(preds, now, size);
      Sum(r.byLanguage, TallyValue) == Sum(r.byCategory, TallyValue) == r.totalPredictions
  {
    SeedsNotEmpty();
    TallySum(preds, LanguageOf, Languages);
    TallySum(preds, CategoryOf, Categories);
  }

  /**
   * `updateGlobalIndex`: loads every record through the three tiers, indexes
   * them and stores the index under `index_global`, returning it. Only that
   * key changes beyond what the load itself did to the store.
   */
  function UpdateGlobalIndex(s: Store, now: int, remote: Option<seq<Record>>, size: Record -> nat): (r: (Store, GlobalIndex))
    ensures r.1 == BuildGlobalIndex(LoadAll(s, now, remote).1, now, size)
    ensures r.1.totalPredictions == |LoadAll(s, now, remote).1|
    ensures r.1.lastUpdated == now
    ensures GlobalIndexKey in r.0.values && r.0.values[GlobalIndexKey] == GlobalIndexValue(r.1)
    ensures r.0.values - {GlobalIndexKey} == LoadAll(s, now, remote).0.values - {GlobalIndexKey}
  {
    var loaded := LoadAll(s, now, remote);
    var index := BuildGlobalIndex(loaded.1, now, size);
    (Put(loaded.0, GlobalIndexKey, GlobalIndexValue(index)), index)
  }

  /**
   * What a refresh stores globally: every configured language and category
   * counts the loaded records carrying it, every reveal year counts its
   * records and the year counts add up to the total.
   */
  lemma UpdateGlobalIndexContents(s: Store, now: int, remote: Option<seq<Record>>, size: Record -> nat)
    ensures var preds := LoadAll(s, now, remote).1;
      var index := UpdateGlobalIndex(s, now, remote, size).1;
      && CountsSeeded(index.byLanguage, preds, LanguageOf, Languages)
      && CountsSeeded(index.byCategory, preds, CategoryOf, Categories)
      && (forall y :: y in index.byYear ==> index.byYear[y] == Count(preds, InYear(RevealYear, y)))
      && Sum(index.byYear, NatValue) == index.totalPredictions == |preds|
      && index.totalSize == TotalSize(preds, size)
  {
    GlobalIndexTallies(LoadAll(s, now, remote).1, now, size);
  }

  /** No cluster's index key is `index_global`: a cluster key has a `_` where that key has a letter of `global`. */
  lemma ClusterKeyIsNotGlobalKey(language: string, category: string)
    ensures ClusterIndexKey(language, category) != GlobalIndexKey
  {
    var key := ClusterIndexKey(language, category);
    if |key| == |GlobalIndexKey| {
      assert key[6 + |language|] == '_';
      assert GlobalIndexKey[6 + |language|] != '_';
    }
  }

  /**
   * Refreshing the global index leaves every key that is not a record key,
   * the hot cache key or `index_global` as it was, whatever the remote answers.
   */
  lemma GlobalRefreshKeepsKey(s: Store, now: int, remote: Option<seq<Record>>, size: Record -> nat, k: string)
    requires k in s.values && k != HotCacheKey && !IsPredictionKey(k) && k != GlobalIndexKey
    ensures k in UpdateGlobalIndex(s, now, remote, size).0.values
    ensures UpdateGlobalIndex(s, now, remote, size).0.values[k] == s.values[k]
  {
    LoadAllKeepsOtherKeys(s, now, remote, k);
    KeptOutside(UpdateGlobalIndex(s, now, remote, size).0.values, LoadAll(s, now, remote).0.values, GlobalIndexKey, k);
  }

  /** Without a remote answer, refreshing the global index leaves every record lookup as it was. */
  lemma GlobalRefreshKeepsRecords(s: Store, now: int, remote: Option<seq<Record>>, size: Record -> nat)
    requires !RemoteAnswered(remote)
    ensures forall id :: LoadPrediction(UpdateGlobalIndex(s, now, remote, size).0, id) == LoadPrediction(s, id)
  {
    var loaded := LoadAll(s, now, remote).0;
    LocalLoadKeepsRecords(s, now, remote);
    assert !IsPredictionKey(GlobalIndexKey) by {
      assert GlobalIndexKey[0] != PredictionPrefix[0];
    }
    FrameKeepsRecords(loaded, UpdateGlobalIndex(s, now, remote, size).0, GlobalIndexKey);
  }

  /** `!localStorage.getItem(key)`: the key is absent or holds the empty string. */
  predicate Blank(s: Store, key: string) {
    key !in s.values || s.values[key] == Text("")
  }

  /**
   * `getGlobalIndex`: a stored index is returned as stored; a blank entry
   * triggers `updateGlobalIndex`; anything else under the key does not
   * parse as an index and gives null.
   */
  function GetGlobalIndex(s: Store, now: int, remote: Option<seq<Record>>, size: Record -> nat): (r: (Store, Option<GlobalIndex>))
    ensures !Blank(s, GlobalIndexKey) && s.values[GlobalIndexKey].GlobalIndexValue? ==>
              r == (s, Some(s.values[GlobalIndexKey].global))
    ensures !Blank(s, GlobalIndexKey) && !s.values[GlobalIndexKey].GlobalIndexValue? ==> r == (s, None)
    ensures Blank(s, GlobalIndexKey) ==>
      && r.1.Some?
      && r.1.value == BuildGlobalIndex(LoadAll(s, now, remote).1, now, size)
      && r.1.value.totalPredictions == |LoadAll(s, now, remote).1|
      && GlobalIndexKey in r.0.values && r.0.values[GlobalIndexKey] == GlobalIndexValue(r.1.value)
  {
    if Blank(s, GlobalIndexKey) then
      var (s1, index) := UpdateGlobalIndex(s, now, remote, size);
      (s1, Some(index))
    else if s.values[GlobalIndexKey].GlobalIndexValue? then (s, Some(s.values[GlobalIndexKey].global))
    else (s, None)
  }

  /**
   * Once `getGlobalIndex` has produced an index, asking again, at any time
   * and whatever the remote answers, returns that same index and leaves the
   * store alone.
   */
  lemma GetGlobalIndexStable(s: Store, now: int, remote: Option<seq<Record>>, size: Record -> nat,
                             later: int, remote': Option<seq<Record>>, size': Record -> nat)
    requires GetGlobalIndex(s, now, remote, size).1.Some?
    ensures var (s1, index) := GetGlobalIndex(s, now, remote, size);
      GetGlobalIndex(s1, later, remote', size') == (s1, index)
  {
  }
}
