# Time Capsule cluster storage, modelled in Dafny

This project models the storage layer of the Time Capsule prediction app, `cluster-storage.js`, together with the assembly of the offline cache file in `scripts/generate-cache.js`. It models the layer's pure logic:

- how a prediction's cluster directory and file path are derived from its language, category, reveal date, id and creation time;
- the filter that picks record files out of a remote tree listing;
- the local store (Web Storage): saving a record under `prediction_<id>`, looking it up, and scanning all records or one cluster's records;
- the three-tier `loadAllPredictions`: the remote answer, then the hot cache, then the local scan;
- the hot cache: trending score, stable sort by score, top 100, and a one-hour expiry checked on read;
- the cluster index: quarter counts per year and the ten newest records with their paths;
- the global index: counts per language, category and year, and the storage usage percentage;
- `getGlobalIndex`, `searchPredictions` and `savePredictionToCluster` (its local part and the two index refreshes);
- the four lists of the offline cache file: hot, trending, recently revealed and near expiry.

Every operation is a pure function. The store is threaded through as a value: an ordered list of keys plus a map from keys to parsed values. Time is one integer `now` in milliseconds per operation. The remote repository enters only as its answer, `Option<seq<Record>>`:

- `None` means no repository is configured.
- `Some([])` means it found nothing or failed.

The serialized size of a record is a parameter `size: Record -> nat`.

Every ordering in the source (created descending, score descending, views descending, revealedAt descending, revealDate ascending) is one verified stable sort by an integer key. A descending order uses the negated key. The sort is proved to be a permutation, sorted and stable (`StableSort`).

Behaviours of the code that the model keeps as written:

- **Malformed record in a scan.** `JSON.parse` throws inside the scan loops of `loadPredictionsFromCluster` and `loadAllPredictions` (cluster-storage.js:277, 338). The catch of each function then returns an empty list for the whole scan (cluster-storage.js:293-295, 347-349), so one malformed record empties the result. `ScanPredictions`, `LoadCluster` and `FromLocal` model that.
- **Unconfigured language or category in the global index.** Only the configured languages and categories are seeded at zero (cluster-storage.js:480-485). Incrementing any other key yields `NaN` (cluster-storage.js:491-492). The `Tally` type models that with `NotANumber`.
- **Ranking in the cache script.** The cache script ranks by the top-level `views` field (scripts/generate-cache.js:39), while `updateHotCache` scores by `metadata.views` (cluster-storage.js:403). The model ranks by the top-level field.
- **Calendar.** The source reads the year and month with the host's local time zone (cluster-storage.js:35-38). The model pins the calendar to UTC, proleptic Gregorian (`Calendar`).

## Model

| member | source | states |
|---|---|---|
| Paths.QuarterOfMonth | cluster-storage.js:37-38 | the quarter is the ceiling of month/3: months 1-3 give 1, 4-6 give 2, 7-9 give 3, 10-12 give 4 |
| Paths.GetQuarter | cluster-storage.js:63-69 | the year is the calendar year of the timestamp, and the timestamp's month lies inside the reported quarter |
| Paths.ClusterPath | cluster-storage.js:23-41 | fails exactly when the language or category is not configured, with the language checked first and each error naming the bad value; otherwise the path is `data/predictions/<lang>/<cat>/<year>/Q<n>/` for the reveal date's year and quarter |
| Paths.PredictionFilename | cluster-storage.js:47-49 | the name starts with `pred_`, ends in `.json`, and between them holds the id, `_` and the decimal creation time |
| Paths.PredictionPath | cluster-storage.js:54-58 | fails exactly when the cluster path fails, with the same error; otherwise it is the cluster directory followed by `pred_<id>_<created>.json` |
| Paths.PredictionFiles | cluster-storage.js:195-200 | keeps exactly the listing entries that are blobs under `data/predictions/` containing `/pred_` and ending in `.json`, in listing order |
| Paths.PredictionPathListed | cluster-storage.js:195-200 | every path the deriver produces passes the remote listing filter |
| Paths.FilenameInjective | cluster-storage.js:47-49 | the file name determines the id and the creation time |
| Paths.PredictionPathInjective | cluster-storage.js:54-58 | two records with the same full path have the same id, creation time, language, category, reveal year and quarter |
| Paths.ClusterPathOfRevealMonth | cluster-storage.js:34-40 | a record revealed on any day of month m of year y is filed under year y, quarter ceil(m/3) |
| Paths.ItalianCryptoFebruary2026 | cluster-storage.js:19-22 | the documented example: an Italian crypto record revealed on any of the 28 days of February 2026 lives under `data/predictions/it/crypto/2026/Q1/` |
| Calendar.CivilOfDayRoundTrip | cluster-storage.js:35-37 | decomposing a day number gives back the year and month it was built from, for every day of every month |
| Storage.Put | cluster-storage.js:146 | `setItem`: the key gets the new value, every other key keeps its value, and a new key is enumerated last |
| Storage.LoadPrediction | cluster-storage.js:245-262 | returns the record stored under `prediction_<id>`, or null when the key is missing or holds no record |
| Storage.SaveLocal | cluster-storage.js:137-146 | fails exactly for an unconfigured classification, writing nothing; otherwise stores the record under its key, changes no other key and returns the record's full path |
| Storage.SaveThenLoad | cluster-storage.js:137-146 | a save followed by a lookup returns the record equal to the input in every field except the metadata stamp, which holds the cluster directory |
| Storage.ScanPredictions | cluster-storage.js:333-340 | the scan fails exactly when some record key holds a non-record; otherwise it returns one record per record key: exactly the stored records, each as many times as there are record keys holding it |
| Storage.RemoveKeepsScan | cluster-storage.js:384 | evicting a cache key does not change what the record scan returns |
| Storage.Mirror | cluster-storage.js:228-231 | the warm-up after a remote load keeps every existing key, and leaves alone the keys of ids that were not fetched |
| Storage.MirrorLastWins | cluster-storage.js:228-231 | after the warm-up, each fetched record with no later record of the same id is the one stored under its id |
| HotCache.HotList | cluster-storage.js:401-412 | the hot list has min(100, n) records, is a prefix of the stable score-sorted scored input, has non-increasing scores, and is a sub-multiset of the scored input |
| HotCache.HotListOrigin | cluster-storage.js:401-405 | every hot-list record is an input record with its trending score attached |
| HotCache.RecencyBonusLemma | cluster-storage.js:403-404 | a record created within the last seven days scores exactly 100 more than the same record created earlier |
| HotCache.UpdateHotCache | cluster-storage.js:409-415 | writes `cache_hot` with `lastUpdated = now`, TTL 3600 and the hot list, and changes no other key |
| HotCache.LoadFromCache | cluster-storage.js:358-393 | returns null for an unknown kind or an absent entry; evicts an entry older than 3 600 000 ms and returns null; otherwise returns the entry unchanged; no other key ever changes |
| HotCache.HotCacheWriteRead | cluster-storage.js:381-388 | a hot cache written at t0 reads back unchanged up to one hour later and is evicted after that |
| Loader.LoadCluster | cluster-storage.js:267-297 | returns a subsequence of the scan holding exactly the stored records of the cluster, filtered by the year and quarter that are given; returns an empty list when a stored record does not parse |
| Loader.SortNewestFirst | cluster-storage.js:343 | the sort by created descending is a permutation whose creation times never increase, and records created at the same time keep their input order (a stable sort) |
| Loader.FromRemote | cluster-storage.js:307-319 | a non-empty remote answer is returned as its stable newest-first sort (a permutation of itself, ties in fetch order), and the hot cache is rebuilt from it |
| Loader.RemoteLoadWarmsStore | cluster-storage.js:228-231 | after a remote load, each fetched record with no later record of the same id reads back by its id |
| Loader.FromLocal | cluster-storage.js:322-346 | a fresh, non-empty hot cache is returned as stored; otherwise the result is the stable newest-first sort of the scan (ties in key order), or an empty list when a stored record does not parse; only the hot cache key can change |
| Loader.LoadAll | cluster-storage.js:302-351 | a non-empty remote answer is used through the remote tier; any other answer (none configured, empty, failed) falls back to the local tiers |
| Loader.LoadAllKeepsOtherKeys | cluster-storage.js:302-351 | whichever tier answers, loading leaves every key that is neither a record key nor `cache_hot` as it was |
| Loader.LocalLoadKeepsRecords | cluster-storage.js:322-346 | without a remote answer, loading everything leaves every record lookup unchanged |
| ClusterIndexing.CountByQuarter | cluster-storage.js:432-439 | a year appears exactly when some record is revealed in it, and each quarter counter is the number of records revealed in that quarter |
| ClusterIndexing.CountByQuarterSum | cluster-storage.js:432-439 | the quarter counters of all years add up to the number of records |
| ClusterIndexing.RecentEntryOf | cluster-storage.js:445-452 | an index line copies id, title, author, created and revealDate, and carries the record's full path; it fails exactly when the path does |
| ClusterIndexing.Newest | cluster-storage.js:442-444 | the newest list has min(10, n) records, drawn from the input without repeats; of each creation time it keeps the records that come first in the input, in input order |
| ClusterIndexing.NewestSpec | cluster-storage.js:442-444 | the newest list is a prefix of the stable newest-first sort: drawn from the records, newest first, and leaving out no record newer than one it keeps |
| ClusterIndexing.RecentListOk | cluster-storage.js:442-452 | building the recent lines fails exactly when one of the ten newest records has no path |
| ClusterIndexing.RecentListEntries | cluster-storage.js:442-452 | the recent lines are the index lines of the newest records, in order, with non-increasing creation times |
| ClusterIndexing.BuildClusterIndex | cluster-storage.js:429-461 | for the records of one cluster, building fails exactly when there are records and the classification is unconfigured; otherwise it carries the language, category, record count and `now` |
| ClusterIndexing.ClusterIndexContents | cluster-storage.js:431-460 | the quarter table of a built index sums to the total, lists exactly the reveal years, and counts each quarter; the recent list is the recent lines |
| ClusterIndexing.StoreClusterIndex | cluster-storage.js:454-469 | a failed build leaves the store as it was; otherwise `index_<lang>_<cat>` holds exactly the index built from the given records at `now`; no other key changes |
| ClusterIndexing.UpdateClusterIndex | cluster-storage.js:427-470 | the cluster's key holds exactly the index built from the cluster's stored records at `now`, or the store is unchanged when the build throws; no other key changes |
| ClusterIndexing.UpdateClusterIndexContents | cluster-storage.js:427-470 | after a refresh, the stored index counts exactly the cluster's stored records, its quarter table counts each quarter and sums to the total, and its recent list holds the index lines of the min(10, n) newest records, newest first |
| ClusterIndexing.ClusterRefreshKeepsRecords | cluster-storage.js:463-464 | refreshing a cluster index leaves every record lookup unchanged |
| GlobalIndexing.TallyBy | cluster-storage.js:490-492 | each seeded key counts the records carrying it; any other non-empty value a record carries appears as NaN; an empty value is skipped |
| GlobalIndexing.TallySum | cluster-storage.js:490-492 | when every record's value is seeded, the counters add up to the number of records |
| GlobalIndexing.YearCounts | cluster-storage.js:494-495 | a year appears exactly when some record is revealed in it, and holds the number of such records |
| GlobalIndexing.YearCountsSum | cluster-storage.js:494-495 | the year counters add up to the number of records |
| GlobalIndexing.UsagePercent | cluster-storage.js:502-503 | the percentage is the nearest integer to 100 times the size over 100 MiB, with halves rounded up |
| GlobalIndexing.UsagePercentExamples | cluster-storage.js:502-503 | 1 MiB is 1 %, half a percent rounds up, and the full budget is 100 % |
| GlobalIndexing.BuildGlobalIndex | cluster-storage.js:477-517 | version "1.0.0", stamped `now`, with the record count, a year table that sums to the count, the summed size and its percentage |
| GlobalIndexing.GlobalIndexTallies | cluster-storage.js:480-492 | the language and category tables count each configured value and show NaN for any other value |
| GlobalIndexing.GlobalIndexTallySums | cluster-storage.js:480-492 | when every record is configured, the language counters and the category counters each add up to the total |
| GlobalIndexing.UpdateGlobalIndex | cluster-storage.js:475-526 | the returned index, also stored under `index_global`, is exactly the index built from what `loadAllPredictions` returns at `now`; beyond the load's own change, only that key changes |
| GlobalIndexing.UpdateGlobalIndexContents | cluster-storage.js:475-526 | after a refresh, the language and category tables count the loaded records per configured value, each year counts its records, the year counts sum to the total, and the size is the loaded records' summed size |
| GlobalIndexing.GlobalRefreshKeepsKey | cluster-storage.js:475-519 | refreshing the global index leaves every key other than record keys, `cache_hot` and `index_global` as it was, whatever the remote answers |
| GlobalIndexing.GlobalRefreshKeepsRecords | cluster-storage.js:477-519 | without a remote answer, refreshing the global index leaves every record lookup unchanged |
| GlobalIndexing.GetGlobalIndex | cluster-storage.js:531-542 | a stored index is returned unchanged; for a blank entry the index built from `loadAllPredictions` at `now` is returned and stored; anything else gives null |
| GlobalIndexing.GetGlobalIndexStable | cluster-storage.js:531-537 | once an index has been produced, asking again returns the same index and leaves the store alone, whatever the time and the remote |
| Query.Source | cluster-storage.js:553-564 | with both language and category given, the search reads the cluster scan (year and quarter passed on) and leaves the store alone; otherwise it loads everything |
| Query.AllStepsMatch | cluster-storage.js:566-583 | the five guarded filters chained accept exactly the records that meet every criterion |
| Query.ApplyFiltersConjunctive | cluster-storage.js:566-583 | applying the filters one after another equals one filter by the conjunction of all criteria |
| Query.Search | cluster-storage.js:549-590 | the result is a subsequence of the source holding exactly its matching records; a cluster search returns only records of that cluster |
| Query.EmptyTagsFindNothing | cluster-storage.js:579-582 | an empty tag list is a given criterion that no record meets, so the search finds nothing |
| Save.SavePrediction | cluster-storage.js:134-165 | fails exactly for an unconfigured classification, with the path error; otherwise returns the record's full path, and `index_global` holds exactly the index built from what `loadAllPredictions` returns after the cluster refresh |
| Save.IndexingKeepsRecord | cluster-storage.js:156-158 | the two index refreshes after a save do not change the saved record's entry when no remote answer overwrites it |
| Save.SaveKeepsClusterIndex | cluster-storage.js:134-160 | after the whole save, the record's cluster key holds exactly the index built from that cluster's stored records as the local save left them |
| Save.SaveThenLoadAfterIndexing | cluster-storage.js:134-160 | after the whole save, the record reads back by its id, equal to the input except for the cluster stamp in its metadata |
| StableSort.SortBy | cluster-storage.js:407 | the sort is a permutation of its input with non-decreasing keys |
| StableSort.SortByStable | cluster-storage.js:407 | elements with equal keys keep their input order |
| StableSort.TopBy | cluster-storage.js:442-444 | sort then slice: min(n, len) elements, a sorted prefix of the stable sort, a sub-multiset of the input, and every copy of an element with a smaller key than a kept one is kept |
| StableSort.TopByStable | cluster-storage.js:442-444 | sort then slice keeps, of each key, the elements that come first in the input, in input order |
| Storage.ScanKeysCounts | cluster-storage.js:333-340 | the scan holds each record as many times as there are record keys holding it |
| GenerateCache.ByViews | scripts/generate-cache.js:39 | the ranking is a permutation of the records with non-increasing view counts |
| GenerateCache.ByViewsStable | scripts/generate-cache.js:39 | records with the same view count keep the order they were read in |
| GenerateCache.HotList | scripts/generate-cache.js:48 | the first min(50, n) ranked records; no record viewed more than a kept one is left out |
| GenerateCache.TrendingList | scripts/generate-cache.js:51-53 | the first min(20, k) of the ranked records created less than a day before `now`, in ranking order, drawn from the ranking |
| GenerateCache.RecentRevealedList | scripts/generate-cache.js:56-59 | the first min(20, k) of the k revealed records stably sorted latest revealed first, so records revealed at the same time keep their ranking order; drawn from the input without repeats, and no revealed record later than a kept one is left out |
| GenerateCache.NearExpiryCandidates | scripts/generate-cache.js:62-65 | the three filters in a row are the one filter by "unrevealed, due within the coming week, not yet due": every such record once per occurrence, in ranking order, and nothing else |
| GenerateCache.NearExpiryList | scripts/generate-cache.js:62-67 | the first min(20, k) of the k qualifying records stably sorted earliest due first, so records due at the same time keep their ranking order; drawn from the input without repeats, and none due earlier than a kept one is left out |
| GenerateCache.NearExpiryComplete | scripts/generate-cache.js:62-67 | a near-expiry list with fewer than 20 entries holds every qualifying record |
| GenerateCache.BuildCacheFile | scripts/generate-cache.js:42-68 | the file records `now`, version "1.0" and the count; hot is the first min(50, n) records by views; trending is the first min(20, k) of those ranked records created within a day; recentRevealed and nearExpiry are the first min(20, k) of their qualifying ranked records, stably re-sorted latest revealed first and earliest due first; each list is drawn from the records without repeats, and none leaves out a qualifying record that ranks ahead of one it keeps |
| GenerateCache.NearExpiryOfHoldsAll | scripts/generate-cache.js:62-67 | a near-expiry list of the cache file shorter than 20 holds every qualifying record read |

## Left out

- The remote repository's HTTP traffic is not modelled (cluster-storage.js:76-129, 170-240): the SHA fetch, the PUT, the tree listing and the per-file fetch. The remote load is an input; only its listing filter is modelled.
- The parallel fetch with `Promise.all` is not modelled: nothing depends on its interleaving.
- Not modelled as text: base64 and UTF-8 transcoding, and JSON serialization. Records are a datatype, and the serialized length is the `size` parameter.
- Console logging, the `window.ClusterStorage` export and the `toFixed(2)` kilobyte string are left out. The global index keeps the total size as a number, in units of `size`.
- The offline script's directory walk and its file write are left out (scripts/generate-cache.js:1-37, 69-79).
- `Date.now()` is read more than once inside one operation in the source (cluster-storage.js:404, 410; scripts/generate-cache.js:43, 52, 64-65). The model uses one `now` per operation.
- Calendar.CivilOf: it uses UTC, not the host's local time zone, so a reveal date near a month boundary may fall in a different quarter on a host with a different offset.
- GlobalIndexing.UsagePercent: computed in exact arithmetic, not IEEE doubles. A size within a rounding error of a half percent could round differently.
- Mutation of the caller's object is not modelled. `savePredictionToCluster` also stamps `metadata` on the caller's object; the model returns the stamped record in the store only.
- A store value that is valid JSON of the wrong shape behaves differently in the model:
  - `loadPredictionFromCluster` returns such a value under `prediction_<id>` as it is; the model treats it as no record.
  - `loadPredictionsFromCluster` skips such a value unless its `language` and `category` equal the requested ones, in which case it is pushed (cluster-storage.js:280-287). A JSON `null` makes that test throw, and the catch returns an empty list. The model treats every such value as a parse failure, so the scan gives an empty list.
  - `loadAllPredictions` pushes such a value into its result (cluster-storage.js:338). The model treats it as a parse failure, so the scan gives an empty list.
  - `loadFromCache` returns a foreign document under a cache key; the model returns null.
  - `getGlobalIndex` returns a foreign document under `index_global`; the model returns null.
- Enumeration order: Web Storage leaves the order of `key(i)` to the host. The model enumerates keys in first-insertion order.
- Local storage quota errors are not modelled.
- `revealed: null` and an absent `revealed` are not modelled: both become `false`, so a search for `revealed: false` includes such a record while the source's `===` test excludes it (cluster-storage.js:577).
- The `arguments[1]` scope of the scoped cache kinds is an explicit parameter, and no writer fills those kinds.
- Numbers are integers only. Timestamps and counters are integers, and integers are rendered in plain decimal. JavaScript's exponent form for magnitudes of 1e21 and above, NaN dates and fractional values are not modelled.
- Unused constants: `maxFileSize` and `maxPredictionsPerQuarter` (cluster-storage.js:13-14) are never read by the code.
- ClusterIndexing.BuildClusterIndex: the quarter table and recent list are stated by ClusterIndexContents, RecentListOk and RecentListEntries rather than on the function itself.
- Save.SavePrediction: its own contract states the stored global index but not the cluster index. The cluster index after the whole save is SaveKeepsClusterIndex, and the saved record's entry is SaveThenLoadAfterIndexing.
