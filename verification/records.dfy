/**
 * The data model of the prediction store: the prediction record, the
 * configured languages and categories, and the derived cache and index
 * documents kept beside the records in the local store.
 */
module Records {
  import opened Optional

  /** The nine configured languages. */
  const Languages: seq<string> := ["it", "en", "es", "fr", "de", "pt", "zh", "ja", "ko"]

  /** The ten configured categories. */
  const Categories: seq<string> := ["crypto", "ai", "politics", "tech", "sports", "economy", "science", "health", "climate", "space"]

  /** Root of every record file path. */
  const BasePath: string := "data/predictions/"

  /** The per-record counters and the cluster stamp written at save time. */
  datatype Metadata = Metadata(views: Option<int>, upvotes: Option<int>, clusterPath: Option<string>)

  const EmptyMetadata: Metadata := Metadata(None, None, None)

  /**
   * A prediction. Timestamps are integer milliseconds. `views` is the
   * top-level counter the offline cache script ranks by (the application
   * keeps its counters in `metadata`); `score` is present on the copies the
   * hot cache stores.
   */
  datatype Record = Record(
    id: string,
    created: int,
    author: string,
    title: string,
    language: string,
    category: string,
    revealDate: int,
    revealed: bool,
    revealedAt: Option<int>,
    tags: Option<seq<string>>,
    views: Option<int>,
    score: Option<int>,
    metadata: Option<Metadata>)

  /** `p.metadata?.views || 0` */
  function MetaViews(p: Record): int {
    match p.metadata
    case None => 0
    case Some(m) => m.views.GetOr(0)
  }

  /** `p.metadata?.upvotes || 0` */
  function MetaUpvotes(p: Record): int {
    match p.metadata
    case None => 0
    case Some(m) => m.upvotes.GetOr(0)
  }

  /** Both classification fields belong to the configured lists. */
  predicate ValidClassification(language: string, category: string) {
    language in Languages && category in Categories
  }

  /** The hot cache document: generation time, time-to-live in seconds, ranked records. */
  datatype CacheEntry = CacheEntry(lastUpdated: int, ttl: int, predictions: seq<Record>)

  /** Record counts of one year, by quarter. */
  datatype QuarterCounts = QuarterCounts(q1: nat, q2: nat, q3: nat, q4: nat)

  /** One line of a cluster index's recent list. */
  datatype RecentEntry = RecentEntry(id: string, title: string, author: string, created: int, revealDate: int, path: string)

  /** The index of one (language, category) cluster. */
  datatype ClusterIndex = ClusterIndex(
    language: string,
    category: string,
    totalPredictions: nat,
    lastUpdated: int,
    byYear: map<int, QuarterCounts>,
    recentPredictions: seq<RecentEntry>)

  /**
   * A counter in the global index: a number, or NaN, which is what
   * incrementing a key that was never seeded produces.
   */
  datatype Tally = Number(n: nat) | NotANumber

  /** The global index; the total size is a number in units of `size` rather than formatted text. */
  datatype GlobalIndex = GlobalIndex(
    version: string,
    lastUpdated: int,
    totalPredictions: nat,
    byLanguage: map<string, Tally>,
    byCategory: map<string, Tally>,
    byYear: map<int, nat>,
    totalSize: nat,
    maxSize: string,
    usagePercent: nat)
}
