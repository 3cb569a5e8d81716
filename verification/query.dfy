/**
 * `searchPredictions`: a source list (one cluster's records when both a
 * language and a category are asked for, every record otherwise) narrowed
 * by the remaining criteria one after another.
 */
module Query {
  import opened Optional
  import opened Seqs
  import opened Records
  import opened Storage
  import opened Loader

  /** Search criteria; an absent field is not constrained. */
  datatype Criteria = Criteria(
    language: Option<string>,
    category: Option<string>,
    year: Option<int>,
    quarter: Option<string>,
    author: Option<string>,
    revealed: Option<bool>,
    tags: Option<seq<string>>)

  /** A string criterion as a JavaScript condition: absent and "" are false. */
  predicate Given(o: Option<string>) {
    o.Some? && o.value != ""
  }

  /** The two lists share a tag (`wanted.some(tag => have.includes(tag))`). */
  predicate SharesTag(wanted: seq<string>, have: seq<string>) {
    exists t :: t in wanted && t in have
  }

  /**
   * Record `p` meets every criterion the filters check: language alone,
   * category alone, author, revealed state, and at least one shared tag
   * (which a record without tags never has).
   */
  predicate Matches(p: Record, c: Criteria) {
    && (Given(c.language) && !Given(c.category) ==> p.language == c.language.value)
    && (Given(c.category) && !Given(c.language) ==> p.category == c.category.value)
    && (Given(c.author) ==> p.author == c.author.value)
    && (c.revealed.Some? ==> p.revealed == c.revealed.value)
    && (c.tags.Some? ==> p.tags.Some? && SharesTag(c.tags.value, p.tags.value))
  }

  function MatchFilter(c: Criteria): Record -> bool {
    (p: Record) => Matches(p, c)
  }

  /** Both cluster criteria are given, so the search reads one cluster. */
  predicate ClusterSearch(c: Criteria) {
    Given(c.language) && Given(c.category)
  }

  /**
   * The list the filters start from: the cluster scan (with the year and
   * quarter criteria) when both language and category are given, which
   * leaves the store alone; otherwise `loadAllPredictions`.
   */
  function Source(s: Store, c: Criteria, now: int, remote: Option<seq<Record>>): (r: (Store, seq<Record>))
    ensures ClusterSearch(c) ==> r == (s, LoadCluster(s, c.language.value, c.category.value, c.year, c.quarter))
    ensures !ClusterSearch(c) ==> r == LoadAll(s, now, remote)
  {
    if ClusterSearch(c) then (s, LoadCluster(s, c.language.value, c.category.value, c.year, c.quarter))
    else LoadAll(s, now, remote)
  }

  function LanguageIs(l: string): Record -> bool {
    (p: Record) => p.language == l
  }

  function CategoryIs(k: string): Record -> bool {
    (p: Record) => p.category == k
  }

  function AuthorIs(a: string): Record -> bool {
    (p: Record) => p.author == a
  }

  function RevealedIs(b: bool): Record -> bool {
    (p: Record) => p.revealed == b
  }

  function TaggedWithAny(wanted: seq<string>): Record -> bool {
    (p: Record) => p.tags.Some? && SharesTag(wanted, p.tags.value)
  }

  /** `if (cond) ps = ps.filter(f)` */
  function FilterIf(ps: seq<Record>, cond: bool, f: Record -> bool): seq<Record> {
    if cond then Filter(ps, f) else ps
  }

  /** The five filters in the order the search applies them, each only when its criterion is given. */
  function ApplyFilters(ps: seq<Record>, c: Criteria): seq<Record> {
    var ps1 := FilterIf(ps, Given(c.language) && !Given(c.category), LanguageIs(c.language.GetOr("")));
    var ps2 := FilterIf(ps1, Given(c.category) && !Given(c.language), CategoryIs(c.category.GetOr("")));
    var ps3 := FilterIf(ps2, Given(c.author), AuthorIs(c.author.GetOr("")));
    var ps4 := FilterIf(ps3, c.revealed.Some?, RevealedIs(c.revealed.GetOr(false)));
    FilterIf(ps4, c.tags.Some?, TaggedWithAny(c.tags.GetOr([])))
  }

  // Each criterion as a filter that passes everything when the criterion is not given.

  function LanguageStep(c: Criteria): Record -> bool {
    (p: Record) => Given(c.language) && !Given(c.category) ==> p.language == c.language.value
  }

  function CategoryStep(c: Criteria): Record -> bool {
    (p: Record) => Given(c.category) && !Given(c.language) ==> p.category == c.category.value
  }

  function AuthorStep(c: Criteria): Record -> bool {
    (p: Record) => Given(c.author) ==> p.author == c.author.value
  }

  function RevealedStep(c: Criteria): Record -> bool {
    (p: Record) => c.revealed.Some? ==> p.revealed == c.revealed.value
  }

  function TagStep(c: Criteria): Record -> bool {
    (p: Record) => c.tags.Some? ==> p.tags.Some? && SharesTag(c.tags.value, p.tags.value)
  }

  /** The five step filters chained in search order. */
  function AllSteps(c: Criteria): Record -> bool {
    And(And(And(And(LanguageStep(c), CategoryStep(c)), AuthorStep(c)), RevealedStep(c)), TagStep(c))
  }

  /** The chained step filters accept exactly the matching records. */
  lemma AllStepsMatch(c: Criteria, p: Record)
    ensures AllSteps(c)(p) == Matches(p, c)
  {
    var a12 := And(LanguageStep(c), CategoryStep(c));
    var a123 := And(a12, AuthorStep(c));
    var a1234 := And(a123, RevealedStep(c));
    assert a12(p) == (LanguageStep(c)(p) && CategoryStep(c)(p));
    assert a123(p) == (a12(p) && AuthorStep(c)(p));
    assert a1234(p) == (a123(p) && RevealedStep(c)(p));
    assert AllSteps(c)(p) == (a1234(p) && TagStep(c)(p));
  }

  /** A filter applied only under `cond` is the step filter that passes everything otherwise. */
  lemma Conditional(ps: seq<Record>, cond: bool, f: Record -> bool, step: Record -> bool)
    requires forall p :: step(p) == (cond ==> f(p))
    ensures FilterIf(ps, cond, f) == Filter(ps, step)
  {
    if cond {
      FilterCongruent(ps, f, step);
    } else {
      FilterAll(ps, step);
    }
  }

  /**
   * Applying the filters one after another keeps exactly the records that
   * meet every criterion, in their order: the sequential search is the one
   * conjunctive filter.
   */
  lemma ApplyFiltersConjunctive(ps: seq<Record>, c: Criteria)
    ensures ApplyFilters(ps, c) == Filter(ps, MatchFilter(c))
  {
    SequentialIsNested(ps, c);
    NestedIsChained(ps, c);
    ChainedIsConjunctive(ps, c);
  }

  /** Each conditional filter of the search is its step filter. */
  lemma SequentialIsNested(ps: seq<Record>, c: Criteria)
    ensures ApplyFilters(ps, c) ==
      Filter(Filter(Filter(Filter(Filter(ps, LanguageStep(c)), CategoryStep(c)), AuthorStep(c)), RevealedStep(c)), TagStep(c))
  {
    var ps1 := FilterIf(ps, Given(c.language) && !Given(c.category), LanguageIs(c.language.GetOr("")));
    Conditional(ps, Given(c.language) && !Given(c.category), LanguageIs(c.language.GetOr("")), LanguageStep(c));
    var ps2 := FilterIf(ps1, Given(c.category) && !Given(c.language), CategoryIs(c.category.GetOr("")));
    Conditional(ps1, Given(c.category) && !Given(c.language), CategoryIs(c.category.GetOr("")), CategoryStep(c));
    var ps3 := FilterIf(ps2, Given(c.author), AuthorIs(c.author.GetOr("")));
    Conditional(ps2, Given(c.author), AuthorIs(c.author.GetOr("")), AuthorStep(c));
    var ps4 := FilterIf(ps3, c.revealed.Some?, RevealedIs(c.revealed.GetOr(false)));
    Conditional(ps3, c.revealed.Some?, RevealedIs(c.revealed.GetOr(false)), RevealedStep(c));
    Conditional(ps4, c.tags.Some?, TaggedWithAny(c.tags.GetOr([])), TagStep(c));
  }

  /** Five filters in a row are the filter by their conjunction. */
  lemma NestedIsChained(ps: seq<Record>, c: Criteria)
    ensures Filter(Filter(Filter(Filter(Filter(ps, LanguageStep(c)), CategoryStep(c)), AuthorStep(c)), RevealedStep(c)), TagStep(c))
            == Filter(ps, AllSteps(c))
  {
    var a12 := And(LanguageStep(c), CategoryStep(c));
    var a123 := And(a12, AuthorStep(c));
    var a1234 := And(a123, RevealedStep(c));
    FilterFilter(ps, LanguageStep(c), CategoryStep(c));
    FilterFilter(ps, a12, AuthorStep(c));
    FilterFilter(ps, a123, RevealedStep(c));
    FilterFilter(ps, a1234, TagStep(c));
  }

  lemma ChainedIsConjunctive(ps: seq<Record>, c: Criteria)
    ensures Filter(ps, AllSteps(c)) == Filter(ps, MatchFilter(c))
  {
    forall i | 0 <= i < |ps|
      ensures AllSteps(c)(ps[i]) == MatchFilter(c)(ps[i])
    {
      AllStepsMatch(c, ps[i]);
    }
    FilterCongruent(ps, AllSteps(c), MatchFilter(c));
  }

  /**
   * `searchPredictions`: the source list narrowed to the records meeting
   * every criterion, in source order; only a search over all records can
   * change the store (through `loadAllPredictions`).
   */
  function Search(s: Store, c: Criteria, now: int, remote: Option<seq<Record>>): (r: (Store, seq<Record>))
    ensures r.0 == Source(s, c, now, remote).0
    ensures Subsequence(r.1, Source(s, c, now, remote).1)
    ensures |r.1| == Count(Source(s, c, now, remote).1, MatchFilter(c))
    ensures forall x :: x in r.1 <==> x in Source(s, c, now, remote).1 && Matches(x, c)
    ensures ClusterSearch(c) ==> forall x :: x in r.1 ==> InCluster(x, c.language.value, c.category.value, c.year, c.quarter)
  {
    var (s1, ps) := Source(s, c, now, remote);
    FilterIsSubsequence(ps, MatchFilter(c));
    FilterLength(ps, MatchFilter(c));
    ApplyFiltersConjunctive(ps, c);
    (s1, ApplyFilters(ps, c))
  }

  /** Asking for an empty tag list finds nothing: no record shares a tag with it. */
  lemma EmptyTagsFindNothing(s: Store, c: Criteria, now: int, remote: Option<seq<Record>>)
    requires c.tags == Some([])
    ensures Search(s, c, now, remote).1 == []
  {
    var ps := Source(s, c, now, remote).1;
    assert forall i :: 0 <= i < |ps| ==> !MatchFilter(c)(ps[i]);
    CountNone(ps, MatchFilter(c));
  }
}
