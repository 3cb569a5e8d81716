/**
 * The local store: an ordered string-keyed store holding records under
 * `prediction_<id>`, the hot cache under `cache_hot`, the indices under
 * `index_…`, and whatever else the host keeps there. Enumeration follows
 * the key order: a new key is appended, rewriting a key keeps its place,
 * removing a key closes the gap.
 */
module Storage {
  import opened Optional
  import opened Seqs
  import opened Strings
  import opened Records
  import opened Paths

  /** A stored value, already parsed; `Text` is anything that is not a document of this layer. */
  datatype Value =
    | PredictionValue(record: Record)
    | HotCacheValue(entry: CacheEntry)
    | ClusterIndexValue(index: ClusterIndex)
    | GlobalIndexValue(global: GlobalIndex)
    | Text(raw: string)

  /** No key is listed twice. */
  ghost predicate Distinct(keys: seq<string>) {
    forall i, j :: 0 <= i < j < |keys| ==> keys[i] != keys[j]
  }

  datatype Storage = Storage(keys: seq<string>, values: map<string, Value>) {
    /** Keys are enumerated once each, and exactly the stored keys are enumerated. */
    ghost predicate Valid() {
      && Distinct(keys)
      && (forall k :: k in keys <==> k in values)
    }
  }

  type Store = s: Storage | s.Valid() witness Storage([], map[])

  /** Two maps that agree away from `x` agree at every other key. */
  lemma KeptOutside<K, V>(a: map<K, V>, b: map<K, V>, x: K, k: K)
    requires a - {x} == b - {x}
    requires k != x && k in b
    ensures k in a && a[k] == b[k]
  {
    assert k in b - {x};
  }

  /** `setItem` */
  function Put(s: Store, k: string, v: Value): (r: Store)
    ensures r.values == s.values[k := v]
    ensures r.values - {k} == s.values - {k}
    ensures k in s.values ==> r.keys == s.keys
    ensures k !in s.values ==> r.keys == s.keys + [k]
  {
    if k in s.values then Storage(s.keys, s.values[k := v])
    else Storage(s.keys + [k], s.values[k := v])
  }

  /** `keys` without `k`, order kept. */
  function Without(keys: seq<string>, k: string): (r: seq<string>)
    requires Distinct(keys)
    ensures forall x :: x in r <==> x in keys && x != k
    ensures Distinct(r)
  {
    if |keys| == 0 then []
    else if keys[0] == k then Without(keys[1..], k)
    else
      var rest := Without(keys[1..], k);
      assert keys[0] !in keys[1..];
      [keys[0]] + rest
  }

  /** `removeItem` */
  function Remove(s: Store, k: string): (r: Store)
    ensures r.values == s.values - {k}
  {
    Storage(Without(s.keys, k), s.values - {k})
  }

  const PredictionPrefix: string := "prediction_"

  /** `prediction_<id>` */
  function PredictionKey(id: string): string {
    PredictionPrefix + id
  }

  predicate IsPredictionKey(k: string) {
    StartsWith(k, PredictionPrefix)
  }

  /** Distinct ids have distinct keys, and every such key has the record-key shape. */
  lemma PredictionKeyInjective(a: string, b: string)
    ensures PredictionKey(a) == PredictionKey(b) ==> a == b
    ensures IsPredictionKey(PredictionKey(a))
  {
    assert PredictionKey(a)[..|PredictionPrefix|] == PredictionPrefix;
    if PredictionKey(a) == PredictionKey(b) {
      assert a == PredictionKey(a)[|PredictionPrefix|..];
      assert b == PredictionKey(b)[|PredictionPrefix|..];
    }
  }

  /** Key `k` is a record key holding record `x`. */
  ghost predicate StoresRecord(s: Store, k: string, x: Record) {
    k in s.values && IsPredictionKey(k) && s.values[k] == PredictionValue(x)
  }

  /** Some record key holds something that does not parse as a record. */
  ghost predicate HasMalformedRecord(s: Store) {
    exists k :: k in s.values && IsPredictionKey(k) && !s.values[k].PredictionValue?
  }

  /** `loadPredictionFromCluster`: a lookup of `prediction_<id>`, null on a miss or a malformed value. */
  function LoadPrediction(s: Store, id: string): (r: Option<Record>)
    ensures r.Some? <==> PredictionKey(id) in s.values && s.values[PredictionKey(id)].PredictionValue?
    ensures r.Some? ==> s.values[PredictionKey(id)] == PredictionValue(r.value)
  {
    var key := PredictionKey(id);
    if key in s.values && s.values[key].PredictionValue? then Some(s.values[key].record) else None
  }

  /** The metadata stamp of a save: `metadata || {}`, then `clusterPath` set. */
  function Stamp(p: Record, dir: string): Record {
    p.(metadata := Some(p.metadata.GetOr(EmptyMetadata).(clusterPath := Some(dir))))
  }

  /** What a save leaves unchanged: the record with its cluster stamp cleared. */
  function Unstamped(p: Record): Record {
    p.(metadata := Some(p.metadata.GetOr(EmptyMetadata).(clusterPath := None)))
  }

  /**
   * The local part of `savePredictionToCluster`: derive the cluster path
   * (throwing for an unconfigured language or category), stamp it into the
   * metadata, store the record under its key, and report the full path.
   */
  function SaveLocal(s: Store, p: Record): (r: Result<(Store, string), PathError>)
    ensures r.Ok? <==> ValidClassification(p.language, p.category)
    ensures r.Err? ==> r.error == ClusterPath(p).error
    ensures r.Ok? ==> r.value.1 == PredictionPath(p).value
    ensures r.Ok? ==> forall k :: k in s.values && k != PredictionKey(p.id) ==>
              k in r.value.0.values && r.value.0.values[k] == s.values[k]
    ensures r.Ok? ==> r.value.0.values.Keys == s.values.Keys + {PredictionKey(p.id)}
  {
    match ClusterPath(p)
    case Err(e) => Err(e)
    case Ok(dir) =>
      var stamped := Stamp(p, dir);
      Ok((Put(s, PredictionKey(p.id), PredictionValue(stamped)), PredictionPath(stamped).value))
  }

  /**
   * A save followed by a lookup of the same id returns the record, equal to
   * the input in every field but the cluster stamp, which holds the
   * record's cluster directory.
   */
  lemma SaveThenLoad(s: Store, p: Record)
    requires SaveLocal(s, p).Ok?
    ensures LoadPrediction(SaveLocal(s, p).value.0, p.id).Some?
    ensures Unstamped(LoadPrediction(SaveLocal(s, p).value.0, p.id).value) == Unstamped(p)
    ensures LoadPrediction(SaveLocal(s, p).value.0, p.id).value.metadata.value.clusterPath == Some(ClusterPath(p).value)
  {
  }

  /** Writing a key that is not a record key leaves every record lookup as it was. */
  lemma PutKeepsRecords(s: Store, k: string, v: Value)
    requires !IsPredictionKey(k)
    ensures forall id :: LoadPrediction(Put(s, k, v), id) == LoadPrediction(s, id)
  {
    forall id
      ensures LoadPrediction(Put(s, k, v), id) == LoadPrediction(s, id)
    {
      PredictionKeyInjective(id, id);
    }
  }

  /** A step that changes at most key `k`, which is not a record key, leaves every record lookup as it was. */
  lemma FrameKeepsRecords(a: Store, b: Store, k: string)
    requires a.values - {k} == b.values - {k}
    requires !IsPredictionKey(k)
    ensures forall id :: LoadPrediction(b, id) == LoadPrediction(a, id)
  {
    forall id
      ensures LoadPrediction(b, id) == LoadPrediction(a, id)
    {
      PredictionKeyInjective(id, id);
      assert PredictionKey(id) != k;
      assert PredictionKey(id) in a.values <==> PredictionKey(id) in a.values - {k};
      assert PredictionKey(id) in b.values <==> PredictionKey(id) in b.values - {k};
    }
  }

  /** Records stored under `keys`, in key order; None when one of them does not parse. */
  function ScanKeys(keys: seq<string>, values: map<string, Value>): (r: Option<seq<Record>>)
    requires forall k :: k in keys ==> k in values
    ensures r.None? <==> exists i :: 0 <= i < |keys| && IsPredictionKey(keys[i]) && !values[keys[i]].PredictionValue?
    ensures r.Some? ==> |r.value| == Count(keys, IsPredictionKey)
    ensures r.Some? ==> forall x :: x in r.value <==>
              exists k :: k in keys && IsPredictionKey(k) && values[k] == PredictionValue(x)
  {
    if |keys| == 0 then Some([])
    else
      var rest := ScanKeys(keys[1..], values);
      assert forall i :: 1 <= i < |keys| ==> keys[i] == keys[1..][i - 1];
      if !IsPredictionKey(keys[0]) then rest
      else if !values[keys[0]].PredictionValue? then None
      else if rest.None? then None
      else Some([values[keys[0]].record] + rest.value)
  }

  /** Key `k` is a record key holding `x`. */
  function HoldsRecord(values: map<string, Value>, x: Record): string -> bool {
    (k: string) => IsPredictionKey(k) && k in values && values[k] == PredictionValue(x)
  }

  /** The scan holds each record as many times as there are record keys holding it. */
  lemma {:induction false} ScanKeysCounts(keys: seq<string>, values: map<string, Value>, x: Record)
    requires forall k :: k in keys ==> k in values
    requires ScanKeys(keys, values).Some?
    ensures multiset(ScanKeys(keys, values).value)[x] == Count(keys, HoldsRecord(values, x))
  {
    if |keys| > 0 {
      var rest := ScanKeys(keys[1..], values);
      assert forall i :: 1 <= i < |keys| ==> keys[i] == keys[1..][i - 1];
      assert rest.Some?;
      ScanKeysCounts(keys[1..], values, x);
      if IsPredictionKey(keys[0]) {
        assert ScanKeys(keys, values).value == [values[keys[0]].record] + rest.value;
      }
    }
  }

  /**
   * The scan of the store for `prediction_*` keys: the records in
   * enumeration order, or None when one of them does not parse (the scan's
   * caller then catches and returns an empty list).
   */
  function ScanPredictions(s: Store): (r: Option<seq<Record>>)
    ensures r.None? <==> HasMalformedRecord(s)
    ensures r.Some? ==> |r.value| == Count(s.keys, IsPredictionKey)
    ensures r.Some? ==> forall x :: x in r.value <==> exists k :: StoresRecord(s, k, x)
    ensures r.Some? ==> forall x :: multiset(r.value)[x] == Count(s.keys, HoldsRecord(s.values, x))
  {
    var r := ScanKeys(s.keys, s.values);
    if r.None? then
      var i :| 0 <= i < |s.keys| && IsPredictionKey(s.keys[i]) && !s.values[s.keys[i]].PredictionValue?;
      assert s.keys[i] in s.values;
      r
    else
      forall x
        ensures multiset(r.value)[x] == Count(s.keys, HoldsRecord(s.values, x))
      {
        ScanKeysCounts(s.keys, s.values, x);
      }
      forall x
        ensures x in r.value <==> exists k :: StoresRecord(s, k, x)
      {
        if x in r.value {
          var k :| k in s.keys && IsPredictionKey(k) && s.values[k] == PredictionValue(x);
          assert StoresRecord(s, k, x);
        }
        if exists k :: StoresRecord(s, k, x) {
          var k :| StoresRecord(s, k, x);
          assert k in s.keys;
        }
      }
      r
  }

  /** Dropping a key that is not a record key leaves the scan of the rest unchanged. */
  lemma {:induction false} ScanWithout(keys: seq<string>, values: map<string, Value>, k: string)
    requires Distinct(keys)
    requires forall x :: x in keys ==> x in values
    requires !IsPredictionKey(k)
    ensures forall x :: x in Without(keys, k) ==> x in values - {k}
    ensures ScanKeys(Without(keys, k), values - {k}) == ScanKeys(keys, values)
  {
    if |keys| > 0 {
      assert Distinct(keys[1..]) by {
        assert forall i :: 0 <= i < |keys| - 1 ==> keys[1..][i] == keys[i + 1];
      }
      ScanWithout(keys[1..], values, k);
      if keys[0] != k {
        assert Without(keys, k)[1..] == Without(keys[1..], k);
      }
    }
  }

  /** Removing a key that is not a record key (evicting a cache entry) does not change the record scan. */
  lemma RemoveKeepsScan(s: Store, k: string)
    requires !IsPredictionKey(k)
    ensures ScanPredictions(Remove(s, k)) == ScanPredictions(s)
  {
    ScanWithout(s.keys, s.values, k);
  }

  /** No record at or after position `i` shares the id of `recs[i]`. */
  ghost predicate LastWithId(recs: seq<Record>, i: int)
    requires 0 <= i < |recs|
  {
    forall j :: i < j < |recs| ==> recs[j].id != recs[i].id
  }

  /**
   * The warm-up after a remote load: every fetched record written under
   * its key, in order. Keys of ids that were not fetched keep their values.
   */
  function Mirror(s: Store, recs: seq<Record>): (r: Store)
    ensures s.values.Keys <= r.values.Keys
    ensures forall k :: k in s.values && (forall x :: x in recs ==> k != PredictionKey(x.id)) ==>
              r.values[k] == s.values[k]
    decreases |recs|
  {
    if |recs| == 0 then s
    else
      var s1 := Put(s, PredictionKey(recs[0].id), PredictionValue(recs[0]));
      assert forall x :: x in recs[1..] ==> x in recs;
      Mirror(s1, recs[1..])
  }

  /** After the warm-up the last fetched record with a given id is the one stored: the last write wins. */
  lemma {:induction false} MirrorLastWins(s: Store, recs: seq<Record>)
    ensures forall i :: 0 <= i < |recs| && LastWithId(recs, i) ==>
              LoadPrediction(Mirror(s, recs), recs[i].id) == Some(recs[i])
    decreases |recs|
  {
    if |recs| > 0 {
      var s1 := Put(s, PredictionKey(recs[0].id), PredictionValue(recs[0]));
      var r := Mirror(s1, recs[1..]);
      assert r == Mirror(s, recs);
      MirrorLastWins(s1, recs[1..]);
      LastWriteWins(recs, s1, r);
    }
  }

  /**
   * The step of `MirrorLastWins`: after the first record is written and
   * the rest mirrored, each record with no later namesake reads back.
   */
  lemma LastWriteWins(recs: seq<Record>, s1: Store, r: Store)
    requires |recs| > 0
    requires LoadPrediction(s1, recs[0].id) == Some(recs[0])
    requires s1.values.Keys <= r.values.Keys
    requires forall k :: k in s1.values && (forall x :: x in recs[1..] ==> k != PredictionKey(x.id)) ==>
               r.values[k] == s1.values[k]
    requires forall i :: 0 <= i < |recs[1..]| && LastWithId(recs[1..], i) ==>
               LoadPrediction(r, recs[1..][i].id) == Some(recs[1..][i])
    ensures forall i :: 0 <= i < |recs| && LastWithId(recs, i) ==> LoadPrediction(r, recs[i].id) == Some(recs[i])
  {
    forall i | 0 <= i < |recs| && LastWithId(recs, i)
      ensures LoadPrediction(r, recs[i].id) == Some(recs[i])
    {
      if i == 0 {
        forall x | x in recs[1..]
          ensures PredictionKey(recs[0].id) != PredictionKey(x.id)
        {
          PredictionKeyInjective(recs[0].id, x.id);
        }
      } else {
        assert recs[1..][i - 1] == recs[i];
        assert LastWithId(recs[1..], i - 1);
      }
    }
  }
}
