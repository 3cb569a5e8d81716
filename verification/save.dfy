/**
 * `savePredictionToCluster`: the local save followed by the refresh of the
 * record's cluster index and of the global index.
 */
module Save {
  import opened Optional
  import opened Records
  import opened Paths
  import opened Storage
  import opened HotCache
  import opened Loader
  import opened ClusterIndexing
  import opened GlobalIndexing

  /**
   * Saves the record (stamped with its cluster directory) under its key,
   * rebuilds its cluster index and the global index, and returns the
   * record's full path; an unconfigured language or category throws before
   * anything is written.
   */
  function SavePrediction(s: Store, p: Record, now: int, remote: Option<seq<Record>>, size: Record -> nat): (r: Result<(Store, string), PathError>)
    ensures r.Ok? <==> ValidClassification(p.language, p.category)
    ensures r.Err? ==> r.error == ClusterPath(p).error
    ensures r.Ok? ==> r.value.1 == PredictionPath(p).value
    ensures r.Ok? ==> GlobalIndexKey in r.value.0.values && r.value.0.values[GlobalIndexKey].GlobalIndexValue?
    ensures r.Ok? ==>
      var indexed := UpdateClusterIndex(SaveLocal(s, p).value.0, p.language, p.category, now);
      r.value.0.values[GlobalIndexKey] == GlobalIndexValue(BuildGlobalIndex(LoadAll(indexed, now, remote).1, now, size))
  {
    match SaveLocal(s, p)
    case Err(e) => Err(e)
    case Ok((s1, path)) =>
      var s2 := UpdateClusterIndex(s1, p.language, p.category, now);
      var (s3, _) := UpdateGlobalIndex(s2, now, remote, size);
      Ok((s3, path))
  }

  /** The index refreshes after a local save leave the saved record's entry as the save wrote it. */
  lemma IndexingKeepsRecord(s1: Store, p: Record, now: int, remote: Option<seq<Record>>, size: Record -> nat)
    requires !RemoteAnswered(remote)
    ensures var s3 := UpdateGlobalIndex(UpdateClusterIndex(s1, p.language, p.category, now), now, remote, size).0;
      LoadPrediction(s3, p.id) == LoadPrediction(s1, p.id)
  {
    ClusterRefreshKeepsRecords(s1, p.language, p.category, now);
    GlobalRefreshKeepsRecords(UpdateClusterIndex(s1, p.language, p.category, now), now, remote, size);
  }

  /**
   * Without a remote answer to overwrite it, a saved record reads back by
   * its id after the index refreshes: every field as given, and the
   * metadata stamped with the record's cluster directory.
   */
  lemma SaveThenLoadAfterIndexing(s: Store, p: Record, now: int, remote: Option<seq<Record>>, size: Record -> nat)
    requires ValidClassification(p.language, p.category)
    requires !RemoteAnswered(remote)
    ensures var r := SavePrediction(s, p, now, remote, size);
      && r.Ok?
      && LoadPrediction(r.value.0, p.id).Some?
      && Unstamped(LoadPrediction(r.value.0, p.id).value) == Unstamped(p)
      && LoadPrediction(r.value.0, p.id).value.metadata.Some?
      && LoadPrediction(r.value.0, p.id).value.metadata.value.clusterPath == Some(ClusterPath(p).value)
  {
    SaveThenLoad(s, p);
    var s1 := SaveLocal(s, p).value.0;
    IndexingKeepsRecord(s1, p, now, remote, size);
  }

  /**
   * After the whole save the record's cluster key holds exactly the index
   * built from the cluster as the local save left it: the global refresh
   * that follows does not touch that key.
   */
  lemma SaveKeepsClusterIndex(s: Store, p: Record, now: int, remote: Option<seq<Record>>, size: Record -> nat)
    requires ValidClassification(p.language, p.category)
    ensures var s1 := SaveLocal(s, p).value.0;
      var preds := LoadCluster(s1, p.language, p.category, None, None);
      var r := SavePrediction(s, p, now, remote, size);
      && r.Ok?
      && BuildClusterIndex(p.language, p.category, preds, now).Ok?
      && HoldsClusterIndex(r.value.0, ClusterIndexKey(p.language, p.category), BuildClusterIndex(p.language, p.category, preds, now).value)
  {
    var s1 := SaveLocal(s, p).value.0;
    var s2 := UpdateClusterIndex(s1, p.language, p.category, now);
    var key := ClusterIndexKey(p.language, p.category);
    assert key[0] != PredictionPrefix[0] && key[0] != HotCacheKey[0];
    ClusterKeyIsNotGlobalKey(p.language, p.category);
    GlobalRefreshKeepsKey(s2, now, remote, size, key);
    assert SavePrediction(s, p, now, remote, size).value.0 == UpdateGlobalIndex(s2, now, remote, size).0;
  }
}
