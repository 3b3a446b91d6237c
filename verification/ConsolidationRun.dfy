/** The consolidation of a store: finding the clusters, then the loop that merges them. */
module ConsolidationRun {
  import opened Wrappers
  import opened MemoryStore
  import opened Consolidation
  import opened MemoryClusters
  import Clusters

  /** Forgets a cluster; counts the rows it found. */
  method ForgetCluster(db: MemoryDb, cluster: Cluster, successor: Id) returns (count: nat)
    requires forall id :: id in cluster ==> id in db.memories
    modifies db
    ensures db.Contents() == ForgetAll(old(db.Contents()), cluster, successor)
    ensures count == |cluster|
  {
    count := 0;
    for k := 0 to |cluster|
      invariant db.Contents() == ForgetAll(old(db.Contents()), cluster[..k], successor)
      invariant db.memories.Keys == old(db.memories.Keys) && count == k
    {
      assert cluster[..k + 1][..k] == cluster[..k] && cluster[k] in cluster;
      var found := db.ForgetMemory(cluster[k], Some(successor));
      if found {
        count := count + 1;
      }
    }
    assert cluster[..|cluster|] == cluster;
  }

  /**
    merge stands for the sidecar, ids for the identifier generator, exact for the duplicate search; a dry run
    lists the clusters.
   */
  method Consolidate(db: MemoryDb, dryRun: bool, minSize: int, similar: Resemblance,
                     merge: Merger, ids: Generator, exact: ExactSearch)
    returns (summary: Summary, clusters: seq<Cluster>, ghost progress: Progress)
    requires RowsMatch(db.Contents()) && FindsActive(exact) && FreshIds(db.Contents(), ids)
    modifies db
    ensures RightClusters(old(db.Contents()), similar, minSize, clusters) && summary.found == |clusters|
    ensures clusters == FoundClusters(old(db.Contents()), similar, minSize)
    ensures dryRun ==> db.Contents() == old(db.Contents())
    ensures !dryRun ==>
              && progress == MergeFirst(old(db.Contents()), clusters, |clusters|, merge, ids, exact)
              && db.Contents() == progress.tables
              && |progress.targets| == |clusters|
              && summary.merged == CountMerged(progress.targets)
              && summary.skipped == CountSkipped(progress.targets)
              && summary.superseded == MergedSize(clusters, progress.targets)
  {
    var entries := Candidates(db.memories, db.rows);
    var positions := Clusters.FindClusters(|entries|, AtPositions(entries, similar), minSize);
    clusters := PickAll(entries, positions);
    summary := Summary(|clusters|, 0, 0, 0);
    ghost var start := db.Contents();
    progress := Progress(start, []);
    FoundAreRight(start, similar, minSize);
    if dryRun {
      return;
    }
    FoundClustersDisjoint(start, similar, minSize);
    summary, progress := MergeClusters(db, clusters, merge, ids, exact);
  }

  /** The loop over the clusters. */
  method MergeClusters(db: MemoryDb, clusters: seq<Cluster>, merge: Merger, ids: Generator, exact: ExactSearch)
    returns (summary: Summary, ghost progress: Progress)
    requires Disjoint(clusters) && FindsActive(exact) && FreshIds(db.Contents(), ids)
    requires forall i :: 0 <= i < |clusters| ==> AllActive(db.Contents(), clusters[i])
    modifies db
    ensures progress == MergeFirst(old(db.Contents()), clusters, |clusters|, merge, ids, exact)
    ensures db.Contents() == progress.tables && |progress.targets| == |clusters|
    ensures summary == Tally(clusters, progress.targets)
  {
    ghost var start := db.Contents();
    summary := Summary(|clusters|, 0, 0, 0);
    progress := Progress(start, []);
    for k := 0 to |clusters|
      invariant progress == MergeFirst(start, clusters, k, merge, ids, exact)
      invariant db.Contents() == progress.tables && |progress.targets| == k
      invariant summary == Tally(clusters, progress.targets)
    {
      MergeConserves(start, clusters, k, merge, ids, exact);
      var text := merge(clusters[k]);
      ghost var before := progress;
      var target, count := MergeCluster(db, before, clusters[k], text, ids(k), exact);
      progress := MergeOne(before, clusters[k], text, ids(k), exact);
      TallySnoc(clusters, before.targets, target);
      if target == None {
        summary := summary.(skipped := summary.skipped + 1);
      } else {
        summary := summary.(superseded := summary.superseded + count, merged := summary.merged + 1);
      }
    }
  }

  /** The loop body: nothing for a skipped cluster, else the target and how many memories it supersedes. */
  method MergeCluster(db: MemoryDb, ghost p: Progress, cluster: Cluster, text: Option<string>, newId: Id,
                      exact: ExactSearch)
    returns (target: Option<Id>, count: nat)
    requires db.Contents() == p.tables && AllActive(p.tables, cluster)
    requires FindsActive(exact) && newId !in db.memories
    modifies db
    ensures db.Contents() == MergeOne(p, cluster, text, newId, exact).tables
    ensures MergeOne(p, cluster, text, newId, exact).targets == p.targets + [target]
    ensures target.Some? ==> count == |cluster|
  {
    if text == None || text.value == "" {
      return None, 0;
    }
    StoreMergedEffect(p.tables, cluster, text.value, newId, exact);
    var result := db.StoreEntry(MergedEntry(cluster, text.value), newId, exact, NoNearDuplicate);
    target := Some(result.id);
    count := ForgetCluster(db, cluster, result.id);
  }}
