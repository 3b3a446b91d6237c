/** What a consolidation leaves behind, told from its inputs. */
module ConsolidationOutcome {
  import opened Strings
  import opened Wrappers
  import opened MemoryStore
  import opened Consolidation
  import Clusters

  /** The inputs of the loop over the clusters. */
  datatype Job = Job(start: Tables, clusters: seq<Cluster>, merge: Merger, ids: Generator, exact: ExactSearch)

  ghost predicate Fit(j: Job) {
    && Disjoint(j.clusters) && FindsActive(j.exact) && FreshIds(j.start, j.ids)
    && (forall i :: 0 <= i < |j.clusters| ==> AllActive(j.start, j.clusters[i]))
  }

  /** The progress after the first k clusters. */
  function After(j: Job, k: nat): Progress
    requires k <= |j.clusters|
  {
    MergeFirst(j.start, j.clusters, k, j.merge, j.ids, j.exact)
  }

  /** The sidecar gives a text for the i-th cluster. */
  predicate Merges(j: Job, i: nat)
    requires i < |j.clusters|
  {
    j.merge(j.clusters[i]).Some? && j.merge(j.clusters[i]).value != ""
  }

  /** What the duplicate search answers for the i-th merged text, when its turn comes. */
  function Duplicate(j: Job, i: nat): Option<Id>
    requires i < |j.clusters| && Merges(j, i)
  {
    j.exact(After(j, i).tables.memories, j.merge(j.clusters[i]).value)
  }

  ghost predicate InMergedCluster(j: Job, id: Id) {
    exists i :: 0 <= i < |j.clusters| && Merges(j, i) && id in j.clusters[i]
  }

  /** The cluster's entry: the duplicate found, else the new one. */
  function TargetOf(j: Job, i: nat): Option<Id>
    requires i < |j.clusters|
  {
    if !Merges(j, i) then None
    else if Duplicate(j, i).Some? then Duplicate(j, i)
    else Some(j.ids(i))
  }

  lemma {:induction false} AfterConserves(j: Job, k: nat)
    requires Fit(j) && k <= |j.clusters|
    ensures |After(j, k).targets| == k && Conserved(j.clusters, After(j, k))
    ensures forall i :: i >= k ==> j.ids(i) !in After(j, k).tables.memories
  {
    MergeConserves(j.start, j.clusters, k, j.merge, j.ids, j.exact);
  }

  lemma {:induction false} LastTarget(j: Job, i: nat)
    requires Fit(j) && i < |j.clusters|
    ensures After(j, i + 1).targets == After(j, i).targets + [TargetOf(j, i)]
  {
    AfterConserves(j, i);
  }

  lemma {:induction false} TargetsAre(j: Job, k: nat, i: nat)
    requires Fit(j) && i < k <= |j.clusters|
    ensures |After(j, k).targets| == k && After(j, k).targets[i] == TargetOf(j, i)
    decreases k
  {
    AfterConserves(j, k);
    AfterConserves(j, k - 1);
    LastTarget(j, k - 1);
    if i < k - 1 {
      TargetsAre(j, k - 1, i);
    }
  }

  lemma {:induction false} MergedMemberIs(j: Job, id: Id)
    requires Fit(j)
    ensures MergedMember(j.clusters, After(j, |j.clusters|).targets, id) <==> InMergedCluster(j, id)
  {
    var targets := After(j, |j.clusters|).targets;
    AfterConserves(j, |j.clusters|);
    forall i | 0 <= i < |j.clusters| ensures targets[i].Some? <==> Merges(j, i) {
      TargetsAre(j, |j.clusters|, i);
    }
  }

  /** A new entry is no member of a cluster: the clusters were found before it was made. */
  lemma {:induction false} NewIsNoMember(j: Job, i: nat)
    requires Fit(j)
    ensures j.ids(i) !in j.start.memories && !InMergedCluster(j, j.ids(i))
  {
    assert forall k :: 0 <= k < |j.clusters| ==> AllActive(j.start, j.clusters[k]);
  }

  /**
    What becomes of the i-th cluster: without a text its members stay active. With one they are superseded
    by its target, which is active exactly if the search for the text found nothing, or found a memory in
    no cluster with a text; and if it found nothing, the target is a new memory.
   */
  lemma {:induction false} ClusterOutcome(j: Job, i: nat)
    requires Fit(j) && i < |j.clusters|
    ensures var end := After(j, |j.clusters|).tables;
            if !Merges(j, i) then AllActive(end, j.clusters[i]) else
            var target := TargetOf(j, i).value;
            && AllSuperseded(end, j.clusters[i], target) && target in end.memories
            && (end.memories[target].active <==> Duplicate(j, i) == None || !InMergedCluster(j, Duplicate(j, i).value))
            && (Duplicate(j, i) == None ==> target == j.ids(i) && target !in j.start.memories)
  {
    AfterConserves(j, |j.clusters|);
    TargetsAre(j, |j.clusters|, i);
    if Merges(j, i) {
      MergedMemberIs(j, TargetOf(j, i).value);
      NewIsNoMember(j, i);
      assert TargetRight(j.clusters, After(j, |j.clusters|), TargetOf(j, i).value);
    }
  }

  // ----- the superseded memories -----

  function Members(cluster: Cluster): set<Id> {
    set id | id in cluster
  }

  /** The members of the merged clusters among the first k. */
  ghost function MergedIds(j: Job, k: nat): set<Id>
    requires k <= |j.clusters|
  {
    if k == 0 then {} else MergedIds(j, k - 1) + if Merges(j, k - 1) then Members(j.clusters[k - 1]) else {}
  }

  lemma {:induction false} MembersCount(cluster: Cluster)
    requires NoDuplicates(cluster)
    ensures |Members(cluster)| == |cluster|
  {
    if cluster != [] {
      var rest, last := cluster[..|cluster| - 1], cluster[|cluster| - 1];
      assert cluster == rest + [last];
      MembersCount(rest);
      assert Members(cluster) == Members(rest) + {last} && last !in Members(rest);
    }
  }

  lemma {:induction false} MergedIdsAre(j: Job, k: nat, id: Id)
    requires k <= |j.clusters|
    ensures id in MergedIds(j, k) <==> exists i :: 0 <= i < k && Merges(j, i) && id in j.clusters[i]
  {
    if k > 0 { MergedIdsAre(j, k - 1, id); }
  }

  lemma {:induction false} MergedIdsCount(j: Job, k: nat)
    requires Fit(j) && k <= |j.clusters| && forall i :: 0 <= i < |j.clusters| ==> NoDuplicates(j.clusters[i])
    ensures |After(j, k).targets| == k && |MergedIds(j, k)| == MergedSize(j.clusters, After(j, k).targets)
  {
    AfterConserves(j, k);
    if k > 0 {
      MergedIdsCount(j, k - 1);
      AfterConserves(j, k - 1);
      TargetsAre(j, k, k - 1);
      assert After(j, k).targets[..k - 1] == After(j, k - 1).targets;
      var cluster, before := j.clusters[k - 1], MergedIds(j, k - 1);
      MembersCount(cluster);
      forall id | id in cluster ensures id !in before {
        MergedIdsAre(j, k - 1, id);
      }
    }
  }

  lemma {:induction false} MergeLeavesOthers(p: Progress, cluster: Cluster, text: Option<string>, newId: Id,
        exact: ExactSearch)
    requires FindsActive(exact) && newId !in p.tables.memories && forall id :: id in cluster ==> id in p.tables.memories
    ensures var after := MergeOne(p, cluster, text, newId, exact).tables;
            forall id :: id in p.tables.memories && id !in cluster ==>
              id in after.memories && after.memories[id].active == p.tables.memories[id].active
  {
    if text.Some? && text.value != "" {
      var (u, outcome) := StoreMerged(p.tables, cluster, text.value, newId, exact);
      StoreMergedEffect(p.tables, cluster, text.value, newId, exact);
      ForgetAllEffect(u, cluster, outcome.id);
    }
  }

  lemma {:induction false} UnmergedLeavesAll(p: Progress, cluster: Cluster, text: Option<string>, newId: Id,
        exact: ExactSearch)
    requires text == None || text.value == ""
    ensures MergeOne(p, cluster, text, newId, exact).tables == p.tables
  {
  }

  /** Members of other clusters, and memories of none, keep their standing. */
  lemma {:induction false} OthersStand(j: Job, k: nat)
    requires Fit(j) && k <= |j.clusters|
    ensures forall id :: id in j.start.memories && id !in MergedIds(j, k) ==>
              id in After(j, k).tables.memories && After(j, k).tables.memories[id].active == j.start.memories[id].active
  {
    if k > 0 {
      OthersStand(j, k - 1);
      AfterConserves(j, k - 1);
      var p, cluster, text := After(j, k - 1), j.clusters[k - 1], j.merge(j.clusters[k - 1]);
      if Merges(j, k - 1) {
        MergeLeavesOthers(p, cluster, text, j.ids(k - 1), j.exact);
      } else {
        UnmergedLeavesAll(p, cluster, text, j.ids(k - 1), j.exact);
      }
    }
  }

  /** The memories of the start that are no longer active at the end. */
  function Superseded(j: Job): set<Id> {
    var end := After(j, |j.clusters|).tables;
    set id | id in j.start.memories && j.start.memories[id].active && !(id in end.memories && end.memories[id].active)
  }

  /** The memories that lost their standing are the members of the merged clusters, and as many as counted. */
  lemma {:induction false} SupersededCount(j: Job)
    requires Fit(j) && forall i :: 0 <= i < |j.clusters| ==> NoDuplicates(j.clusters[i])
    ensures var n := |j.clusters|;
            |After(j, n).targets| == n && |Superseded(j)| == MergedSize(j.clusters, After(j, n).targets)
    ensures forall id :: id in Superseded(j) <==> InMergedCluster(j, id)
  {
    var n := |j.clusters|;
    AfterConserves(j, n);
    OthersStand(j, n);
    forall id ensures id in Superseded(j) <==> id in MergedIds(j, n) {
      MergedIdsAre(j, n, id);
      if id in MergedIds(j, n) {
        var i :| 0 <= i < n && Merges(j, i) && id in j.clusters[i];
        TargetsAre(j, n, i);
        assert AllActive(j.start, j.clusters[i]);
      }
    }
    assert Superseded(j) == MergedIds(j, n);
    forall id ensures id in MergedIds(j, n) <==> InMergedCluster(j, id) {
      MergedIdsAre(j, n, id);
    }
    MergedIdsCount(j, n);
  }

  // ----- a whole consolidation -----

  ghost function JobOf(t: Tables, similar: Resemblance, minSize: int, merge: Merger, ids: Generator,
        exact: ExactSearch): Job {
    Job(t, FoundClusters(t, similar, minSize), merge, ids, exact)
  }

  lemma {:induction false} PickDistinct(ids: seq<Id>, positions: seq<nat>)
    requires NoDuplicates(ids) && Clusters.Ascending(positions) && forall p :: p in positions ==> p < |ids|
    ensures NoDuplicates(Pick(ids, positions))
  {
    forall x, y | 0 <= x < y < |positions| ensures Pick(ids, positions)[x] != Pick(ids, positions)[y] {
      assert positions[x] in positions && positions[y] in positions && positions[x] < positions[y];
    }
  }

  lemma {:induction false} FoundIsFit(j: Job, similar: Resemblance, minSize: int)
    requires RowsMatch(j.start) && FindsActive(j.exact) && FreshIds(j.start, j.ids)
    requires j.clusters == FoundClusters(j.start, similar, minSize)
    ensures Fit(j) && forall i :: 0 <= i < |j.clusters| ==> NoDuplicates(j.clusters[i])
  {
    var ids := Candidates(j.start.memories, j.start.rows);
    var positions := ClusterPositions(ids, similar, minSize);
    var graph := Clusters.SimilarityGraph(|ids|, AtPositions(ids, similar));
    FoundClustersDisjoint(j.start, similar, minSize);
    CandidatesDistinct(j.start.memories, j.start.rows);
    PositionsBelow(graph, |ids|, minSize);
    Clusters.ComponentsExact(Clusters.Reaches(graph), |ids|, minSize, |ids|);
    forall i | 0 <= i < |j.clusters| ensures NoDuplicates(j.clusters[i]) && AllActive(j.start, j.clusters[i]) {
      assert j.clusters[i] in j.clusters && positions[i] in positions;
      var leader: nat :| leader < |ids| &&
        Clusters.LargeComponent(Clusters.Reaches(graph), |ids|, minSize, leader, positions[i]);
      Clusters.ComponentExact(Clusters.Reaches(graph), leader, |ids|);
      PickDistinct(ids, positions[i]);
    }
  }

  /**
    Consolidation conserves knowledge. Merged and skipped clusters add up to the clusters found, and the
    memories that lose their standing are the members of the merged clusters, as many as counted. If no
    merged text duplicates an active memory when its turn comes, every member of a merged cluster is
    superseded by a new entry that is active at the end.
   */
  lemma {:induction false} ConsolidationConserves(t: Tables, similar: Resemblance, minSize: int, merge: Merger,
        ids: Generator, exact: ExactSearch)
    requires RowsMatch(t) && FindsActive(exact) && FreshIds(t, ids)
    ensures var j := JobOf(t, similar, minSize, merge, ids, exact);
            var n := |j.clusters|;
            var end := After(j, n);
            && |end.targets| == n && Conserved(j.clusters, end)
            && CountMerged(end.targets) + CountSkipped(end.targets) == n
            && |Superseded(j)| == MergedSize(j.clusters, end.targets)
            && (forall id :: id in Superseded(j) <==> InMergedCluster(j, id))
            && (forall i :: 0 <= i < n && !Merges(j, i) ==> AllActive(end.tables, j.clusters[i]))
            && (forall i :: 0 <= i < n && Merges(j, i) && Duplicate(j, i) == None ==>
                  && ids(i) !in t.memories && ids(i) in end.tables.memories && end.tables.memories[ids(i)].active
                  && AllSuperseded(end.tables, j.clusters[i], ids(i)))
  {
    var j := JobOf(t, similar, minSize, merge, ids, exact);
    FoundIsFit(j, similar, minSize);
    SupersededCount(j);
    AfterConserves(j, |j.clusters|);
    MergedOrSkipped(After(j, |j.clusters|).targets);
    forall i | 0 <= i < |j.clusters|
      ensures !Merges(j, i) ==> AllActive(After(j, |j.clusters|).tables, j.clusters[i])
      ensures Merges(j, i) && Duplicate(j, i) == None ==>
                var end := After(j, |j.clusters|).tables;
                && ids(i) !in t.memories && ids(i) in end.memories && end.memories[ids(i)].active
                && AllSuperseded(end, j.clusters[i], ids(i))
    {
      ClusterOutcome(j, i);
    }
  }

  // ----- what the new entries say -----

  predicate SameText(m: Memory, n: Memory) {
    && n.content == m.content && n.context == m.context && n.category == m.category && n.trust == m.trust
    && n.tags == m.tags && n.embedded == m.embedded
  }

  lemma {:induction false} ForgetAllKeepsText(t: Tables, ids: seq<Id>, successor: Id, id: Id)
    requires id in t.memories
    ensures var u := ForgetAll(t, ids, successor); id in u.memories && SameText(t.memories[id], u.memories[id])
  {
    if ids != [] { ForgetAllKeepsText(t, ids[..|ids| - 1], successor, id); }
  }

  lemma {:induction false} MergeKeepsText(p: Progress, cluster: Cluster, text: Option<string>, newId: Id,
        exact: ExactSearch, id: Id)
    requires id in p.tables.memories
    ensures var after := MergeOne(p, cluster, text, newId, exact).tables;
            id in after.memories && SameText(p.tables.memories[id], after.memories[id])
  {
    if text.Some? && text.value != "" {
      var (u, outcome) := StoreMerged(p.tables, cluster, text.value, newId, exact);
      if !outcome.Failed? {
        ForgetAllKeepsText(u, cluster, outcome.id, id);
      }
    }
  }

  lemma {:induction false} TextStays(j: Job, k: nat, n: nat, id: Id)
    requires k <= n <= |j.clusters| && id in After(j, k).tables.memories
    ensures id in After(j, n).tables.memories
    ensures SameText(After(j, k).tables.memories[id], After(j, n).tables.memories[id])
    decreases n
  {
    if k < n {
      TextStays(j, k, n - 1, id);
      MergeKeepsText(After(j, n - 1), j.clusters[n - 1], j.merge(j.clusters[n - 1]), j.ids(n - 1), j.exact, id);
    }
  }

  /** A memory for good: the merged text as a fact of low trust, tagged with where it comes from. */
  lemma {:induction false} NewEntryIs(j: Job, i: nat)
    requires Fit(j) && i < |j.clusters| && Merges(j, i) && Duplicate(j, i) == None
    ensures var end := After(j, |j.clusters|).tables;
            && j.ids(i) in end.memories
            && var m := end.memories[j.ids(i)];
            && j.merge(j.clusters[i]) == Some(m.content)
            && m.context == Some("Consolidated from " + Digits(|j.clusters[i]|) + " memories")
            && m.category == Fact && m.trust == Low && !m.embedded
            && m.tags == ["consolidated", "source-ids:" + JoinWith(",", j.clusters[i])]
  {
    AfterConserves(j, i);
    var p, text := After(j, i), j.merge(j.clusters[i]);
    var (u, outcome) := StoreMerged(p.tables, j.clusters[i], text.value, j.ids(i), j.exact);
    assert outcome == Created(j.ids(i));
    ForgetAllKeepsText(u, j.clusters[i], j.ids(i), j.ids(i));
    TextStays(j, i + 1, |j.clusters|, j.ids(i));
  }
}
