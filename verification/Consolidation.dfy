/** Consolidation: each cluster of similar memories is merged into one entry, or left alone. */
module Consolidation {
  import opened Strings
  import opened Wrappers
  import opened MemoryStore
  import Clusters

  type Cluster = seq<Id>

  /** The sidecar: the merged text for a cluster, or nothing on any failure. */
  type Merger = Cluster -> Option<string>

  /** The identifier the generator gives to the entry made for the i-th cluster. */
  type Generator = nat -> Id

  function MergedEntry(cluster: Cluster, text: string): Entry {
    Entry(text, Some("Consolidated from " + Digits(|cluster|) + " memories"), Fact, Low,
      ["consolidated", SourceTag(cluster)], false, None)
  }

  function SourceTag(cluster: Cluster): string {
    "source-ids:" + JoinWith(",", cluster)
  }

  /** Without an embedding, store never reinforces a near duplicate. */
  function NoNearDuplicate(m: Memories, text: string, embedded: bool): Near {
    NoNear
  }

  function StoreMerged(t: Tables, cluster: Cluster, text: string, newId: Id, exact: ExactSearch): (Tables, Outcome) {
    Store(t, MergedEntry(cluster, text), newId, exact, NoNearDuplicate)
  }

  function ForgetAll(t: Tables, ids: seq<Id>, successor: Id): Tables {
    if ids == [] then t else Forget(ForgetAll(t, ids[..|ids| - 1], successor), ids[|ids| - 1], Some(successor))
  }

  // ----- the run, cluster by cluster -----

  /** Some(target): the cluster was merged into target. Fresh identifiers never make store fail. */
  datatype Progress = Progress(tables: Tables, targets: seq<Option<Id>>)

  function MergeOne(p: Progress, cluster: Cluster, text: Option<string>, newId: Id, exact: ExactSearch): Progress {
    if text == None || text.value == "" then p.(targets := p.targets + [None]) else
    var (u, outcome) := StoreMerged(p.tables, cluster, text.value, newId, exact);
    if outcome.Failed? then p.(targets := p.targets + [None])
    else Progress(ForgetAll(u, cluster, outcome.id), p.targets + [Some(outcome.id)])
  }

  function MergeFirst(t: Tables, clusters: seq<Cluster>, k: nat, merge: Merger, ids: Generator,
        exact: ExactSearch): Progress
    requires k <= |clusters|
  {
    if k == 0 then Progress(t, []) else
    var p := MergeFirst(t, clusters, k - 1, merge, ids, exact);
    MergeOne(p, clusters[k - 1], merge(clusters[k - 1]), ids(k - 1), exact)
  }

  // ----- what holds after k clusters -----

  ghost predicate MergedMember(clusters: seq<Cluster>, targets: seq<Option<Id>>, id: Id) {
    exists i :: 0 <= i < |targets| && i < |clusters| && targets[i].Some? && id in clusters[i]
  }

  ghost predicate Disjoint(clusters: seq<Cluster>) {
    forall i, j, id :: 0 <= i < |clusters| && 0 <= j < |clusters| && id in clusters[i] && id in clusters[j] ==> i == j
  }

  ghost predicate AllActive(t: Tables, cluster: Cluster) {
    forall id :: id in cluster ==> id in t.memories && t.memories[id].active
  }

  ghost predicate AllSuperseded(t: Tables, cluster: Cluster, target: Id) {
    forall id :: id in cluster ==>
      id in t.memories && !t.memories[id].active && t.memories[id].supersededBy == Some(target)
  }

  /** A merged cluster's entry is active unless it was itself a member of a merged cluster. */
  ghost predicate TargetRight(clusters: seq<Cluster>, p: Progress, target: Id) {
    && target in p.tables.memories
    && (p.tables.memories[target].active <==> !MergedMember(clusters, p.targets, target))
  }

  ghost predicate Conserved(clusters: seq<Cluster>, p: Progress) {
    && |p.targets| <= |clusters|
    && (forall i :: 0 <= i < |p.targets| && p.targets[i].Some? ==>
          AllSuperseded(p.tables, clusters[i], p.targets[i].value) && TargetRight(clusters, p, p.targets[i].value))
    && (forall i :: 0 <= i < |p.targets| && p.targets[i] == None ==> AllActive(p.tables, clusters[i]))
    && (forall i :: |p.targets| <= i < |clusters| ==> AllActive(p.tables, clusters[i]))
  }

  ghost predicate FreshIds(t: Tables, ids: Generator) {
    && (forall i :: ids(i) !in t.memories)
    && (forall i, j :: ids(i) == ids(j) ==> i == j)
  }

  lemma {:induction false} ForgetAllEffect(t: Tables, ids: seq<Id>, successor: Id)
    requires forall id :: id in ids ==> id in t.memories
    ensures var u := ForgetAll(t, ids, successor);
            && u.memories.Keys == t.memories.Keys
            && AllSuperseded(u, ids, successor)
            && (forall id :: id in t.memories && id !in ids ==> u.memories[id] == t.memories[id])
  {
    if ids != [] {
      var last := |ids| - 1;
      ForgetAllEffect(t, ids[..last], successor);
      assert forall id :: id in ids <==> id in ids[..last] || id == ids[last];
    }
  }

  /** What storing the merged text does: one active target, and no other memory changes its standing. */
  lemma {:induction false} StoreMergedEffect(t: Tables, cluster: Cluster, text: string, newId: Id, exact: ExactSearch)
    requires FindsActive(exact) && newId !in t.memories
    ensures var (u, outcome) := StoreMerged(t, cluster, text, newId, exact);
            && !outcome.Failed?
            && outcome.id in u.memories && u.memories[outcome.id].active
            && u.memories.Keys == t.memories.Keys + {outcome.id}
            && (outcome.id in t.memories ==> t.memories[outcome.id].active)
            && (outcome.id == newId || outcome.id in t.memories)
            && (forall id :: id in t.memories ==>
                  && u.memories[id].active == t.memories[id].active
                  && u.memories[id].supersededBy == t.memories[id].supersededBy)
  {
  }

  lemma {:induction false} MergeOneConserves(clusters: seq<Cluster>, p: Progress, text: Option<string>, newId: Id,
        exact: ExactSearch)
    requires Disjoint(clusters) && |p.targets| < |clusters| && Conserved(clusters, p)
    requires FindsActive(exact) && newId !in p.tables.memories
    ensures Conserved(clusters, MergeOne(p, clusters[|p.targets|], text, newId, exact))
    ensures MergeOne(p, clusters[|p.targets|], text, newId, exact).tables.memories.Keys <=
            p.tables.memories.Keys + {newId}
    ensures |MergeOne(p, clusters[|p.targets|], text, newId, exact).targets| == |p.targets| + 1
  {
    var k := |p.targets|;
    var cluster := clusters[k];
    var q := MergeOne(p, cluster, text, newId, exact);
    if text == None || text.value == "" {
      MergedMemberSnoc(clusters, p.targets, None);
      assert forall i :: 0 <= i < k ==> q.targets[i] == p.targets[i];
    } else {
      var (u, outcome) := StoreMerged(p.tables, cluster, text.value, newId, exact);
      StoreMergedEffect(p.tables, cluster, text.value, newId, exact);
      ForgetAllEffect(u, cluster, outcome.id);
      MergedMemberSnoc(clusters, p.targets, Some(outcome.id));
      StepConserves(clusters, p, u, q, outcome.id);
    }
  }

  lemma {:induction false} MergedMemberSnoc(clusters: seq<Cluster>, targets: seq<Option<Id>>, target: Option<Id>)
    requires |targets| < |clusters|
    ensures forall id :: MergedMember(clusters, targets + [target], id) <==>
              MergedMember(clusters, targets, id) || (target.Some? && id in clusters[|targets|])
  {
    var longer := targets + [target];
    forall id ensures MergedMember(clusters, longer, id) <==>
                      MergedMember(clusters, targets, id) || (target.Some? && id in clusters[|targets|]) {
      if MergedMember(clusters, targets, id) {
        var i :| 0 <= i < |targets| && i < |clusters| && targets[i].Some? && id in clusters[i];
        assert longer[i].Some?;
      }
      if target.Some? && id in clusters[|targets|] {
        assert longer[|targets|].Some?;
      }
    }
  }

  lemma {:induction false} MergedMembersInactive(clusters: seq<Cluster>, p: Progress)
    requires Conserved(clusters, p)
    ensures forall id :: MergedMember(clusters, p.targets, id) ==>
              id in p.tables.memories && !p.tables.memories[id].active
  {
  }

  lemma {:induction false} StepConserves(clusters: seq<Cluster>, p: Progress, u: Tables, q: Progress, target: Id)
    requires Disjoint(clusters) && |p.targets| < |clusters| && Conserved(clusters, p)
    requires q.targets == p.targets + [Some(target)]
    requires u.memories.Keys == p.tables.memories.Keys + {target} && u.memories[target].active
    requires target in p.tables.memories ==> p.tables.memories[target].active
    requires forall id :: id in p.tables.memories ==>
               && u.memories[id].active == p.tables.memories[id].active
               && u.memories[id].supersededBy == p.tables.memories[id].supersededBy
    requires q.tables.memories.Keys == u.memories.Keys
    requires AllSuperseded(q.tables, clusters[|p.targets|], target)
    requires forall id :: id in u.memories && id !in clusters[|p.targets|] ==> q.tables.memories[id] == u.memories[id]
    requires forall id :: MergedMember(clusters, q.targets, id) <==>
               MergedMember(clusters, p.targets, id) || id in clusters[|p.targets|]
    ensures Conserved(clusters, q)
  {
    var k := |p.targets|;
    MergedMembersInactive(clusters, p);
    forall i | 0 <= i < |q.targets| && q.targets[i].Some?
      ensures AllSuperseded(q.tables, clusters[i], q.targets[i].value) && TargetRight(clusters, q, q.targets[i].value)
    {
      if i < k {
        assert q.targets[i] == p.targets[i];
        assert AllSuperseded(p.tables, clusters[i], p.targets[i].value);
        assert TargetRight(clusters, p, p.targets[i].value);
      }
    }
    forall i | 0 <= i < |clusters| && i != k && (i < k ==> p.targets[i] == None)
      ensures AllActive(q.tables, clusters[i])
    {
      assert AllActive(p.tables, clusters[i]);
    }
    assert forall i :: 0 <= i < k ==> q.targets[i] == p.targets[i];
  }

  /**
    A run over disjoint clusters of active memories conserves knowledge: skipped clusters stay active;
    members of merged clusters are inactive and superseded by the cluster's target; and a target is
    active at the end exactly when it is not a member of a merged cluster.
   */
  lemma {:induction false} MergeConserves(t: Tables, clusters: seq<Cluster>, k: nat, merge: Merger, ids: Generator,
                                          exact: ExactSearch)
    requires k <= |clusters| && Disjoint(clusters) && FindsActive(exact) && FreshIds(t, ids)
    requires forall i :: 0 <= i < |clusters| ==> AllActive(t, clusters[i])
    ensures var p := MergeFirst(t, clusters, k, merge, ids, exact);
            && |p.targets| == k && Conserved(clusters, p)
            && (forall i :: i >= k ==> ids(i) !in p.tables.memories)
  {
    if k > 0 {
      MergeConserves(t, clusters, k - 1, merge, ids, exact);
      var p := MergeFirst(t, clusters, k - 1, merge, ids, exact);
      var newId := ids(k - 1);
      MergeOneConserves(clusters, p, merge(clusters[k - 1]), newId, exact);
      forall i | i >= k ensures ids(i) !in p.tables.memories.Keys + {newId} {
        assert ids(i) != newId;
      }
    }
  }

  /**
    When the merged text duplicates a member of its own cluster, store reinforces that member, and it is
    then forgotten with the rest: every member, the target among them, ends up superseded by a memory
    that is not active.
   */
  lemma {:induction false} SelfMergeLosesCluster(p: Progress, cluster: Cluster, text: string, newId: Id,
        exact: ExactSearch, dup: Id)
    requires FindsActive(exact) && text != "" && AllActive(p.tables, cluster)
    requires exact(p.tables.memories, text) == Some(dup) && dup in cluster
    ensures var q := MergeOne(p, cluster, Some(text), newId, exact);
            && q.targets == p.targets + [Some(dup)]
            && AllSuperseded(q.tables, cluster, dup)
            && !q.tables.memories[dup].active
  {
    var (u, outcome) := StoreMerged(p.tables, cluster, text, newId, exact);
    ForgetAllEffect(u, cluster, dup);
  }

  // ----- the clusters of a store -----

  /** `WHERE active = 1 AND embedding IS NOT NULL`, in row order. */
  function Candidates(memories: Memories, rows: seq<Id>): (found: seq<Id>)
    ensures forall id :: id in found ==> id in rows && id in memories && memories[id].active && memories[id].embedded
  {
    if rows == [] then [] else
    var last := rows[|rows| - 1];
    Candidates(memories, rows[..|rows| - 1]) +
    (if last in memories && memories[last].active && memories[last].embedded then [last] else [])
  }

  type Resemblance = (Id, Id) -> bool

  function AtPositions(ids: seq<Id>, similar: Resemblance): Clusters.Similarity {
    (i: nat, j: nat) => i < |ids| && j < |ids| && similar(ids[i], ids[j])
  }

  function Pick(ids: seq<Id>, positions: seq<nat>): Cluster {
    seq(|positions|, k requires 0 <= k < |positions| => if positions[k] < |ids| then ids[positions[k]] else "")
  }

  function PickAll(ids: seq<Id>, clusters: seq<seq<nat>>): seq<Cluster> {
    seq(|clusters|, k requires 0 <= k < |clusters| => Pick(ids, clusters[k]))
  }

  ghost function ClusterPositions(ids: seq<Id>, similar: Resemblance, minSize: int): seq<seq<nat>> {
    var graph := Clusters.SimilarityGraph(|ids|, AtPositions(ids, similar));
    Clusters.Components(Clusters.Reaches(graph), |ids|, minSize, |ids|)
  }

  ghost function FoundClusters(t: Tables, similar: Resemblance, minSize: int): seq<Cluster> {
    var ids := Candidates(t.memories, t.rows);
    PickAll(ids, ClusterPositions(ids, similar, minSize))
  }

  lemma {:induction false} CandidatesDistinct(memories: Memories, rows: seq<Id>)
    requires NoDuplicates(rows)
    ensures NoDuplicates(Candidates(memories, rows))
  {
    if rows != [] {
      var last := |rows| - 1;
      CandidatesDistinct(memories, rows[..last]);
      var before := Candidates(memories, rows[..last]);
      assert forall i :: 0 <= i < |before| ==> before[i] in before && before[i] in rows[..last];
    }
  }

  /** Clusters share no memory, and all their members are active. */
  lemma {:induction false} FoundClustersDisjoint(t: Tables, similar: Resemblance, minSize: int)
    requires RowsMatch(t)
    ensures Disjoint(FoundClusters(t, similar, minSize))
    ensures forall c :: c in FoundClusters(t, similar, minSize) ==> AllActive(t, c)
  {
    var ids := Candidates(t.memories, t.rows);
    var positions, found := ClusterPositions(ids, similar, minSize), FoundClusters(t, similar, minSize);
    var graph := Clusters.SimilarityGraph(|ids|, AtPositions(ids, similar));
    CandidatesDistinct(t.memories, t.rows);
    Clusters.ClustersAreLargeComponents(graph, |ids|, minSize);
    PositionsBelow(graph, |ids|, minSize);
    forall i, id | 0 <= i < |found| && id in found[i]
      ensures exists p :: p in positions[i] && p < |ids| && id == ids[p]
    {
      var k :| 0 <= k < |found[i]| && found[i][k] == id;
      assert positions[i] in positions && positions[i][k] in positions[i];
    }
    forall i, j, id | 0 <= i < |found| && 0 <= j < |found| && id in found[i] && id in found[j] ensures i == j {
      var p :| p in positions[i] && p < |ids| && id == ids[p];
      var q :| q in positions[j] && q < |ids| && id == ids[q];
      assert p == q;
      assert positions[i] in positions && positions[j] in positions;
    }
    forall c | c in found ensures AllActive(t, c) {
      var i :| 0 <= i < |found| && found[i] == c;
    }
  }

  lemma {:induction false} PositionsBelow(graph: set<(nat, nat)>, n: nat, minSize: int)
    ensures var positions := Clusters.Components(Clusters.Reaches(graph), n, minSize, n);
            forall c, p :: c in positions && p in c ==> p < n
  {
    var same := Clusters.Reaches(graph);
    Clusters.ComponentsExact(same, n, minSize, n);
    forall c, p | c in Clusters.Components(same, n, minSize, n) && p in c ensures p < n {
      var leader: nat :| leader < n && Clusters.LargeComponent(same, n, minSize, leader, c);
      Clusters.ComponentExact(same, leader, n);
    }
  }

  // ----- what is counted -----

  datatype Summary = Summary(found: nat, merged: nat, skipped: nat, superseded: nat)

  function CountMerged(targets: seq<Option<Id>>): nat {
    if targets == [] then 0 else
    CountMerged(targets[..|targets| - 1]) + (if targets[|targets| - 1].Some? then 1 else 0)
  }

  function CountSkipped(targets: seq<Option<Id>>): nat {
    if targets == [] then 0 else
    CountSkipped(targets[..|targets| - 1]) + (if targets[|targets| - 1].Some? then 0 else 1)
  }

  /** The total size of the merged clusters. */
  function MergedSize(clusters: seq<Cluster>, targets: seq<Option<Id>>): nat
    requires |targets| <= |clusters|
  {
    if targets == [] then 0 else
    var last := |targets| - 1;
    MergedSize(clusters, targets[..last]) + (if targets[last].Some? then |clusters[last]| else 0)
  }

  lemma {:induction false} MergedOrSkipped(targets: seq<Option<Id>>)
    ensures CountMerged(targets) + CountSkipped(targets) == |targets|
  {
    if targets != [] { MergedOrSkipped(targets[..|targets| - 1]); }
  }

  /** The summary of the clusters worked on so far. */
  function Tally(clusters: seq<Cluster>, targets: seq<Option<Id>>): Summary
    requires |targets| <= |clusters|
  {
    Summary(|clusters|, CountMerged(targets), CountSkipped(targets), MergedSize(clusters, targets))
  }

  lemma {:induction false} TallySnoc(clusters: seq<Cluster>, targets: seq<Option<Id>>, target: Option<Id>)
    requires |targets| < |clusters|
    ensures var before, after := Tally(clusters, targets), Tally(clusters, targets + [target]);
            if target == None then after == before.(skipped := before.skipped + 1)
            else after == before.(superseded := before.superseded + |clusters[|targets|]|, merged := before.merged + 1)
  {
    assert (targets + [target])[..|targets|] == targets;
  }
}
