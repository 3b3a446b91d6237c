/** The clusters of a store, told from its memories alone: chains of similar active memories with an embedding. */
module MemoryClusters {
  import opened Selections
  import opened MemoryStore
  import opened Consolidation
  import Clusters
  import UnionFinds

  /** The memories that clustering looks at. */
  predicate Clusterable(t: Tables, id: Id) {
    id in t.memories && t.memories[id].active && t.memories[id].embedded
  }

  predicate Earlier(rows: seq<Id>, a: Id, b: Id) {
    exists i, j :: 0 <= i < j < |rows| && rows[i] == a && rows[j] == b
  }

  /** The pair is compared in row order. */
  predicate Alike(t: Tables, similar: Resemblance, a: Id, b: Id) {
    (Earlier(t.rows, a, b) && similar(a, b)) || (Earlier(t.rows, b, a) && similar(b, a))
  }

  predicate IsChain(t: Tables, similar: Resemblance, chain: seq<Id>) {
    && (forall i :: 0 <= i < |chain| ==> Clusterable(t, chain[i]))
    && (forall i, j :: 0 <= i && j == i + 1 < |chain| ==> Alike(t, similar, chain[i], chain[j]))
  }

  /** A chain of clusterable memories, each like the next, leads from one to the other. */
  ghost predicate Joined(t: Tables, similar: Resemblance, a: Id, b: Id) {
    exists chain: seq<Id> :: IsChain(t, similar, chain) && chain != [] && chain[0] == a && chain[|chain| - 1] == b
  }

  ghost predicate AllJoined(t: Tables, similar: Resemblance, a: Id, group: set<Id>) {
    forall b :: b in group ==> Joined(t, similar, a, b)
  }

  /** At least this many memories are joined to it, itself among them. */
  ghost predicate InLarge(t: Tables, similar: Resemblance, minSize: int, a: Id) {
    exists group: set<Id> :: |group| >= minSize && AllJoined(t, similar, a, group)
  }

  ghost predicate Together(clusters: seq<Cluster>, a: Id, b: Id) {
    exists k :: 0 <= k < |clusters| && a in clusters[k] && b in clusters[k]
  }

  /** The two lie in one cluster exactly if a chain joins them and at least minSize memories are joined to them. */
  ghost predicate RightPair(t: Tables, similar: Resemblance, minSize: int, clusters: seq<Cluster>, a: Id, b: Id) {
    Together(clusters, a, b) <==> Joined(t, similar, a, b) && InLarge(t, similar, minSize, a)
  }

  /** All pairs are right, no two clusters share a memory, and the members of each stand in row order. */
  ghost predicate RightClusters(t: Tables, similar: Resemblance, minSize: int, clusters: seq<Cluster>) {
    && (forall a, b :: RightPair(t, similar, minSize, clusters, a, b))
    && Disjoint(clusters)
    && (forall k, x, y :: 0 <= k < |clusters| && 0 <= x < y < |clusters[k]| ==>
          Earlier(t.rows, clusters[k][x], clusters[k][y]))
  }

  // ----- the candidates -----

  lemma {:induction false} CandidatesInOrder(t: Tables, rows: seq<Id>)
    ensures Picks(rows, id => Clusterable(t, id), Candidates(t.memories, rows))
  {
    var test := id => Clusterable(t, id);
    if rows == [] {
      PicksNone(test);
    } else {
      var rest, last := rows[..|rows| - 1], rows[|rows| - 1];
      CandidatesInOrder(t, rest);
      PicksSnoc(rest, last, test, Candidates(t.memories, rest));
      assert rows == rest + [last];
      assert Candidates(t.memories, rest) + [] == Candidates(t.memories, rest);
    }
  }

  lemma {:induction false} CandidatesEarlier(t: Tables, p: nat, q: nat)
    requires RowsMatch(t)
    requires var ids := Candidates(t.memories, t.rows); p < |ids| && q < |ids|
    ensures var ids := Candidates(t.memories, t.rows); Earlier(t.rows, ids[p], ids[q]) <==> p < q
  {
    var ids, test := Candidates(t.memories, t.rows), id => Clusterable(t, id);
    CandidatesInOrder(t, t.rows);
    var at: seq<nat> :| PicksAt(t.rows, test, ids, at);
    assert StandsAt(t.rows, test, ids, at, p) && StandsAt(t.rows, test, ids, at, q);
    RisingOrder(at, p, q);
    if Earlier(t.rows, ids[p], ids[q]) {
      var i, j :| 0 <= i < j < |t.rows| && t.rows[i] == ids[p] && t.rows[j] == ids[q];
      assert i == at[p] && j == at[q];
    }
  }

  lemma {:induction false} CandidateAt(t: Tables, id: Id) returns (p: nat)
    requires RowsMatch(t) && Clusterable(t, id)
    ensures var ids := Candidates(t.memories, t.rows); p < |ids| && ids[p] == id
  {
    CandidatesInOrder(t, t.rows);
    PicksMembers(t.rows, x => Clusterable(t, x), Candidates(t.memories, t.rows));
    p :| 0 <= p < |Candidates(t.memories, t.rows)| && Candidates(t.memories, t.rows)[p] == id;
  }

  lemma {:induction false} CandidateIsClusterable(t: Tables, p: nat)
    requires p < |Candidates(t.memories, t.rows)|
    ensures Clusterable(t, Candidates(t.memories, t.rows)[p])
  {
    CandidatesInOrder(t, t.rows);
    PicksMembers(t.rows, x => Clusterable(t, x), Candidates(t.memories, t.rows));
    assert Candidates(t.memories, t.rows)[p] in Candidates(t.memories, t.rows);
  }

  // ----- chains are paths -----

  ghost function GraphOf(t: Tables, similar: Resemblance): UnionFinds.Graph {
    var ids := Candidates(t.memories, t.rows);
    Clusters.SimilarityGraph(|ids|, AtPositions(ids, similar))
  }

  lemma {:induction false} AdjacentIff(t: Tables, similar: Resemblance, p: nat, q: nat)
    requires RowsMatch(t)
    requires var ids := Candidates(t.memories, t.rows); p < |ids| && q < |ids|
    ensures var ids := Candidates(t.memories, t.rows);
            UnionFinds.Adjacent(GraphOf(t, similar), p, q) <==> Alike(t, similar, ids[p], ids[q])
  {
    CandidatesEarlier(t, p, q);
    CandidatesEarlier(t, q, p);
  }

  lemma {:induction false} PathBelow(t: Tables, similar: Resemblance, path: seq<nat>, a: nat, b: nat, i: nat)
    requires UnionFinds.IsPath(GraphOf(t, similar), path, a, b) && a < |Candidates(t.memories, t.rows)| && i < |path|
    ensures path[i] < |Candidates(t.memories, t.rows)|
    decreases i
  {
    if i > 0 {
      assert UnionFinds.Adjacent(GraphOf(t, similar), path[i - 1], path[i - 1 + 1]);
    }
  }

  lemma {:induction false} PathIsChain(t: Tables, similar: Resemblance, a: nat, b: nat)
    requires RowsMatch(t)
    requires var ids := Candidates(t.memories, t.rows); a < |ids| && b < |ids|
    requires UnionFinds.Connected(GraphOf(t, similar), a, b)
    ensures var ids := Candidates(t.memories, t.rows); Joined(t, similar, ids[a], ids[b])
  {
    var ids := Candidates(t.memories, t.rows);
    var path: seq<nat> :| UnionFinds.IsPath(GraphOf(t, similar), path, a, b);
    forall i: nat | i < |path| ensures path[i] < |ids| {
      PathBelow(t, similar, path, a, b, i);
    }
    var chain := seq(|path|, i requires 0 <= i < |path| => ids[path[i]]);
    forall i | 0 <= i < |chain| ensures Clusterable(t, chain[i]) {
      CandidateIsClusterable(t, path[i]);
    }
    forall i, j | 0 <= i && j == i + 1 < |chain| ensures Alike(t, similar, chain[i], chain[j]) {
      assert UnionFinds.Adjacent(GraphOf(t, similar), path[i], path[i + 1]);
      AdjacentIff(t, similar, path[i], path[j]);
    }
    assert IsChain(t, similar, chain) && chain[0] == ids[a] && chain[|chain| - 1] == ids[b];
  }

  lemma {:induction false} ChainIsPath(t: Tables, similar: Resemblance, chain: seq<Id>) returns (path: seq<nat>)
    requires RowsMatch(t) && IsChain(t, similar, chain) && chain != []
    ensures var ids := Candidates(t.memories, t.rows);
            && |path| == |chain| && (forall i :: 0 <= i < |path| ==> path[i] < |ids| && ids[path[i]] == chain[i])
            && UnionFinds.IsPath(GraphOf(t, similar), path, path[0], path[|path| - 1])
  {
    var ids, n := Candidates(t.memories, t.rows), |chain| - 1;
    assert Clusterable(t, chain[n]);
    var last := CandidateAt(t, chain[n]);
    if n == 0 {
      path := [last];
    } else {
      var rest := chain[..n];
      assert IsChain(t, similar, rest) by {
        assert forall i :: 0 <= i < n ==> rest[i] == chain[i];
      }
      var before := ChainIsPath(t, similar, rest);
      assert rest[n - 1] == chain[n - 1] && Alike(t, similar, chain[n - 1], chain[n]);
      AdjacentIff(t, similar, before[n - 1], last);
      path := before + [last];
      forall i | 0 <= i < |path| - 1 ensures UnionFinds.Adjacent(GraphOf(t, similar), path[i], path[i + 1]) {
        if i < n - 1 {
          assert UnionFinds.Adjacent(GraphOf(t, similar), before[i], before[i + 1]);
        }
      }
    }
  }

  lemma {:induction false} SamePlace(t: Tables, p: nat, q: nat)
    requires RowsMatch(t)
    requires var ids := Candidates(t.memories, t.rows); p < |ids| && q < |ids| && ids[p] == ids[q]
    ensures p == q
  {
    CandidatesDistinct(t.memories, t.rows);
  }

  /** Two candidates are joined exactly if their positions are connected. */
  lemma {:induction false} JoinedIff(t: Tables, similar: Resemblance, p: nat, q: nat)
    requires RowsMatch(t)
    requires var ids := Candidates(t.memories, t.rows); p < |ids| && q < |ids|
    ensures var ids := Candidates(t.memories, t.rows);
            Joined(t, similar, ids[p], ids[q]) <==> UnionFinds.Connected(GraphOf(t, similar), p, q)
  {
    var ids := Candidates(t.memories, t.rows);
    if UnionFinds.Connected(GraphOf(t, similar), p, q) {
      PathIsChain(t, similar, p, q);
    }
    if Joined(t, similar, ids[p], ids[q]) {
      var chain: seq<Id> :| IsChain(t, similar, chain) && chain != [] && chain[0] == ids[p] &&
                            chain[|chain| - 1] == ids[q];
      var path := ChainIsPath(t, similar, chain);
      SamePlace(t, path[0], p);
      SamePlace(t, path[|path| - 1], q);
    }
  }

  lemma {:induction false} JoinedAreCandidates(t: Tables, similar: Resemblance, a: Id, b: Id)
    requires Joined(t, similar, a, b)
    ensures Clusterable(t, a) && Clusterable(t, b)
  {
  }

  // ----- sizes -----

  lemma {:induction false} SubsetSize<T>(a: set<T>, b: set<T>)
    requires a <= b
    ensures |a| <= |b|
  {
    if a != {} {
      var x :| x in a;
      SubsetSize(a - {x}, b - {x});
    }
  }

  function IdsAt(ids: seq<Id>, places: seq<nat>): set<Id>
    requires forall p :: p in places ==> p < |ids|
  {
    set p | p in places :: ids[p]
  }

  lemma {:induction false} IdsAtSize(ids: seq<Id>, places: seq<nat>)
    requires NoDuplicates(ids) && Clusters.Ascending(places) && forall p :: p in places ==> p < |ids|
    ensures |IdsAt(ids, places)| == |places|
  {
    if places != [] {
      var rest, last := places[..|places| - 1], places[|places| - 1];
      assert forall p :: p in rest ==> p in places;
      IdsAtSize(ids, rest);
      assert last in places;
      forall p | p in rest ensures ids[p] != ids[last] {
        var k :| 0 <= k < |rest| && rest[k] == p;
        assert places[k] < last;
      }
      assert forall p :: p in places <==> p in rest || p == last;
      assert IdsAt(ids, places) == IdsAt(ids, rest) + {ids[last]};
    }
  }

  /** The ids of a candidate's component are the memories joined to it. */
  lemma {:induction false} ComponentIsJoined(t: Tables, similar: Resemblance, p: nat, b: Id)
    requires RowsMatch(t) && p < |Candidates(t.memories, t.rows)|
    requires var ids := Candidates(t.memories, t.rows);
             forall m :: m in Clusters.Component(Clusters.Reaches(GraphOf(t, similar)), p, |ids|) ==> m < |ids|
    ensures var ids := Candidates(t.memories, t.rows);
            b in IdsAt(ids, Clusters.Component(Clusters.Reaches(GraphOf(t, similar)), p, |ids|)) <==>
            Joined(t, similar, ids[p], b)
  {
    var ids, same := Candidates(t.memories, t.rows), Clusters.Reaches(GraphOf(t, similar));
    var component := Clusters.Component(same, p, |ids|);
    Clusters.ComponentExact(same, p, |ids|);
    if b in IdsAt(ids, component) {
      var q :| q in component && ids[q] == b;
      JoinedIff(t, similar, p, q);
    }
    if Joined(t, similar, ids[p], b) {
      JoinedAreCandidates(t, similar, ids[p], b);
      var q := CandidateAt(t, b);
      JoinedIff(t, similar, p, q);
      assert q in component;
    }
  }

  /** A candidate's component is large exactly if enough memories are joined to it. */
  lemma {:induction false} LargeIff(t: Tables, similar: Resemblance, minSize: int, p: nat)
    requires RowsMatch(t) && p < |Candidates(t.memories, t.rows)|
    ensures var ids := Candidates(t.memories, t.rows);
            InLarge(t, similar, minSize, ids[p]) <==>
            |Clusters.Component(Clusters.Reaches(GraphOf(t, similar)), p, |ids|)| >= minSize
  {
    var ids, same := Candidates(t.memories, t.rows), Clusters.Reaches(GraphOf(t, similar));
    var component := Clusters.Component(same, p, |ids|);
    Clusters.ComponentExact(same, p, |ids|);
    CandidatesDistinct(t.memories, t.rows);
    IdsAtSize(ids, component);
    var group := IdsAt(ids, component);
    forall b: Id | true ensures b in group <==> Joined(t, similar, ids[p], b) {
      ComponentIsJoined(t, similar, p, b);
    }
    if InLarge(t, similar, minSize, ids[p]) {
      var other: set<Id> :| |other| >= minSize && AllJoined(t, similar, ids[p], other);
      SubsetSize(other, group);
    }
    assert AllJoined(t, similar, ids[p], group);
  }

  // ----- the clusters found -----

  lemma {:induction false} PickedAt(ids: seq<Id>, positions: seq<nat>, id: Id)
    requires NoDuplicates(ids) && forall p :: p in positions ==> p < |ids|
    ensures id in Pick(ids, positions) <==> exists p :: p in positions && p < |ids| && ids[p] == id
  {
    if id in Pick(ids, positions) {
      var k :| 0 <= k < |positions| && Pick(ids, positions)[k] == id;
      assert positions[k] in positions;
    }
    if p: nat :| p in positions && p < |ids| && ids[p] == id {
      var k :| 0 <= k < |positions| && positions[k] == p;
      assert Pick(ids, positions)[k] == id;
    }
  }

  ghost predicate Share(clusters: seq<seq<nat>>, p: nat, q: nat) {
    exists c :: c in clusters && p in c && q in c
  }

  lemma {:induction false} ShareIff(graph: UnionFinds.Graph, n: nat, minSize: int, p: nat, q: nat)
    requires p < n && q < n
    ensures var same := Clusters.Reaches(graph);
            Share(Clusters.Components(same, n, minSize, n), p, q) <==>
            same(p, q) && |Clusters.Component(same, p, n)| >= minSize
  {
    var same := Clusters.Reaches(graph);
    var clusters := Clusters.Components(same, n, minSize, n);
    Clusters.ClustersAreLargeComponents(graph, n, minSize);
    Clusters.ComponentExact(same, p, n);
    if same(p, q) && |Clusters.Component(same, p, n)| >= minSize {
      var c :| c in clusters && p in c;
      assert c == Clusters.Component(same, p, n) && q in c;
    }
  }

  lemma {:induction false} TogetherShare(t: Tables, similar: Resemblance, minSize: int, p: nat, q: nat)
    requires RowsMatch(t)
    requires var ids := Candidates(t.memories, t.rows); p < |ids| && q < |ids|
    ensures var ids := Candidates(t.memories, t.rows);
            Together(FoundClusters(t, similar, minSize), ids[p], ids[q]) <==>
            Share(ClusterPositions(ids, similar, minSize), p, q)
  {
    var ids := Candidates(t.memories, t.rows);
    var positions, found := ClusterPositions(ids, similar, minSize), FoundClusters(t, similar, minSize);
    CandidatesDistinct(t.memories, t.rows);
    PositionsBelow(GraphOf(t, similar), |ids|, minSize);
    forall k | 0 <= k < |found|
      ensures ids[p] in found[k] <==> p in positions[k]
      ensures ids[q] in found[k] <==> q in positions[k]
    {
      assert positions[k] in positions;
      PickedAt(ids, positions[k], ids[p]);
      PickedAt(ids, positions[k], ids[q]);
    }
    if Share(positions, p, q) {
      var c :| c in positions && p in c && q in c;
      var k :| 0 <= k < |positions| && positions[k] == c;
      assert ids[p] in found[k] && ids[q] in found[k];
    }
    if Together(found, ids[p], ids[q]) {
      var k :| 0 <= k < |found| && ids[p] in found[k] && ids[q] in found[k];
      assert positions[k] in positions;
    }
  }

  lemma {:induction false} TogetherIff(t: Tables, similar: Resemblance, minSize: int, p: nat, q: nat)
    requires RowsMatch(t)
    requires var ids := Candidates(t.memories, t.rows); p < |ids| && q < |ids|
    ensures var ids := Candidates(t.memories, t.rows);
            RightPair(t, similar, minSize, FoundClusters(t, similar, minSize), ids[p], ids[q])
  {
    TogetherShare(t, similar, minSize, p, q);
    ShareIff(GraphOf(t, similar), |Candidates(t.memories, t.rows)|, minSize, p, q);
    JoinedIff(t, similar, p, q);
    LargeIff(t, similar, minSize, p);
  }

  lemma {:induction false} FoundMembersClusterable(t: Tables, similar: Resemblance, minSize: int, k: nat, id: Id)
    requires k < |FoundClusters(t, similar, minSize)| && id in FoundClusters(t, similar, minSize)[k]
    ensures Clusterable(t, id)
  {
    var ids := Candidates(t.memories, t.rows);
    var positions := ClusterPositions(ids, similar, minSize);
    PositionsBelow(GraphOf(t, similar), |ids|, minSize);
    assert positions[k] in positions;
    var x :| 0 <= x < |positions[k]| && Pick(ids, positions[k])[x] == id;
    assert positions[k][x] in positions[k];
    CandidateIsClusterable(t, positions[k][x]);
  }

  lemma {:induction false} FoundMembersInOrder(t: Tables, similar: Resemblance, minSize: int, k: nat, x: nat, y: nat)
    requires RowsMatch(t) && k < |FoundClusters(t, similar, minSize)|
    requires x < y < |FoundClusters(t, similar, minSize)[k]|
    ensures var c := FoundClusters(t, similar, minSize)[k]; Earlier(t.rows, c[x], c[y])
  {
    var ids, graph := Candidates(t.memories, t.rows), GraphOf(t, similar);
    var positions := ClusterPositions(ids, similar, minSize);
    PositionsBelow(graph, |ids|, minSize);
    Clusters.ComponentsExact(Clusters.Reaches(graph), |ids|, minSize, |ids|);
    var c := positions[k];
    assert c in positions;
    var leader: nat :| leader < |ids| && Clusters.LargeComponent(Clusters.Reaches(graph), |ids|, minSize, leader, c);
    Clusters.ComponentExact(Clusters.Reaches(graph), leader, |ids|);
    assert c[x] in c && c[y] in c;
    CandidatesEarlier(t, c[x], c[y]);
  }

  lemma {:induction false} TogetherAny(t: Tables, similar: Resemblance, minSize: int, a: Id, b: Id)
    requires RowsMatch(t)
    ensures Together(FoundClusters(t, similar, minSize), a, b) <==>
            Joined(t, similar, a, b) && InLarge(t, similar, minSize, a)
  {
    var found := FoundClusters(t, similar, minSize);
    if Together(found, a, b) {
      var k :| 0 <= k < |found| && a in found[k] && b in found[k];
      FoundMembersClusterable(t, similar, minSize, k, a);
      FoundMembersClusterable(t, similar, minSize, k, b);
    } else if Joined(t, similar, a, b) {
      JoinedAreCandidates(t, similar, a, b);
    }
    if Clusterable(t, a) && Clusterable(t, b) {
      var p := CandidateAt(t, a);
      var q := CandidateAt(t, b);
      TogetherIff(t, similar, minSize, p, q);
    }
  }

  /** What clustering finds, over the memories of any store. */
  lemma {:induction false} FoundAreRight(t: Tables, similar: Resemblance, minSize: int)
    requires RowsMatch(t)
    ensures RightClusters(t, similar, minSize, FoundClusters(t, similar, minSize))
  {
    var found := FoundClusters(t, similar, minSize);
    FoundClustersDisjoint(t, similar, minSize);
    forall a: Id, b: Id ensures RightPair(t, similar, minSize, found, a, b) {
      TogetherAny(t, similar, minSize, a, b);
    }
    forall k: nat, x: nat, y: nat | k < |found| && x < y < |found[k]|
      ensures Earlier(t.rows, found[k][x], found[k][y])
    {
      FoundMembersInOrder(t, similar, minSize, k, x, y);
    }
  }
}
