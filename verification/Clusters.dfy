/** Single-link clustering: the clusters are the large components of the similarity graph. */
module Clusters {
  import opened UnionFinds

  /** Entries are named by their position in the query result. */
  type Similarity = (nat, nat) -> bool

  /** The pairs the two nested loops have compared, where the similarity exceeds the threshold. */
  ghost function EdgesBefore(n: nat, similar: Similarity, i: nat, j: nat): Graph {
    set a: nat, b: nat | 0 <= a < n && a < b < n && (a < i || (a == i && b < j)) && similar(a, b) :: (a, b)
  }

  ghost function SimilarityGraph(n: nat, similar: Similarity): Graph {
    EdgesBefore(n, similar, n, 0)
  }

  // ----- components, by reachability -----

  type Relation = (nat, nat) -> bool

  /** Which positions a path joins. */
  ghost function Reaches(g: Graph): Relation {
    (a: nat, b: nat) => Connected(g, a, b)
  }

  ghost predicate Equivalence(same: Relation) {
    && (forall a :: same(a, a))
    && (forall a, b :: same(a, b) ==> same(b, a))
    && (forall a, b, c :: same(a, b) && same(b, c) ==> same(a, c))
  }

  lemma {:induction false} ReachesIsEquivalence(g: Graph)
    ensures Equivalence(Reaches(g))
  {
    var same := Reaches(g);
    forall a: nat ensures same(a, a) { ConnectedSelf(g, a); }
    forall a: nat, b: nat | same(a, b) ensures same(b, a) { ConnectedSym(g, a, b); }
    forall a: nat, b: nat, c: nat | same(a, b) && same(b, c) ensures same(a, c) { ConnectedTrans(g, a, b, c); }
  }

  /** The positions below n related to i, in ascending order. */
  ghost function Component(same: Relation, i: nat, n: nat): seq<nat> {
    if n == 0 then [] else Component(same, i, n - 1) + (if same(i, n - 1) then [n - 1] else [])
  }

  /** i is the first position of its component. */
  ghost predicate Leader(same: Relation, i: nat) {
    forall m: nat :: m < i ==> !same(m, i)
  }

  /** The component of position i, if i leads it and it is large. */
  ghost function LedBy(same: Relation, n: nat, minSize: int, i: nat): seq<seq<nat>> {
    if Leader(same, i) && |Component(same, i, n)| >= minSize then [Component(same, i, n)] else []
  }

  /** The components of at least minSize members whose leaders are below k, in the order of their leaders. */
  ghost function Components(same: Relation, n: nat, minSize: int, k: nat): seq<seq<nat>> {
    if k == 0 then [] else
    Components(same, n, minSize, k - 1) +
    LedBy(same, n, minSize, k - 1)
  }

  ghost predicate Ascending(s: seq<nat>) {
    forall x, y :: 0 <= x < y < |s| ==> s[x] < s[y]
  }

  lemma {:induction false} ComponentExact(same: Relation, i: nat, n: nat)
    ensures forall m: nat :: m in Component(same, i, n) <==> m < n && same(i, m)
    ensures Ascending(Component(same, i, n))
    ensures |Component(same, i, n)| <= n
  {
    if n > 0 {
      ComponentExact(same, i, n - 1);
      var before := Component(same, i, n - 1);
      assert forall x :: 0 <= x < |before| ==> before[x] in before;
    }
  }

  ghost predicate LargeComponent(same: Relation, n: nat, minSize: int, leader: nat, c: seq<nat>) {
    Leader(same, leader) && c == Component(same, leader, n) && |c| >= minSize
  }

  lemma {:induction false} ComponentsExact(same: Relation, n: nat, minSize: int, k: nat)
    ensures forall c :: c in Components(same, n, minSize, k) <==>
              exists i: nat :: i < k && LargeComponent(same, n, minSize, i, c)
  {
    if k > 0 {
      ComponentsExact(same, n, minSize, k - 1);
      forall c ensures c in Components(same, n, minSize, k) <==>
                       exists i: nat :: i < k && LargeComponent(same, n, minSize, i, c) {
        assert LargeComponent(same, n, minSize, k - 1, c) ==> c in Components(same, n, minSize, k);
      }
    }
  }

  lemma {:induction false} ComponentsDistinct(same: Relation, n: nat, minSize: int, k: nat)
    requires k <= n && Equivalence(same)
    ensures forall x, y :: 0 <= x < y < |Components(same, n, minSize, k)| ==>
              Components(same, n, minSize, k)[x] != Components(same, n, minSize, k)[y]
  {
    if k > 0 {
      ComponentsDistinct(same, n, minSize, k - 1);
      var before := Components(same, n, minSize, k - 1);
      if Leader(same, k - 1) {
        ComponentsExact(same, n, minSize, k - 1);
        ComponentExact(same, k - 1, n);
        forall c | c in before ensures k - 1 !in c {
          var i: nat :| i < k - 1 && LargeComponent(same, n, minSize, i, c);
          ComponentExact(same, i, n);
        }
        assert forall x :: 0 <= x < |before| ==> before[x] in before;
      }
    }
  }

  /** Every position has a leader, and related positions have the same component. */
  lemma {:induction false} LeaderOf(same: Relation, i: nat, n: nat) returns (leader: nat)
    requires i < n && Equivalence(same)
    ensures leader <= i && Leader(same, leader) && same(leader, i)
    ensures Component(same, leader, n) == Component(same, i, n)
    decreases i
  {
    if Leader(same, i) {
      leader := i;
    } else {
      var m: nat :| m < i && same(m, i);
      leader := LeaderOf(same, m, n);
      SameComponent(same, leader, i, n);
    }
  }

  lemma {:induction false} SameComponent(same: Relation, a: nat, b: nat, n: nat)
    requires Equivalence(same) && same(a, b)
    ensures Component(same, a, n) == Component(same, b, n)
  {
    if n > 0 { SameComponent(same, a, b, n - 1); }
  }

  /**
    What the clusters are: each is a whole component of at least minSize members; no two are equal or
    share a member; and a position is in some cluster exactly when its component is large enough.
   */
  lemma {:induction false} ClustersAreLargeComponents(g: Graph, n: nat, minSize: int)
    ensures var same, clusters := Reaches(g), Components(Reaches(g), n, minSize, n);
            && (forall c, i :: c in clusters && i in c ==> c == Component(same, i, n) && |c| >= minSize)
            && (forall c, d, i :: c in clusters && d in clusters && i in c && i in d ==> c == d)
            && (forall x, y :: 0 <= x < y < |clusters| ==> clusters[x] != clusters[y])
            && (forall i: nat :: i < n ==>
                  ((exists c :: c in clusters && i in c) <==> |Component(same, i, n)| >= minSize))
  {
    var same, clusters := Reaches(g), Components(Reaches(g), n, minSize, n);
    ReachesIsEquivalence(g);
    ComponentsExact(same, n, minSize, n);
    ComponentsDistinct(same, n, minSize, n);
    forall c, i | c in clusters && i in c ensures c == Component(same, i, n) && |c| >= minSize {
      var leader: nat :| leader < n && LargeComponent(same, n, minSize, leader, c);
      ComponentExact(same, leader, n);
      SameComponent(same, leader, i, n);
    }
    forall i: nat | i < n ensures (exists c :: c in clusters && i in c) <==> |Component(same, i, n)| >= minSize {
      if |Component(same, i, n)| >= minSize {
        var leader := LeaderOf(same, i, n);
        ComponentExact(same, leader, n);
        assert LargeComponent(same, n, minSize, leader, Component(same, leader, n));
        assert Component(same, leader, n) in clusters && i in Component(same, leader, n);
      }
    }
  }

  // ----- the code -----

  /** The positions below k with this root, in ascending order. */
  function Members(rep: seq<nat>, root: nat, k: nat): seq<nat>
    requires k <= |rep|
  {
    if k == 0 then [] else Members(rep, root, k - 1) + (if rep[k - 1] == root then [k - 1] else [])
  }

  /** The roots in the order a dictionary meets them. */
  function Keys(rep: seq<nat>, k: nat): seq<nat>
    requires k <= |rep|
  {
    if k == 0 then [] else
    if rep[k - 1] in Keys(rep, k - 1) then Keys(rep, k - 1) else Keys(rep, k - 1) + [rep[k - 1]]
  }

  function LargeGroups(rep: seq<nat>, minSize: int, keys: seq<nat>): seq<seq<nat>> {
    if keys == [] then [] else
    var last := |keys| - 1;
    var group := Members(rep, keys[last], |rep|);
    LargeGroups(rep, minSize, keys[..last]) + (if |group| >= minSize then [group] else [])
  }

  lemma {:induction false} KeysExact(rep: seq<nat>, k: nat, x: nat)
    requires k <= |rep|
    ensures x in Keys(rep, k) <==> exists m :: 0 <= m < k && rep[m] == x
  {
    if k > 0 { KeysExact(rep, k - 1, x); }
  }

  ghost predicate Classes(rep: seq<nat>, same: Relation) {
    forall a: nat, b: nat :: a < |rep| && b < |rep| ==> (rep[a] == rep[b] <==> same(a, b))
  }

  lemma {:induction false} MembersAreComponent(rep: seq<nat>, same: Relation, i: nat, k: nat)
    requires Classes(rep, same) && i < |rep| && k <= |rep|
    ensures Members(rep, rep[i], k) == Component(same, i, k)
  {
    if k > 0 { MembersAreComponent(rep, same, i, k - 1); }
  }

  lemma {:induction false} KeysSnoc(rep: seq<nat>, same: Relation, i: nat)
    requires Classes(rep, same) && i < |rep|
    ensures Keys(rep, i + 1) == if Leader(same, i) then Keys(rep, i) + [rep[i]] else Keys(rep, i)
  {
    KeysExact(rep, i, rep[i]);
    assert forall m: nat :: m < i ==> (rep[m] == rep[i] <==> same(m, i));
  }

  lemma {:induction false} LargeGroupsSnoc(rep: seq<nat>, minSize: int, keys: seq<nat>, key: nat)
    ensures LargeGroups(rep, minSize, keys + [key]) ==
            LargeGroups(rep, minSize, keys) +
            (if |Members(rep, key, |rep|)| >= minSize then [Members(rep, key, |rep|)] else [])
  {
    assert (keys + [key])[..|keys|] == keys;
  }

  type Growing = nat -> seq<seq<nat>>

  /** From i to i + 1 the list grows by the component of position i, if i leads it and it is large. */
  ghost predicate Grows(h: Growing, same: Relation, n: nat, minSize: int, i: nat) {
    h(i + 1) == h(i) + LedBy(same, n, minSize, i)
  }

  lemma {:induction false} GrownAreComponents(h: Growing, same: Relation, n: nat, minSize: int, k: nat)
    requires h(0) == [] && forall i: nat :: i < k ==> Grows(h, same, n, minSize, i)
    ensures h(k) == Components(same, n, minSize, k)
  {
    if k > 0 {
      GrownAreComponents(h, same, n, minSize, k - 1);
      assert Grows(h, same, n, minSize, k - 1);
    }
  }

  /** The large groups among the first i entries. */
  ghost function GroupsSoFar(rep: seq<nat>, minSize: int): Growing {
    (i: nat) => if i <= |rep| then LargeGroups(rep, minSize, Keys(rep, i)) else []
  }

  lemma {:induction false} AddKey(rep: seq<nat>, same: Relation, minSize: int, keys: seq<nat>, i: nat)
    requires i < |rep| && Members(rep, rep[i], |rep|) == Component(same, i, |rep|)
    ensures LargeGroups(rep, minSize, if Leader(same, i) then keys + [rep[i]] else keys) ==
            LargeGroups(rep, minSize, keys) + LedBy(same, |rep|, minSize, i)
  {
    if Leader(same, i) {
      LargeGroupsSnoc(rep, minSize, keys, rep[i]);
    }
  }

  lemma {:induction false} GroupsGrow(rep: seq<nat>, same: Relation, minSize: int, i: nat)
    requires Classes(rep, same) && i < |rep|
    ensures Grows(GroupsSoFar(rep, minSize), same, |rep|, minSize, i)
  {
    MembersAreComponent(rep, same, i, |rep|);
    KeysSnoc(rep, same, i);
    AddKey(rep, same, minSize, Keys(rep, i), i);
  }

  lemma {:induction false} GroupsAreComponents(rep: seq<nat>, same: Relation, minSize: int, k: nat)
    requires Classes(rep, same) && k <= |rep|
    ensures LargeGroups(rep, minSize, Keys(rep, k)) == Components(same, |rep|, minSize, k)
  {
    forall i: nat | i < k ensures Grows(GroupsSoFar(rep, minSize), same, |rep|, minSize, i) {
      GroupsGrow(rep, same, minSize, i);
    }
    GrownAreComponents(GroupsSoFar(rep, minSize), same, |rep|, minSize, k);
  }

  /** `similar` stands for "the cosine of the two embeddings exceeds similarity_threshold". */
  method FindClusters(n: nat, similar: Similarity, minSize: int) returns (clusters: seq<seq<nat>>)
    ensures clusters == Components(Reaches(SimilarityGraph(n, similar)), n, minSize, n)
  {
    ghost var graph := SimilarityGraph(n, similar);
    if n < minSize {
      SmallComponents(Reaches(graph), n, minSize, n);
      return [];
    }
    var sets := LinkSimilar(n, similar);
    ghost var rep := sets.rep;
    var keys, grouped := GroupByRoot(sets, n);
    clusters := KeepLarge(keys, grouped, minSize, rep);
    assert Classes(rep, Reaches(graph));
    GroupsAreComponents(rep, Reaches(graph), minSize, n);
  }

  method KeepLarge(keys: seq<nat>, grouped: map<nat, seq<nat>>, minSize: int, ghost rep: seq<nat>)
    returns (clusters: seq<seq<nat>>)
    requires forall root :: root in keys ==> root in grouped && grouped[root] == Members(rep, root, |rep|)
    ensures clusters == LargeGroups(rep, minSize, keys)
  {
    clusters := [];
    for k := 0 to |keys|
      invariant clusters == LargeGroups(rep, minSize, keys[..k])
    {
      assert keys[..k + 1] == keys[..k] + [keys[k]];
      LargeGroupsSnoc(rep, minSize, keys[..k], keys[k]);
      var members := grouped[keys[k]];
      if |members| >= minSize {
        clusters := clusters + [members];
      }
    }
    assert keys[..|keys|] == keys;
  }

  method LinkSimilar(n: nat, similar: Similarity) returns (sets: UnionFind)
    ensures fresh(sets) && fresh(sets.parent) && sets.Valid() && |sets.rep| == n
    ensures Represents(sets.rep, SimilarityGraph(n, similar))
  {
    sets := new UnionFind(n);
    EmptyGraph(n);
    assert EdgesBefore(n, similar, 0, 0) == {};
    for i := 0 to n
      invariant fresh(sets) && fresh(sets.parent) && sets.Valid() && |sets.rep| == n
      invariant Represents(sets.rep, EdgesBefore(n, similar, i, 0))
    {
      RowOfEdges(n, similar, i);
      for j := i + 1 to n
        invariant fresh(sets) && fresh(sets.parent) && sets.Valid() && |sets.rep| == n
        invariant Represents(sets.rep, EdgesBefore(n, similar, i, j))
      {
        NextEdge(n, similar, i, j);
        if similar(i, j) {
          LinkPair(sets, EdgesBefore(n, similar, i, j), i, j);
        }
      }
    }
  }

  /** The union of two similar entries adds their edge to what the roots represent. */
  method LinkPair(sets: UnionFind, ghost graph: Graph, i: nat, j: nat)
    requires sets.Valid() && i < |sets.rep| && j < |sets.rep|
    requires InRange(graph, |sets.rep|) && Represents(sets.rep, graph)
    modifies sets`rep, sets`rank, sets`top, sets.parent
    ensures sets.Valid() && |sets.rep| == |old(sets.rep)|
    ensures Represents(sets.rep, graph + {(i, j)})
  {
    AddEdge(sets.rep, graph, i, j);
    sets.Union(i, j);
  }

  lemma {:induction false} RowOfEdges(n: nat, similar: Similarity, i: nat)
    ensures EdgesBefore(n, similar, i, i + 1) == EdgesBefore(n, similar, i, 0)
    ensures EdgesBefore(n, similar, i, n) == EdgesBefore(n, similar, i + 1, 0)
  {
  }

  lemma {:induction false} NextEdge(n: nat, similar: Similarity, i: nat, j: nat)
    requires i < j < n
    ensures InRange(EdgesBefore(n, similar, i, j), n)
    ensures EdgesBefore(n, similar, i, j + 1) ==
            if similar(i, j) then EdgesBefore(n, similar, i, j) + {(i, j)} else EdgesBefore(n, similar, i, j)
  {
  }

  /** A dictionary of root -> members, with its keys in insertion order. */
  method GroupByRoot(sets: UnionFind, n: nat) returns (keys: seq<nat>, grouped: map<nat, seq<nat>>)
    requires sets.Valid() && |sets.rep| == n
    modifies sets.parent
    ensures sets.Valid() && sets.rep == old(sets.rep)
    ensures keys == Keys(sets.rep, n)
    ensures forall root :: root in keys ==> root in grouped && grouped[root] == Members(sets.rep, root, n)
  {
    keys, grouped := [], map[];
    ghost var rep := sets.rep;
    for i := 0 to n
      invariant sets.Valid() && sets.rep == rep
      invariant Grouping(keys, grouped, rep, i)
    {
      var root := sets.Find(i);
      keys, grouped := AddMember(keys, grouped, root, i, rep);
    }
  }

  /** The dictionary after the first i entries. */
  ghost predicate Grouping(keys: seq<nat>, grouped: map<nat, seq<nat>>, rep: seq<nat>, i: nat)
    requires i <= |rep|
  {
    && keys == Keys(rep, i)
    && (forall root :: root in keys <==> root in grouped)
    && (forall root :: root in keys ==> grouped[root] == Members(rep, root, i))
  }

  /** `grouped.setdefault(root, []).append(entries[i])` */
  method AddMember(keys0: seq<nat>, grouped0: map<nat, seq<nat>>, root: nat, i: nat, ghost rep: seq<nat>)
    returns (keys: seq<nat>, grouped: map<nat, seq<nat>>)
    requires i < |rep| && rep[i] == root && Grouping(keys0, grouped0, rep, i)
    ensures Grouping(keys, grouped, rep, i + 1)
  {
    keys, grouped := keys0, grouped0;
    if root !in grouped {
      NoMembers(rep, root, i);
      keys := keys + [root];
      grouped := grouped[root := []];
    }
    grouped := grouped[root := grouped[root] + [i]];
  }

  lemma {:induction false} NoMembers(rep: seq<nat>, root: nat, k: nat)
    requires k <= |rep| && root !in Keys(rep, k)
    ensures Members(rep, root, k) == []
  {
    if k > 0 { NoMembers(rep, root, k - 1); }
  }

  lemma {:induction false} SmallComponents(same: Relation, n: nat, minSize: int, k: nat)
    requires n < minSize
    ensures Components(same, n, minSize, k) == []
  {
    if k > 0 {
      SmallComponents(same, n, minSize, k - 1);
      ComponentExact(same, k - 1, n);
    }
  }
}
