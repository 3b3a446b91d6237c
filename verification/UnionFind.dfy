/** The union-find of the memory consolidator, proved to compute graph connectivity. */
module UnionFinds {

  // ----- graphs and paths -----

  type Graph = set<(nat, nat)>

  predicate Adjacent(g: Graph, a: nat, b: nat) {
    (a, b) in g || (b, a) in g
  }

  ghost predicate IsPath(g: Graph, path: seq<nat>, a: nat, b: nat) {
    && |path| > 0 && path[0] == a && path[|path| - 1] == b
    && forall i :: 0 <= i < |path| - 1 ==> Adjacent(g, path[i], path[i + 1])
  }

  ghost predicate Connected(g: Graph, a: nat, b: nat) {
    exists path: seq<nat> :: IsPath(g, path, a, b)
  }

  lemma {:induction false} ConnectedSelf(g: Graph, a: nat)
    ensures Connected(g, a, a)
  {
    assert IsPath(g, [a], a, a);
  }

  lemma {:induction false} ConnectedEdge(g: Graph, a: nat, b: nat)
    requires Adjacent(g, a, b)
    ensures Connected(g, a, b)
  {
    assert IsPath(g, [a, b], a, b);
  }

  lemma {:induction false} ConnectedTrans(g: Graph, a: nat, b: nat, c: nat)
    requires Connected(g, a, b) && Connected(g, b, c)
    ensures Connected(g, a, c)
  {
    var p: seq<nat> :| IsPath(g, p, a, b);
    var q: seq<nat> :| IsPath(g, q, b, c);
    var r := p + q[1..];
    forall i | 0 <= i < |r| - 1 ensures Adjacent(g, r[i], r[i + 1]) {
      if i >= |p| - 1 {
        assert r[i] == q[i - |p| + 1] && r[i + 1] == q[i - |p| + 2];
      }
    }
    assert IsPath(g, r, a, c);
  }

  lemma {:induction false} ConnectedSym(g: Graph, a: nat, b: nat)
    requires Connected(g, a, b)
    ensures Connected(g, b, a)
  {
    var p: seq<nat> :| IsPath(g, p, a, b);
    var r := seq(|p|, i requires 0 <= i < |p| => p[|p| - 1 - i]);
    forall i | 0 <= i < |r| - 1 ensures Adjacent(g, r[i], r[i + 1]) {
      var k := |p| - 2 - i;
      assert Adjacent(g, p[k], p[k + 1]);
    }
    assert IsPath(g, r, b, a);
  }

  lemma {:induction false} ConnectedMonotone(g: Graph, h: Graph, a: nat, b: nat)
    requires g <= h && Connected(g, a, b)
    ensures Connected(h, a, b)
  {
    var p: seq<nat> :| IsPath(g, p, a, b);
    assert IsPath(h, p, a, b);
  }

  // ----- partitions -----

  ghost predicate InRange(g: Graph, n: nat) {
    forall e :: e in g ==> e.0 < n && e.1 < n
  }

  /** rep names the same representative for two elements exactly when the graph connects them. */
  ghost predicate Represents(rep: seq<nat>, g: Graph) {
    forall a, b :: 0 <= a < |rep| && 0 <= b < |rep| ==> (rep[a] == rep[b] <==> Connected(g, a, b))
  }

  function Merged(rep: seq<nat>, i: nat, j: nat): seq<nat>
    requires i < |rep| && j < |rep|
  {
    seq(|rep|, k requires 0 <= k < |rep| => if rep[k] == rep[i] then rep[j] else rep[k])
  }

  lemma {:induction false} PathKeepsRep(rep: seq<nat>, g: Graph, path: seq<nat>, a: nat, b: nat)
    requires InRange(g, |rep|) && a < |rep| && IsPath(g, path, a, b)
    requires forall e :: e in g ==> rep[e.0] == rep[e.1]
    ensures b < |rep| && rep[a] == rep[b]
    decreases |path|
  {
    if |path| > 1 {
      assert Adjacent(g, path[0], path[1]);
      PathKeepsRep(rep, g, path[1..], path[1], b);
    }
  }

  function Singletons(n: nat): seq<nat> {
    seq(n, k requires 0 <= k < n => k)
  }

  lemma {:induction false} EmptyGraph(n: nat)
    ensures Represents(Singletons(n), {})
  {
    var rep := Singletons(n);
    forall a, b | 0 <= a < n && 0 <= b < n ensures rep[a] == rep[b] <==> Connected({}, a, b) {
      ConnectedSelf({}, a);
      if Connected({}, a, b) {
        var p: seq<nat> :| IsPath({}, p, a, b);
        PathKeepsRep(rep, {}, p, a, b);
      }
    }
  }

  /** Merging two classes is what one more edge does to connectivity. */
  lemma {:induction false} AddEdge(rep: seq<nat>, g: Graph, i: nat, j: nat)
    requires InRange(g, |rep|) && i < |rep| && j < |rep| && Represents(rep, g)
    ensures Represents(Merged(rep, i, j), g + {(i, j)})
  {
    var merged, h := Merged(rep, i, j), g + {(i, j)};
    forall a, b | 0 <= a < |rep| && 0 <= b < |rep| ensures merged[a] == merged[b] <==> Connected(h, a, b) {
      if Connected(h, a, b) {
        EdgesMerged(rep, g, i, j);
        var p: seq<nat> :| IsPath(h, p, a, b);
        PathKeepsRep(merged, h, p, a, b);
      }
      if merged[a] == merged[b] {
        if rep[a] == rep[b] {
          ConnectedMonotone(g, h, a, b);
        } else if rep[a] == rep[i] {
          JoinedByEdge(g, i, j, a, b);
        } else {
          JoinedByEdge(g, i, j, b, a);
          ConnectedSym(h, b, a);
        }
      }
    }
  }

  lemma {:induction false} EdgesMerged(rep: seq<nat>, g: Graph, i: nat, j: nat)
    requires InRange(g, |rep|) && i < |rep| && j < |rep| && Represents(rep, g)
    ensures forall e :: e in g + {(i, j)} ==> Merged(rep, i, j)[e.0] == Merged(rep, i, j)[e.1]
  {
    forall e | e in g ensures rep[e.0] == rep[e.1] {
      ConnectedEdge(g, e.0, e.1);
    }
  }

  lemma {:induction false} JoinedByEdge(g: Graph, i: nat, j: nat, a: nat, b: nat)
    requires Connected(g, a, i) && Connected(g, b, j)
    ensures Connected(g + {(i, j)}, a, b)
  {
    var h := g + {(i, j)};
    ConnectedMonotone(g, h, a, i);
    ConnectedMonotone(g, h, b, j);
    ConnectedEdge(h, i, j);
    ConnectedSym(h, b, j);
    ConnectedTrans(h, a, i, j);
    ConnectedTrans(h, a, j, b);
  }

  // ----- the data structure -----

  /** k steps up the parent pointers. */
  function Follow(parent: seq<nat>, i: nat, k: nat): nat
    requires i < |parent| && forall x :: 0 <= x < |parent| ==> parent[x] < |parent|
    decreases k
  {
    if k == 0 then i else Follow(parent, parent[i], k - 1)
  }

  /** One element of a forest of parent pointers: rep is its root, and rank grows along its pointer. */
  ghost predicate Node(parent: seq<nat>, rep: seq<nat>, rank: seq<nat>, top: nat, k: nat)
    requires |rep| == |rank| == |parent| && k < |parent|
    requires parent[k] < |parent| && rep[k] < |parent|
  {
    && rep[parent[k]] == rep[k] && parent[rep[k]] == rep[k]
    && (parent[k] == k ==> rep[k] == k)
    && (parent[k] != k ==> rank[k] < rank[parent[k]])
    && rank[k] <= top
  }

  ghost predicate Forest(parent: seq<nat>, rep: seq<nat>, rank: seq<nat>, top: nat) {
    && |rep| == |rank| == |parent|
    && (forall k :: 0 <= k < |parent| ==> parent[k] < |parent| && rep[k] < |parent|)
    && forall k :: 0 <= k < |parent| ==> Node(parent, rep, rank, top, k)
  }

  /** Path halving moves a pointer to the grandparent, and no element to another root. */
  lemma {:induction false} Halve(parent: seq<nat>, rep: seq<nat>, rank: seq<nat>, top: nat, i: nat)
    requires Forest(parent, rep, rank, top) && i < |parent| && parent[i] != i
    ensures parent[i] < |parent| && Forest(parent[i := parent[parent[i]]], rep, rank, top)
    ensures parent[parent[i]] < |parent| && rep[parent[parent[i]]] == rep[i] && rank[i] < rank[parent[parent[i]]] <= top
  {
    assert Node(parent, rep, rank, top, i);
    assert Node(parent, rep, rank, top, parent[i]);
    assert Node(parent, rep, rank, top, parent[parent[i]]);
    var q := parent[i := parent[parent[i]]];
    forall k | 0 <= k < |q| ensures Node(q, rep, rank, top, k) {
      assert Node(parent, rep, rank, top, k);
    }
  }

  function Raised(rank: seq<nat>, ri: nat, rj: nat): seq<nat>
    requires ri < |rank| && rj < |rank|
  {
    if rank[rj] <= rank[ri] then rank[rj := rank[ri] + 1] else rank
  }

  /** Pointing one root at another merges their trees. */
  lemma {:induction false} Link(parent: seq<nat>, rep: seq<nat>, rank: seq<nat>, top: nat, ri: nat, rj: nat)
    requires Forest(parent, rep, rank, top)
    requires ri < |parent| && rj < |parent| && ri != rj && parent[ri] == ri && parent[rj] == rj
    ensures Forest(parent[ri := rj], Merged(rep, ri, rj), Raised(rank, ri, rj), top + 1)
  {
    var q, merged, raised, top' := parent[ri := rj], Merged(rep, ri, rj), Raised(rank, ri, rj), top + 1;
    assert Node(parent, rep, rank, top, ri);
    assert Node(parent, rep, rank, top, rj);
    forall k | 0 <= k < |q| ensures Node(q, merged, raised, top', k) {
      assert Node(parent, rep, rank, top, k);
      assert Node(parent, rep, rank, top, parent[k]);
    }
  }

  class UnionFind {
    var parent: array<nat>
    /** The root of every element. */
    ghost var rep: seq<nat>
    /** A number that grows along parent pointers, so following them ends. */
    ghost var rank: seq<nat>
    ghost var top: nat

    ghost predicate Valid()
      reads this, parent
    {
      Forest(parent[..], rep, rank, top)
    }

    constructor (n: nat)
      ensures Valid() && fresh(parent) && parent.Length == n
      ensures rep == Singletons(n)
    {
      parent := new nat[n](i => i);
      rep := Singletons(n);
      rank := seq(n, k requires 0 <= k < n => 0);
      top := 0;
    }

    method Find(start: nat) returns (root: nat)
      requires Valid() && start < parent.Length
      modifies parent
      ensures Valid() && root < |rep| && root == rep[start] && parent[root] == root
    {
      var i: nat := start;
      assert Node(parent[..], rep, rank, top, i);
      while parent[i] != i
        invariant Valid() && i < parent.Length && rep[i] == rep[start]
        decreases top - rank[i]
      {
        Halve(parent[..], rep, rank, top, i);
        ghost var before := parent[..];
        parent[i] := parent[parent[i]];
        assert parent[..] == before[i := before[before[i]]];
        i := parent[i];
      }
      assert Node(parent[..], rep, rank, top, i);
      root := i;
    }

    method Union(i: nat, j: nat)
      requires Valid() && i < parent.Length && j < parent.Length
      modifies this`rep, this`rank, this`top, parent
      ensures Valid()
      ensures |rep| == |old(rep)| && rep == Merged(old(rep), i, j)
    {
      var ri := Find(i);
      var rj := Find(j);
      RootsRepresent(parent[..], rep, rank, top, i, j);
      if ri != rj {
        Link(parent[..], rep, rank, top, ri, rj);
        ghost var before := parent[..];
        rank := Raised(rank, ri, rj);
        rep := Merged(rep, ri, rj);
        top := top + 1;
        parent[ri] := rj;
        assert parent[..] == before[ri := rj];
      }
    }
  }

  /** rep is what following the parent pointers finds, from every element. */
  lemma {:induction false} RepIsRoot(parent: seq<nat>, rep: seq<nat>, rank: seq<nat>, top: nat, i: nat)
    returns (k: nat)
    requires Forest(parent, rep, rank, top) && i < |parent|
    ensures Follow(parent, i, k) == rep[i] && parent[rep[i]] == rep[i]
    decreases top - rank[i]
  {
    assert Node(parent, rep, rank, top, i);
    if parent[i] == i {
      k := 0;
    } else {
      assert Node(parent, rep, rank, top, parent[i]);
      var k' := RepIsRoot(parent, rep, rank, top, parent[i]);
      k := k' + 1;
    }
  }

  lemma {:induction false} RootsRepresent(parent: seq<nat>, rep: seq<nat>, rank: seq<nat>, top: nat, i: nat, j: nat)
    requires Forest(parent, rep, rank, top) && i < |parent| && j < |parent|
    ensures parent[rep[i]] == rep[i] && parent[rep[j]] == rep[j] && rep[rep[i]] == rep[i] && rep[rep[j]] == rep[j]
    ensures Merged(rep, rep[i], rep[j]) == Merged(rep, i, j)
    ensures rep[i] == rep[j] ==> Merged(rep, i, j) == rep
  {
    assert Node(parent, rep, rank, top, i);
    assert Node(parent, rep, rank, top, j);
    assert Node(parent, rep, rank, top, rep[i]);
    assert Node(parent, rep, rank, top, rep[j]);
  }
}
