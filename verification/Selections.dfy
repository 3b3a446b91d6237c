/** What a test keeps of a sequence, in order, told by places. */
module Selections {

  /** chosen has at i what all has at the i-th of these places, and it passes. */
  predicate StandsAt<T(==)>(all: seq<T>, test: T -> bool, chosen: seq<T>, at: seq<nat>, i: nat)
    requires i < |at| == |chosen|
  {
    at[i] < |all| && chosen[i] == all[at[i]] && test(chosen[i])
  }

  predicate Rising(at: seq<nat>) {
    forall i, j :: 0 <= i < j < |at| ==> at[i] < at[j]
  }

  predicate Among(at: seq<nat>, x: nat) {
    exists i :: 0 <= i < |at| && at[i] == x
  }

  /** chosen stands at these places of all, in order, and they are all the places that pass the test. */
  ghost predicate PicksAt<T>(all: seq<T>, test: T -> bool, chosen: seq<T>, at: seq<nat>) {
    && |at| == |chosen|
    && (forall i: nat :: i < |at| ==> StandsAt(all, test, chosen, at, i))
    && Rising(at)
    && (forall x: nat :: x < |all| ==> (test(all[x]) <==> Among(at, x)))
  }

  /** chosen is what passes the test, each place once and in order. */
  ghost predicate Picks<T>(all: seq<T>, test: T -> bool, chosen: seq<T>) {
    exists at: seq<nat> :: PicksAt(all, test, chosen, at)
  }

  lemma {:induction false} PicksNone<T>(test: T -> bool)
    ensures Picks([], test, [])
  {
    assert PicksAt([], test, [], []);
  }

  lemma {:induction false} AmongSnoc(at: seq<nat>, last: nat, x: nat)
    ensures Among(at + [last], x) <==> Among(at, x) || x == last
  {
    if Among(at, x) {
      var i :| 0 <= i < |at| && at[i] == x;
      assert (at + [last])[i] == x;
    }
    assert (at + [last])[|at|] == last;
  }

  lemma {:induction false} StandsStill<T>(all: seq<T>, more: seq<T>, test: T -> bool, chosen: seq<T>, next: seq<T>,
        at: seq<nat>, to: seq<nat>, i: nat)
    requires i < |at| == |chosen| && |to| == |next| && StandsAt(all, test, chosen, at, i)
    ensures i < |at + to| == |chosen + next| && StandsAt(all + more, test, chosen + next, at + to, i)
  {
  }

  lemma {:induction false} PicksSnoc<T>(all: seq<T>, last: T, test: T -> bool, chosen: seq<T>)
    requires Picks(all, test, chosen)
    ensures Picks(all + [last], test, if test(last) then chosen + [last] else chosen)
  {
    var at: seq<nat> :| PicksAt(all, test, chosen, at);
    var next, to := if test(last) then [last] else [], if test(last) then [|all|] else [];
    var longer, places := chosen + next, at + to;
    forall i: nat | i < |places| ensures StandsAt(all + [last], test, longer, places, i) {
      if i < |at| {
        StandsStill(all, [last], test, chosen, next, at, to, i);
      }
    }
    forall i, j | 0 <= i < j < |places| ensures places[i] < places[j] {
      assert StandsAt(all, test, chosen, at, i);
    }
    forall x: nat | x < |all + [last]| ensures test((all + [last])[x]) <==> Among(places, x) {
      if test(last) {
        AmongSnoc(at, |all|, x);
      } else {
        assert places == at;
      }
      if x < |all| {
        assert (all + [last])[x] == all[x];
      } else {
        NotAmong(all, test, chosen, at);
      }
    }
    assert PicksAt(all + [last], test, longer, places);
    assert longer == if test(last) then chosen + [last] else chosen;
  }

  lemma {:induction false} NotAmong<T>(all: seq<T>, test: T -> bool, chosen: seq<T>, at: seq<nat>)
    requires PicksAt(all, test, chosen, at)
    ensures !Among(at, |all|)
  {
    forall i: nat | i < |at| ensures at[i] != |all| {
      assert StandsAt(all, test, chosen, at, i);
    }
  }

  /** Exactly the entries that pass are kept. */
  lemma {:induction false} PicksMembers<T>(all: seq<T>, test: T -> bool, chosen: seq<T>)
    requires Picks(all, test, chosen)
    ensures forall e :: e in chosen <==> e in all && test(e)
  {
    var at: seq<nat> :| PicksAt(all, test, chosen, at);
    forall e | e in all && test(e) ensures e in chosen {
      var x :| 0 <= x < |all| && all[x] == e;
      assert Among(at, x);
      var i :| 0 <= i < |at| && at[i] == x;
      assert StandsAt(all, test, chosen, at, i);
    }
    forall e | e in chosen ensures e in all && test(e) {
      var i: nat :| i < |chosen| && chosen[i] == e;
      assert StandsAt(all, test, chosen, at, i);
    }
  }

  /** Of two entries that pass, the earlier one stands first. */
  lemma {:induction false} PicksInOrder<T>(all: seq<T>, test: T -> bool, chosen: seq<T>, x: nat, y: nat)
    returns (i: nat, j: nat)
    requires Picks(all, test, chosen) && x < y < |all| && test(all[x]) && test(all[y])
    ensures i < j < |chosen| && chosen[i] == all[x] && chosen[j] == all[y]
  {
    var at: seq<nat> :| PicksAt(all, test, chosen, at);
    assert Among(at, x) && Among(at, y);
    i :| 0 <= i < |at| && at[i] == x;
    j :| 0 <= j < |at| && at[j] == y;
    assert StandsAt(all, test, chosen, at, i) && StandsAt(all, test, chosen, at, j);
    RisingOrder(at, i, j);
  }

  lemma {:induction false} RisingOrder(at: seq<nat>, i: nat, j: nat)
    requires Rising(at) && i < |at| && j < |at|
    ensures i < j <==> at[i] < at[j]
  {
  }

  lemma {:induction false} PlacesAgree(a: seq<nat>, b: seq<nat>, n: nat)
    requires Rising(a) && Rising(b) && n <= |a|
    requires forall x: nat :: Among(a, x) <==> Among(b, x)
    ensures n <= |b| && a[..n] == b[..n]
    decreases n
  {
    if n > 0 {
      var m := n - 1;
      PlacesAgree(a, b, m);
      assert Among(a, a[m]) && Among(b, a[m]);
      var i: nat :| i < |b| && b[i] == a[m];
      if i < m {
        assert b[..m][i] == a[..m][i];
        RisingOrder(a, i, m);
      }
      assert Among(b, b[m]) && Among(a, b[m]);
      var k: nat :| k < |a| && a[k] == b[m];
      if k < m {
        assert b[..m][k] == a[..m][k];
        RisingOrder(b, k, m);
      }
      RisingOrder(b, m, i);
      RisingOrder(a, m, k);
      assert a[..n] == a[..m] + [a[m]] && b[..n] == b[..m] + [b[m]];
    }
  }

  /** There is one such sequence. */
  lemma {:induction false} PicksUnique<T>(all: seq<T>, test: T -> bool, a: seq<T>, b: seq<T>)
    requires Picks(all, test, a) && Picks(all, test, b)
    ensures a == b
  {
    var at: seq<nat> :| PicksAt(all, test, a, at);
    var bt: seq<nat> :| PicksAt(all, test, b, bt);
    forall x: nat ensures Among(at, x) <==> Among(bt, x) {
      if Among(at, x) {
        var i: nat :| i < |at| && at[i] == x;
        assert StandsAt(all, test, a, at, i);
      }
      if Among(bt, x) {
        var i: nat :| i < |bt| && bt[i] == x;
        assert StandsAt(all, test, b, bt, i);
      }
    }
    PlacesAgree(at, bt, |at|);
    PlacesAgree(bt, at, |bt|);
    assert at == at[..|at|] && bt == bt[..|bt|];
    forall i: nat | i < |a| ensures a[i] == b[i] {
      assert StandsAt(all, test, a, at, i) && StandsAt(all, test, b, bt, i);
    }
  }
}
