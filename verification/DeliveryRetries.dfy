/** Which messages get all their own tries: one counter serves every session. */
module DeliveryRetries {
  import opened Delivery

  // ----- the counter in terms of the calls so far -----

  /** A finished call for a message. */
  datatype Try = Try(key: Key, ok: bool)

  /** The host after the calls finished so far, in the order in which they ended, whichever drains they belong to. */
  function After(tries: seq<Try>): Host {
    if tries == [] then START.host else
    var last := tries[|tries| - 1];
    Settle(After(tries[..|tries| - 1]), last.key, last.ok)
  }

  /** The failures under the id since the last success under it, in any session. */
  function Streak(tries: seq<Try>, id: Id): nat {
    if tries == [] then 0 else
    var last, before := tries[|tries| - 1], Streak(tries[..|tries| - 1], id);
    if last.key.id != id then before else if last.ok then 0 else before + 1
  }

  lemma {:induction false} CounterIsStreak(tries: seq<Try>, id: Id)
    ensures Attempts(After(tries), id) == Streak(tries, id) % MAX_DELIVERY_ATTEMPTS
  {
    if tries != [] {
      CounterIsStreak(tries[..|tries| - 1], id);
    }
  }

  /** A failure gives a message up exactly if it is a third one in the streak of its id, whoever the others were of. */
  lemma {:induction false} GivesUpIff(tries: seq<Try>, k: Key)
    requires k !in After(tries).delivered
    ensures k in After(tries + [Try(k, false)]).delivered <==> Streak(tries, k.id) % 3 == 2
  {
    var all := tries + [Try(k, false)];
    assert all[..|all| - 1] == tries;
    CounterIsStreak(tries, k.id);
  }

  // ----- when a message gets all its own tries -----

  /** Every message is tried at most three times, and given up only after three tries of its own. */
  ghost predicate OwnRetries(w: World) {
    forall k ::
      && Count(w.tries, k) <= MAX_DELIVERY_ATTEMPTS
      && (k in w.host.delivered && w.host.delivered[k] == Failed ==> Count(w.tries, k) == MAX_DELIVERY_ATTEMPTS)
  }

  ghost predicate UniqueIds(keys: set<Key>) {
    forall j, k :: j in keys && k in keys && j.id == k.id ==> j == k
  }

  ghost predicate AppendsOnly(steps: seq<Step>, keys: set<Key>) {
    forall i :: 0 <= i < |steps| && steps[i].DoAppend? ==> steps[i].key in keys
  }

  /** Whatever interleaves, messages get their own retries: exactly if no two sessions' messages share an id. */
  lemma {:induction false} OwnRetriesIff(keys: set<Key>)
    ensures (forall steps :: IsRun(START, steps) && AppendsOnly(steps, keys) ==> OwnRetries(Run(START, steps))) <==>
            UniqueIds(keys)
  {
    if UniqueIds(keys) {
      forall steps | IsRun(START, steps) && AppendsOnly(steps, keys) ensures OwnRetries(Run(START, steps)) {
        UniqueIdsSuffice(keys, steps);
      }
    } else {
      var j, k :| j in keys && k in keys && j.id == k.id && j != k;
      SharedIdGivesUpEarly(j, k);
      assert AppendsOnly(SharedIdSteps(j, k), keys);
    }
  }

  ghost function OwnerIn(keys: set<Key>, id: Id): Id {
    if exists k :: k in keys && k.id == id then
      var k :| k in keys && k.id == id;
      k.session
    else ""
  }

  lemma {:induction false} UniqueIdsSuffice(keys: set<Key>, steps: seq<Step>)
    requires UniqueIds(keys) && IsRun(START, steps) && AppendsOnly(steps, keys)
    ensures OwnRetries(Run(START, steps))
  {
    var owner := id => OwnerIn(keys, id);
    forall i | 0 <= i < |steps| ensures Owned(steps[i], owner) {
      if steps[i].DoAppend? {
        assert steps[i].key in keys;
      }
    }
    forall k ensures Count(Run(START, steps).tries, k) <= MAX_DELIVERY_ATTEMPTS {
      AtMostOnce(steps, owner, k);
    }
    forall k | k in Run(START, steps).host.delivered && Run(START, steps).host.delivered[k] == Failed
      ensures Count(Run(START, steps).tries, k) == MAX_DELIVERY_ATTEMPTS
    {
      AtMostOnce(steps, owner, k);
    }
  }

  lemma {:induction false} Chain(w: World, a: seq<Step>, b: seq<Step>)
    requires IsRun(w, a) && IsRun(Run(w, a), b)
    ensures IsRun(w, a + b) && Run(w, a + b) == Run(Run(w, a), b)
    decreases |a|
  {
    if a == [] {
      assert a + b == b;
    } else {
      assert (a + b)[1..] == a[1..] + b;
      Chain(Next(w, a[0]), a[1..], b);
    }
  }

  /** A whole drain of one message that fails. */
  function FailingDrain(k: Key): seq<Step> {
    [DoBegin(0, k.session, [k.id]), DoCall(0), DoReturn(0, false), DoEnd(0)]
  }

  predicate Idle(w: World) {
    w.drains == map[] && w.calls == map[] && w.host.inflight == {}
  }

  lemma {:induction false} OneStep(w: World, s: Step)
    requires Possible(w, s)
    ensures IsRun(w, [s]) && Run(w, [s]) == Next(w, s)
  {
    assert [s][1..] == [];
    assert IsRun(Next(w, s), []);
  }

  lemma {:induction false} TwoSteps(w: World, w1: World, w2: World, a: Step, b: Step)
    requires Possible(w, a) && Next(w, a) == w1 && Possible(w1, b) && Next(w1, b) == w2
    ensures IsRun(w, [a, b]) && Run(w, [a, b]) == w2
  {
    OneStep(w, a);
    OneStep(w1, b);
    Chain(w, [a], [b]);
    assert [a] + [b] == [a, b];
  }

  lemma {:induction false} FourSteps(w: World, w1: World, w2: World, w3: World, w4: World, steps: seq<Step>)
    requires |steps| == 4
    requires Possible(w, steps[0]) && Next(w, steps[0]) == w1 && Possible(w1, steps[1]) && Next(w1, steps[1]) == w2
    requires Possible(w2, steps[2]) && Next(w2, steps[2]) == w3 && Possible(w3, steps[3]) && Next(w3, steps[3]) == w4
    ensures IsRun(w, steps) && Run(w, steps) == w4
  {
    TwoSteps(w, w1, w2, steps[0], steps[1]);
    TwoSteps(w2, w3, w4, steps[2], steps[3]);
    Chain(w, [steps[0], steps[1]], [steps[2], steps[3]]);
    assert [steps[0], steps[1]] + [steps[2], steps[3]] == steps;
  }

  /** The one drain, of one message. */
  function OneDrain(k: Key, marks: map<Key, Status>, awaiting: bool): map<Ticket, Drain> {
    map[0 := Drain(k.session, Reading([k.id], marks), [], [k.id], awaiting)]
  }

  function DoneDrain(k: Key, marks: map<Key, Status>): map<Ticket, Drain> {
    map[0 := Drain(k.session, Reading([k.id], marks), [k.id], [], false)]
  }

  function Begun(w: World, k: Key): World {
    w.(host := w.host.(inflight := {k.session}), drains := OneDrain(k, w.host.delivered, false))
  }

  function Called(w: World, k: Key): World {
    w.(drains := OneDrain(k, w.host.delivered, true), calls := map[k := 0],
      tries := w.tries[k := Count(w.tries, k) + 1])
  }

  function Refused(w: World, k: Key): World {
    w.(host := Settle(w.host, k, false), drains := DoneDrain(k, w.host.delivered), calls := map[])
  }

  function Ended(w: World): World {
    w.(host := w.host.(inflight := {}), drains := map[])
  }

  lemma {:induction false} OneUndelivered(delivered: map<Key, Status>, k: Key)
    requires k !in delivered
    ensures Undelivered(delivered, k.session, [k.id]) == [k.id]
  {
    assert [k.id][..0] == [];
    assert Undelivered(delivered, k.session, []) == [];
  }

  lemma {:induction false} DrainBegins(w: World, k: Key)
    requires Idle(w) && k in w.outbound && k !in w.host.delivered
    ensures var s := DoBegin(0, k.session, [k.id]); Possible(w, s) && Next(w, s) == Begun(w, k)
  {
    OneUndelivered(w.host.delivered, k);
    assert {} + {k.session} == {k.session};
  }

  lemma {:induction false} DrainCalls(w: World, k: Key)
    requires w.drains == OneDrain(k, w.host.delivered, false) && w.calls == map[]
    ensures Possible(w, DoCall(0)) && Next(w, DoCall(0)) == Called(w, k)
  {
  }

  lemma {:induction false} DrainIsRefused(w: World, k: Key)
    requires w.drains == OneDrain(k, w.host.delivered, true) && w.calls == map[k := 0]
    ensures Possible(w, DoReturn(0, false)) && Next(w, DoReturn(0, false)) == Refused(w, k)
  {
    var done := DoneDrain(k, w.host.delivered);
    assert [k.id][1..] == [] && [] + [k.id] == [k.id];
    assert w.drains[0 := done[0]] == done;
    assert w.calls - {k} == map[];
  }

  lemma {:induction false} DrainEnds(w: World, k: Key, marks: map<Key, Status>)
    requires w.drains == DoneDrain(k, marks) && w.host.inflight == {k.session}
    ensures Possible(w, DoEnd(0)) && Next(w, DoEnd(0)) == Ended(w)
  {
    assert w.host.inflight - {k.session} == {};
    assert w.drains - {0} == map[];
  }

  /** One try more, and the failure settled. */
  predicate TriedInVain(w: World, w': World, k: Key) {
    && Idle(w') && w'.host == Settle(w.host, k, false) && w'.outbound == w.outbound
    && w'.tries == w.tries[k := Count(w.tries, k) + 1]
  }

  lemma {:induction false} WholeDrain(w: World, k: Key)
    requires Idle(w)
    ensures TriedInVain(w, Ended(Refused(Called(Begun(w, k), k), k)), k)
  {
  }

  lemma {:induction false} FailingDrainRuns(w: World, k: Key)
    requires Idle(w) && k in w.outbound && k !in w.host.delivered
    ensures IsRun(w, FailingDrain(k)) && TriedInVain(w, Run(w, FailingDrain(k)), k)
  {
    WholeDrain(w, k);
    var w1 := Begun(w, k);
    var w2 := Called(w1, k);
    var w3 := Refused(w2, k);
    DrainBegins(w, k);
    DrainCalls(w1, k);
    DrainIsRefused(w2, k);
    DrainEnds(w3, k, w2.host.delivered);
    FourSteps(w, w1, w2, w3, Ended(w3), FailingDrain(k));
  }

  /** Two failing drains of one message and one of another with its id. */
  function SharedIdSteps(a: Key, b: Key): seq<Step> {
    [DoAppend(a)] + [DoAppend(b)] + FailingDrain(a) + FailingDrain(a) + FailingDrain(b)
  }

  lemma {:induction false} SharedIdGivesUpEarly(a: Key, b: Key)
    requires a.id == b.id && a != b
    ensures IsRun(START, SharedIdSteps(a, b))
    ensures var w := Run(START, SharedIdSteps(a, b));
            b in w.host.delivered && w.host.delivered[b] == Failed && Count(w.tries, b) == 1
  {
    var appends := [DoAppend(a)] + [DoAppend(b)];
    OneStep(START, DoAppend(a));
    OneStep(Next(START, DoAppend(a)), DoAppend(b));
    Chain(START, [DoAppend(a)], [DoAppend(b)]);
    var w1 := Run(START, appends);
    FailingDrainRuns(w1, a);
    Chain(START, appends, FailingDrain(a));
    var w2 := Run(w1, FailingDrain(a));
    FailingDrainRuns(w2, a);
    Chain(START, appends + FailingDrain(a), FailingDrain(a));
    var w3 := Run(w2, FailingDrain(a));
    FailingDrainRuns(w3, b);
    Chain(START, appends + FailingDrain(a) + FailingDrain(a), FailingDrain(b));
  }
}
