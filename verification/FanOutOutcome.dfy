/** When a fan-out fails, subscribes its thread and records a drop, told from what each pass finds. */
module FanOutOutcome {
  import opened Wrappers
  import opened Sessions
  import opened Router
  import opened RoutedRows

  /** The store pass k finds. */
  function Found(s: Store, a: Arrival, others: Meanwhile, k: nat): Store
    requires k <= |a.wirings|
  {
    FanOutSteps(s, a, others, k).0
  }

  /** The agent is given the message, to act on or for context. */
  predicate Delivers(w: Wiring, a: Arrival, t: Table) {
    w.known && (w.accumulate || Triggered(w, a, t))
  }

  /** The row's id is taken in its session, or the container does not wake. */
  predicate Fails(s: Store, w: Wiring, a: Arrival) {
    && Delivers(w, a, s.table) && NoCommand(w, a)
    && (!IdFree(s, SessionOf(s, AgentStep(a, w)), w, a)
        || (Triggered(w, a, s.table) && a.world.wakeFails(w.agent)))
  }

  /** A sticky wiring of a group chat, a message in a thread, and an adapter that has threads and can subscribe. */
  predicate WantsThread(w: Wiring, a: Arrival) {
    && w.engage == MentionSticky && a.group.isGroup && a.event.thread.Some?
    && a.world.adapter.Some? && a.world.adapter.value.supportsThreads && a.world.adapter.value.canSubscribe
  }

  /** Whether something holds of a pass, told from what it finds. */
  type PassTest = nat -> bool

  function FailsAt(s: Store, a: Arrival, others: Meanwhile): PassTest {
    (k: nat) => k < |a.wirings| && Fails(Found(s, a, others, k), a.wirings[k], a)
  }

  function DeliversAt(s: Store, a: Arrival, others: Meanwhile): PassTest {
    (k: nat) => k < |a.wirings| && Delivers(a.wirings[k], a, Found(s, a, others, k).table)
  }

  /** Pass k triggers its agent, whose wiring wants the thread. */
  function WantsAt(s: Store, a: Arrival, others: Meanwhile): PassTest {
    (k: nat) => k < |a.wirings| &&
      Triggered(a.wirings[k], a, Found(s, a, others, k).table) && WantsThread(a.wirings[k], a)
  }

  predicate AnyBefore(n: nat, test: PassTest) {
    exists k: nat :: k < n && test(k)
  }

  /** A pass that is reached and succeeds passes the test. */
  predicate AnyReached(n: nat, fails: PassTest, test: PassTest) {
    exists k: nat :: k < n && !AnyBefore(k + 1, fails) && test(k)
  }

  /** What the first n passes count. */
  predicate Told(fails: PassTest, delivers: PassTest, wants: PassTest, n: nat, t: Tally) {
    && (t.failed <==> AnyBefore(n, fails))
    && (!t.failed && t.engaged + t.accumulated == 0 <==> !AnyBefore(n, delivers))
    && (t.subscribed <==> AnyReached(n, fails, wants))
  }

  /** What one pass counts. */
  predicate CountsOne(fails: bool, delivers: bool, wants: bool, t: Tally, u: Tally) {
    && u.failed == fails
    && (!u.failed && u.engaged + u.accumulated == 0 <==> t.engaged + t.accumulated == 0 && !delivers)
    && u.subscribed == (t.subscribed || (!fails && wants))
  }

  lemma {:induction false} FailsIff(s: Store, w: Wiring, a: Arrival)
    ensures StepThrows(s, AgentStep(a, w)) <==> Fails(s, w, a)
    ensures VerdictOn(w, a, s.table) != Declined <==> Delivers(w, a, s.table)
  {
    VerdictIff(w, a, s.table);
    FreeIff(s, AgentStep(a, w));
  }

  lemma {:induction false} CountsRight(s: Store, w: Wiring, a: Arrival, t: Tally)
    requires !t.failed
    ensures CountsOne(Fails(s, w, a), Delivers(w, a, s.table), Triggered(w, a, s.table) && WantsThread(w, a),
                      t, CountStep(t, s, AgentStep(a, w)))
  {
    FailsIff(s, w, a);
    VerdictIff(w, a, s.table);
    assert Subscribes(w, a) <==> WantsThread(w, a);
  }

  lemma {:induction false} FailedTold(fails: PassTest, delivers: PassTest, wants: PassTest, n: nat, t: Tally)
    requires Told(fails, delivers, wants, n, t) && t.failed && (fails(n) ==> delivers(n))
    ensures Told(fails, delivers, wants, n + 1, t)
  {
    var k: nat :| k < n && fails(k);
    assert AnyBefore(n + 1, fails);
  }

  lemma {:induction false} CountTold(fails: PassTest, delivers: PassTest, wants: PassTest, n: nat, t: Tally, u: Tally)
    requires Told(fails, delivers, wants, n, t) && !t.failed
    requires CountsOne(fails(n), delivers(n), wants(n), t, u)
    ensures Told(fails, delivers, wants, n + 1, u)
  {
    assert !AnyBefore(n, fails);
    assert AnyBefore(n + 1, fails) <==> fails(n);
  }

  lemma {:induction false} FailuresDeliver(s: Store, a: Arrival, others: Meanwhile, k: nat)
    requires FailsAt(s, a, others)(k)
    ensures DeliversAt(s, a, others)(k)
  {
  }

  /** What the next pass makes of the count. */
  function NextTally(s: Store, a: Arrival, others: Meanwhile, n: nat, t: Tally): Tally
    requires n < |a.wirings|
  {
    if t.failed then t else CountStep(t, Found(s, a, others, n), AgentStep(a, a.wirings[n]))
  }

  lemma {:induction false} NextTold(s: Store, a: Arrival, others: Meanwhile, n: nat, t: Tally)
    requires n < |a.wirings| && Told(FailsAt(s, a, others), DeliversAt(s, a, others), WantsAt(s, a, others), n, t)
    ensures Told(FailsAt(s, a, others), DeliversAt(s, a, others), WantsAt(s, a, others), n + 1,
                 NextTally(s, a, others, n, t))
  {
    if t.failed {
      if FailsAt(s, a, others)(n) { FailuresDeliver(s, a, others, n); }
      FailedTold(FailsAt(s, a, others), DeliversAt(s, a, others), WantsAt(s, a, others), n, t);
    } else {
      CountsRight(Found(s, a, others, n), a.wirings[n], a, t);
      CountTold(FailsAt(s, a, others), DeliversAt(s, a, others), WantsAt(s, a, others), n, t,
        NextTally(s, a, others, n, t));
    }
  }

  lemma {:induction false} PassesCount(s: Store, a: Arrival, others: Meanwhile, n: nat)
    requires n < |a.wirings|
    ensures FanOutSteps(s, a, others, n + 1).1 == NextTally(s, a, others, n, FanOutSteps(s, a, others, n).1)
  {
  }

  type Telling = (nat, Tally) -> bool

  ghost predicate KeepsTelling(s: Store, a: Arrival, others: Meanwhile, told: Telling, n: nat)
    requires n < |a.wirings|
  {
    forall t :: told(n, t) ==> told(n + 1, NextTally(s, a, others, n, t))
  }

  lemma {:induction false} PassesTell(s: Store, a: Arrival, others: Meanwhile, told: Telling, n: nat)
    requires n <= |a.wirings| && told(0, NOTHING)
    requires forall k: nat :: k < n ==> KeepsTelling(s, a, others, told, k)
    ensures told(n, FanOutSteps(s, a, others, n).1)
  {
    if n > 0 {
      PassesTell(s, a, others, told, n - 1);
      PassesCount(s, a, others, n - 1);
      assert KeepsTelling(s, a, others, told, n - 1);
    }
  }

  function TellingBy(fails: PassTest, delivers: PassTest, wants: PassTest): Telling {
    (n: nat, t: Tally) => Told(fails, delivers, wants, n, t)
  }

  function TellingOf(s: Store, a: Arrival, others: Meanwhile): Telling {
    TellingBy(FailsAt(s, a, others), DeliversAt(s, a, others), WantsAt(s, a, others))
  }

  lemma {:induction false} TellingKept(s: Store, a: Arrival, others: Meanwhile, n: nat)
    requires n < |a.wirings|
    ensures KeepsTelling(s, a, others, TellingOf(s, a, others), n)
  {
    forall t | TellingOf(s, a, others)(n, t) ensures TellingOf(s, a, others)(n + 1, NextTally(s, a, others, n, t)) {
      NextTold(s, a, others, n, t);
    }
  }

  lemma {:induction false} AllTellingKept(s: Store, a: Arrival, others: Meanwhile, n: nat)
    requires n <= |a.wirings|
    ensures forall k: nat :: k < n ==> KeepsTelling(s, a, others, TellingOf(s, a, others), k)
  {
    forall k: nat | k < n ensures KeepsTelling(s, a, others, TellingOf(s, a, others), k) {
      TellingKept(s, a, others, k);
    }
  }

  lemma {:induction false} StartTold(s: Store, a: Arrival, others: Meanwhile)
    ensures TellingOf(s, a, others)(0, NOTHING)
  {
    NothingTold(FailsAt(s, a, others), DeliversAt(s, a, others), WantsAt(s, a, others));
  }

  lemma {:induction false} PassesTold(s: Store, a: Arrival, others: Meanwhile, n: nat)
    requires n <= |a.wirings|
    ensures TellingOf(s, a, others)(n, FanOutSteps(s, a, others, n).1)
  {
    StartTold(s, a, others);
    AllTellingKept(s, a, others, n);
    PassesTell(s, a, others, TellingOf(s, a, others), n);
  }

  lemma {:induction false} NothingTold(fails: PassTest, delivers: PassTest, wants: PassTest)
    ensures Told(fails, delivers, wants, 0, NOTHING)
  {
  }

  /**
    Whatever other fan-outs do at its suspensions, a fan-out fails exactly if one of its passes does; it records a
    drop exactly if no pass delivers; and it subscribes the thread exactly if a pass that wants it is reached,
    triggers its agent and succeeds.
   */
  lemma {:induction false} FanOutIff(s: Store, a: Arrival, others: Meanwhile)
    ensures var n, tally := |a.wirings|, FanOutSteps(s, a, others, |a.wirings|).1;
            && (tally.failed <==> AnyBefore(n, FailsAt(s, a, others)))
            && (tally.subscribed <==> AnyReached(n, FailsAt(s, a, others), WantsAt(s, a, others)))
            && DropRecord(a.event.address, tally) ==
               if AnyBefore(n, DeliversAt(s, a, others)) then [] else [(a.event.address, NoAgentEngaged)]
  {
    PassesTold(s, a, others, |a.wirings|);
  }

  /** A pass that is reached and delivers takes its step, then the others take theirs; no other pass does anything. */
  lemma {:induction false} PassTakesStep(s: Store, a: Arrival, others: Meanwhile, n: nat)
    requires n < |a.wirings|
    ensures var before := Found(s, a, others, n);
            Found(s, a, others, n + 1) ==
            if !AnyBefore(n, FailsAt(s, a, others)) && DeliversAt(s, a, others)(n)
            then RunSteps(StepOn(before, AgentStep(a, a.wirings[n])), others(n)) else before
  {
    PassesTold(s, a, others, n);
    FailsIff(Found(s, a, others, n), a.wirings[n], a);
  }
}
