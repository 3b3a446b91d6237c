/** Which rows routing writes, told from the wiring, the message, the gates and the store alone. */
module RoutedRows {
  import opened Wrappers
  import opened Sessions
  import opened Router

  /** The adapter gives the chat's sub-threads sessions of their own. */
  predicate Threaded(a: Arrival) {
    a.world.adapter.Some? && a.world.adapter.value.supportsThreads
  }

  /** The message's thread, which an adapter without threads does not tell apart from the chat. */
  function OwnThread(a: Arrival): Option<Id> {
    if a.world.adapter.Some? && !a.world.adapter.value.supportsThreads then None else a.event.thread
  }

  /** A session of this thread, as a lookup reads it: an empty id is none. */
  predicate OfThread(thread: Option<Id>, own: Option<Id>) {
    thread == if own == Some("") then None else own
  }

  /** The table has an active session of the agent in this chat and the message's thread. */
  predicate Followed(w: Wiring, a: Arrival, t: Table) {
    exists k :: 0 <= k < |t| && t[k].active && t[k].agent == w.agent && t[k].group == Some(a.group.id) &&
                OfThread(t[k].thread, OwnThread(a))
  }

  /** What the configuration asks for: a pattern that matches or cannot be told, a mention, or a followed thread. */
  predicate Wanted(w: Wiring, a: Arrival, t: Table) {
    match w.engage
    case Pattern(None) => true
    case Pattern(Some(p)) => p == "." || a.world.regex(p, a.event.text) != Some(false)
    case Mention => a.event.isMention
    case MentionSticky => a.event.isMention || (a.group.isGroup && Followed(w, a, t))
    case OtherEngage => false
  }

  predicate Triggered(w: Wiring, a: Arrival, t: Table) {
    w.known && Wanted(w, a, t) && a.world.access(w.agent) && a.world.scope(w.agent)
  }

  /** No slash command, or one that is let through. */
  predicate NoCommand(w: Wiring, a: Arrival) {
    a.event.isChat ==> a.world.command(w.agent) == PassCommand
  }

  /** No row of this session has the message's id for the agent. */
  predicate IdFree(s: Store, session: nat, w: Wiring, a: Arrival) {
    forall k :: 0 <= k < |s.inbox| && s.inbox[k].session == session ==>
      s.inbox[k].id != a.event.id + ":" + w.agent
  }

  /** The session a message goes to: by thread where the adapter has threads in a group, else as configured. */
  predicate RightSession(w: Wiring, a: Arrival, s: Session) {
    && s.active && s.agent == w.agent
    && (w.mode != AgentShared ==> s.group == Some(a.group.id))
    && (w.mode == PerThread || (w.mode == Shared && Threaded(a) && a.group.isGroup) ==>
          OwnThread(a) != Some("") ==> s.thread == OwnThread(a))
    && (w.mode == Shared && !(Threaded(a) && a.group.isGroup) ==> s.thread == None)
  }

  /** An agent-shared message goes to the active session of the agent created last, if there is one. */
  predicate RightShared(w: Wiring, t: Table, k: nat) {
    w.mode == AgentShared && (exists j :: 0 <= j < |t| && t[j].active && t[j].agent == w.agent) ==>
      k < |t| && forall j :: 0 <= j < |t| && t[j].active && t[j].agent == w.agent ==> t[j].createdAt <= t[k].createdAt
  }

  lemma {:induction false} WantedIff(w: Wiring, a: Arrival, t: Table)
    ensures Engages(w, a, t) <==> Wanted(w, a, t)
  {
    match w.engage
    case Pattern(pattern) =>
      if pattern.Some? {
        var answer := a.world.regex(pattern.value, a.event.text);
        if answer.Some? {
          assert if answer.value then answer == Some(true) else answer == Some(false);
        }
      }
    case Mention =>
    case OtherEngage =>
    case MentionSticky =>
      var found := Find(t, w.agent, a.group.id, ThreadOf(a));
      if found.Some? {
        assert Has(t[found.value], w.agent, Some(a.group.id), LookupThread(ThreadOf(a)));
        assert OfThread(t[found.value].thread, OwnThread(a));
      }
      if Followed(w, a, t) {
        var k :| 0 <= k < |t| && t[k].active && t[k].agent == w.agent && t[k].group == Some(a.group.id) &&
                 OfThread(t[k].thread, OwnThread(a));
        assert Has(t[k], w.agent, Some(a.group.id), LookupThread(ThreadOf(a)));
      }
  }

  /** The session of a delivering step, in the store after it. */
  function SessionOf(s: Store, step: AgentStep): nat {
    Resolve(s.table, RequestFor(step.wiring, step.arrival), step.arrival.world.now).1
  }

  /** The row a step writes, if it writes one. */
  predicate Wrote(s: Store, step: AgentStep, trigger: bool) {
    var after := StepOn(s, step);
    |after.inbox| == |s.inbox| + 1 && after.inbox[..|s.inbox|] == s.inbox && after.inbox[|s.inbox|].trigger == trigger
  }

  lemma {:induction false} FreeIff(s: Store, step: AgentStep)
    ensures IdFree(s, SessionOf(s, step), step.wiring, step.arrival) <==>
            !IsTaken(s.inbox, SessionOf(s, step), MessageId(step.arrival.event.id, step.wiring.agent))
  {
  }

  lemma {:induction false} VerdictIff(w: Wiring, a: Arrival, t: Table)
    ensures VerdictOn(w, a, t) == Engaged <==> Triggered(w, a, t)
    ensures VerdictOn(w, a, t) == Accumulated <==> w.known && w.accumulate && !Triggered(w, a, t)
  {
    WantedIff(w, a, t);
  }

  /**
    A step writes a row that wakes the agent exactly if the wiring asks for it and the gates, the command gate and
    the primary key let it; it writes one kept for context exactly if the agent accumulates and that row is not
    asked for or not let through the gates; otherwise it writes none.
   */
  lemma {:induction false} StepWritesIff(s: Store, step: AgentStep)
    ensures var w, a := step.wiring, step.arrival;
            var free := NoCommand(w, a) && IdFree(s, SessionOf(s, step), w, a);
            && (Wrote(s, step, true) <==> Triggered(w, a, s.table) && free)
            && (Wrote(s, step, false) <==> w.known && w.accumulate && !Triggered(w, a, s.table) && free)
            && (StepOn(s, step).inbox == s.inbox <==> !Wrote(s, step, true) && !Wrote(s, step, false))
  {
    VerdictIff(step.wiring, step.arrival, s.table);
    FreeIff(s, step);
    var after := StepOn(s, step).inbox;
    assert VerdictOn(step.wiring, step.arrival, s.table) != Declined ==>
             after == s.inbox + RowsOf(s.inbox, step.wiring, step.arrival, SessionOf(s, step),
                                       VerdictOn(step.wiring, step.arrival, s.table) == Engaged);
  }

  /** A row written carries the message's id for the agent and its thread, and lies in the right session. */
  lemma {:induction false} RowIsRight(s: Store, step: AgentStep)
    requires |StepOn(s, step).inbox| > |s.inbox|
    ensures var after := StepOn(s, step);
            var row := after.inbox[|s.inbox|];
            && row.id == step.arrival.event.id + ":" + step.wiring.agent
            && row.thread == OwnThread(step.arrival)
            && row.session == SessionOf(s, step) < |after.table|
            && RightSession(step.wiring, step.arrival, after.table[row.session])
            && RightShared(step.wiring, s.table, row.session)
  {
    ResolvedIsRight(s.table, RequestFor(step.wiring, step.arrival), step.arrival.world.now);
  }

  // ----- runs -----

  /** The store when the n-th step is taken. */
  function Before(s: Store, steps: seq<AgentStep>, n: nat): Store
    requires n <= |steps|
  {
    RunSteps(s, steps[..n])
  }

  lemma {:induction false} StepAt(s: Store, steps: seq<AgentStep>, n: nat)
    requires n < |steps|
    ensures Before(s, steps, n + 1) == StepOn(Before(s, steps, n), steps[n])
  {
    assert steps[..n + 1][..n] == steps[..n];
  }

  /** The row at this place of the queues is the one the n-th step wrote. */
  ghost predicate WrittenBy(s: Store, steps: seq<AgentStep>, place: nat, n: nat)
    requires n < |steps|
  {
    var before := Before(s, steps, n);
    && place == |before.inbox|
    && exists trigger :: Wrote(before, steps[n], trigger)
  }

  lemma {:induction false} BeforeGrows(s: Store, steps: seq<AgentStep>, m: nat, n: nat)
    requires m <= n <= |steps|
    ensures Before(s, steps, m).inbox <= Before(s, steps, n).inbox
    decreases n
  {
    if m < n {
      BeforeGrows(s, steps, m, n - 1);
      StepAt(s, steps, n - 1);
      StepGrows(Before(s, steps, n - 1), steps[n - 1]);
    }
  }

  /** Every row of a run is written by exactly one of its steps, and every row a step writes stays as it is. */
  lemma {:induction false} RunRowsIff(s: Store, steps: seq<AgentStep>, place: nat)
    requires place >= |s.inbox|
    ensures place < |RunSteps(s, steps).inbox| <==> exists n :: 0 <= n < |steps| && WrittenBy(s, steps, place, n)
    ensures forall n :: 0 <= n < |steps| && WrittenBy(s, steps, place, n) ==>
              place < |RunSteps(s, steps).inbox| &&
              RunSteps(s, steps).inbox[place] == StepOn(Before(s, steps, n), steps[n]).inbox[place]
    ensures forall m, n :: 0 <= m < n < |steps| && WrittenBy(s, steps, place, m) ==> !WrittenBy(s, steps, place, n)
  {
    assert steps[..|steps|] == steps;
    forall n | 0 <= n < |steps| && WrittenBy(s, steps, place, n)
      ensures place < |RunSteps(s, steps).inbox|
      ensures RunSteps(s, steps).inbox[place] == StepOn(Before(s, steps, n), steps[n]).inbox[place]
    {
      StepAt(s, steps, n);
      BeforeGrows(s, steps, n + 1, |steps|);
    }
    forall m, n | 0 <= m < n < |steps| && WrittenBy(s, steps, place, m) ensures !WrittenBy(s, steps, place, n) {
      StepAt(s, steps, m);
      BeforeGrows(s, steps, m + 1, n);
    }
    if place < |RunSteps(s, steps).inbox| {
      var n := WriterOf(s, steps, place, |steps|);
    }
  }

  lemma {:induction false} WriterOf(s: Store, steps: seq<AgentStep>, place: nat, m: nat) returns (n: nat)
    requires |s.inbox| <= place && m <= |steps| && place < |Before(s, steps, m).inbox|
    ensures n < m && WrittenBy(s, steps, place, n)
    decreases m
  {
    if m > 0 {
      var before := Before(s, steps, m - 1);
      StepAt(s, steps, m - 1);
      if place < |before.inbox| {
        n := WriterOf(s, steps, place, m - 1);
      } else {
        n := m - 1;
        StepRows(before, steps[n]);
        var after := StepOn(before, steps[n]);
        assert after.inbox[..|before.inbox|] == before.inbox;
        assert Wrote(before, steps[n], after.inbox[|before.inbox|].trigger);
      }
    }
  }
}
