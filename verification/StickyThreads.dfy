/** The sticky rule over whole runs: which threads a mention-sticky agent follows. */
module StickyThreads {
  import opened Wrappers
  import opened Sessions
  import opened Router

  /** The thread has an active session of the agent: follow-ups without a mention engage it. */
  predicate Open(t: Table, agent: Id, group: Id, thread: Option<Id>) {
    Find(t, agent, group, thread).Some?
  }

  /** A mention, in this thread of this chat, that passes both gates. */
  predicate Opens(a: Arrival, agent: Id, group: Id, thread: Option<Id>) {
    && a.group.id == group
    && ThreadOf(a) == thread
    && a.event.isMention && a.world.access(agent) && a.world.scope(agent)
  }

  predicate Concerns(step: AgentStep, agent: Id, group: Id) {
    step.wiring.agent == agent && step.arrival.group.id == group
  }

  // ----- one step -----

  lemma {:induction false} OpenAfterResolve(t: Table, r: Request, now: int, agent: Id, group: Id, thread: Option<Id>)
    requires thread != Some("")
    ensures Open(Resolve(t, r, now).0, agent, group, thread) <==>
            Open(t, agent, group, thread) ||
            (Existing(t, r) == None && Has(NewSession(t, r, now), agent, Some(group), thread))
  {
    var after := Resolve(t, r, now).0;
    if Existing(t, r) == None {
      assert after[|t|] == NewSession(t, r, now);
      assert forall j :: 0 <= j < |t| ==> after[j] == t[j];
    }
  }

  /** Another agent's step, or one of another chat, opens no thread here. */
  lemma {:induction false} OthersOpenNothing(s: Store, step: AgentStep, agent: Id, group: Id, thread: Option<Id>)
    requires thread != Some("") && !Concerns(step, agent, group)
    ensures Open(StepOn(s, step).table, agent, group, thread) <==> Open(s.table, agent, group, thread)
  {
    OpenAfterResolve(s.table, RequestFor(step.wiring, step.arrival), step.arrival.world.now, agent, group, thread);
  }

  lemma {:induction false} OtherStepsOpenNothing(s: Store, steps: seq<AgentStep>, agent: Id, group: Id,
        thread: Option<Id>)
    requires thread != Some("") && forall k :: 0 <= k < |steps| ==> !Concerns(steps[k], agent, group)
    ensures Open(RunSteps(s, steps).table, agent, group, thread) <==> Open(s.table, agent, group, thread)
  {
    if steps != [] {
      OtherStepsOpenNothing(s, steps[..|steps| - 1], agent, group, thread);
      OthersOpenNothing(RunSteps(s, steps[..|steps| - 1]), steps[|steps| - 1], agent, group, thread);
    }
  }

  /** Whether a delivery files its session under the message's thread: all of it is known before the call. */
  predicate FilesUnderThread(t: Table, step: AgentStep) {
    match EffectiveMode(step.wiring, step.arrival)
    case PerThread => true
    case Shared => ThreadOf(step.arrival) == None
    case AgentShared => ThreadOf(step.arrival) == None && Newest(t, step.wiring.agent) == None
  }

  /**
    On any sessions and in any mode, a delivering step leaves its thread open exactly if it was open or the
    session is filed under it.
   */
  lemma {:induction false} DeliveryOpensIff(s: Store, step: AgentStep)
    requires VerdictOn(step.wiring, step.arrival, s.table) != Declined
    requires step.arrival.group.id != "" && ThreadOf(step.arrival) != Some("")
    ensures var agent, group, thread := step.wiring.agent, step.arrival.group.id, ThreadOf(step.arrival);
            Open(StepOn(s, step).table, agent, group, thread) <==>
            Open(s.table, agent, group, thread) || FilesUnderThread(s.table, step)
  {
    var agent, group, thread := step.wiring.agent, step.arrival.group.id, ThreadOf(step.arrival);
    OpenAfterResolve(s.table, RequestFor(step.wiring, step.arrival), step.arrival.world.now, agent, group, thread);
  }

  /**
    The follow-up of a delivered message: whatever other agents and chats do in between, a message of the
    thread without a mention engages exactly if the thread was open before or the session was filed under it.
   */
  lemma {:induction false} FollowUpIff(s: Store, step: AgentStep, between: seq<AgentStep>, next: AgentStep)
    requires VerdictOn(step.wiring, step.arrival, s.table) != Declined
    requires step.arrival.group.id != "" && ThreadOf(step.arrival) != Some("")
    requires forall k :: 0 <= k < |between| ==> !Concerns(between[k], step.wiring.agent, step.arrival.group.id)
    requires Concerns(next, step.wiring.agent, step.arrival.group.id)
             && ThreadOf(next.arrival) == ThreadOf(step.arrival)
    requires next.wiring.engage == MentionSticky && next.arrival.group.isGroup && !next.arrival.event.isMention
    ensures var agent, group, thread := step.wiring.agent, step.arrival.group.id, ThreadOf(step.arrival);
            Engages(next.wiring, next.arrival, RunSteps(StepOn(s, step), between).table) <==>
            Open(s.table, agent, group, thread) || FilesUnderThread(s.table, step)
  {
    DeliveryOpensIff(s, step);
    OtherStepsOpenNothing(StepOn(s, step), between, step.wiring.agent, step.arrival.group.id, ThreadOf(step.arrival));
  }

  // ----- sticky chats -----

  predicate StickyWiring(w: Wiring) {
    w.engage == MentionSticky && !w.accumulate && w.mode != AgentShared && w.known
  }

  /** In this group the agent is wired mention-sticky with the drop policy, and the adapter is registered. */
  predicate StickyChat(a: Arrival, agent: Id, group: Id) {
    a.group.id == group ==>
      && a.group.isGroup && a.world.adapter.Some? && a.event.thread != Some("")
      && forall k :: 0 <= k < |a.wirings| && a.wirings[k].agent == agent ==> StickyWiring(a.wirings[k])
  }

  lemma {:induction false} StickyOpens(s: Store, step: AgentStep, thread: Option<Id>)
    requires step.wiring in step.arrival.wirings && StickyChat(step.arrival, step.wiring.agent, step.arrival.group.id)
    requires step.arrival.group.id != "" && thread != Some("")
    ensures Open(StepOn(s, step).table, step.wiring.agent, step.arrival.group.id, thread) <==>
            Open(s.table, step.wiring.agent, step.arrival.group.id, thread) ||
            Opens(step.arrival, step.wiring.agent, step.arrival.group.id, thread)
  {
    var k :| 0 <= k < |step.arrival.wirings| && step.arrival.wirings[k] == step.wiring;
    assert StickyWiring(step.arrival.wirings[k]);
    OpenAfterResolve(s.table, RequestFor(step.wiring, step.arrival), step.arrival.world.now,
                     step.wiring.agent, step.arrival.group.id, thread);
  }

  // ----- the order of the agent's own steps -----

  predicate StickySteps(steps: seq<AgentStep>, agent: Id, group: Id) {
    forall k :: 0 <= k < |steps| ==>
      steps[k].wiring in steps[k].arrival.wirings && StickyChat(steps[k].arrival, agent, group)
  }

  predicate StepOpens(step: AgentStep, agent: Id, group: Id, thread: Option<Id>) {
    step.wiring.agent == agent && Opens(step.arrival, agent, group, thread)
  }

  predicate Opened(steps: seq<AgentStep>, agent: Id, group: Id, thread: Option<Id>) {
    exists k :: 0 <= k < |steps| && StepOpens(steps[k], agent, group, thread)
  }

  const EMPTY := Store([], [])

  lemma {:induction false} StickySnoc(steps: seq<AgentStep>, agent: Id, group: Id)
    requires StickySteps(steps, agent, group) && steps != []
    ensures StickySteps(steps[..|steps| - 1], agent, group)
    ensures var last := steps[|steps| - 1];
            last.wiring in last.arrival.wirings && StickyChat(last.arrival, agent, group)
  {
  }

  lemma {:induction false} OpenedSnoc(steps: seq<AgentStep>, agent: Id, group: Id, thread: Option<Id>)
    requires steps != []
    ensures Opened(steps, agent, group, thread) <==>
            Opened(steps[..|steps| - 1], agent, group, thread) || StepOpens(steps[|steps| - 1], agent, group, thread)
  {
    assert forall k :: 0 <= k < |steps| - 1 ==> steps[..|steps| - 1][k] == steps[k];
  }

  lemma {:induction false} OpenIffOpened(steps: seq<AgentStep>, agent: Id, group: Id, thread: Option<Id>)
    requires StickySteps(steps, agent, group) && group != "" && thread != Some("")
    ensures Open(RunSteps(EMPTY, steps).table, agent, group, thread) <==> Opened(steps, agent, group, thread)
  {
    if steps != [] {
      var rest, last := steps[..|steps| - 1], steps[|steps| - 1];
      StickySnoc(steps, agent, group);
      OpenIffOpened(rest, agent, group, thread);
      OpenedSnoc(steps, agent, group, thread);
      if Concerns(last, agent, group) {
        StickyOpens(RunSteps(EMPTY, rest), last, thread);
      } else {
        OthersOpenNothing(RunSteps(EMPTY, rest), last, agent, group, thread);
      }
    }
  }

  /**
    Whatever steps of whatever fan-outs run, in any order: a message without a mention engages exactly if
    the agent's step for a mention of its thread that passed both gates came before its own.
   */
  lemma {:induction false} StickyRule(steps: seq<AgentStep>, step: AgentStep)
    requires StickySteps(steps + [step], step.wiring.agent, step.arrival.group.id) && step.arrival.group.id != ""
    requires !step.arrival.event.isMention
    ensures Engages(step.wiring, step.arrival, RunSteps(EMPTY, steps).table) <==>
            Opened(steps, step.wiring.agent, step.arrival.group.id, ThreadOf(step.arrival))
  {
    var all := steps + [step];
    assert all[|steps|] == step;
    var k :| 0 <= k < |step.arrival.wirings| && step.arrival.wirings[k] == step.wiring;
    assert StickyWiring(step.arrival.wirings[k]);
    forall j | 0 <= j < |steps| ensures all[j] == steps[j] {
    }
    OpenIffOpened(steps, step.wiring.agent, step.arrival.group.id, ThreadOf(step.arrival));
  }

  // ----- messages in flight -----

  /** A message whose fan-out has passed its first `done` agents. */
  datatype Flight = Flight(arrival: Arrival, done: nat)

  /** The store, and the messages in the order of their arrival; a finished fan-out stays in the list. */
  datatype Net = Net(store: Store, flights: seq<Flight>)

  datatype NetStep = Arrives(arrival: Arrival) | Takes(flight: nat)

  predicate CanTake(n: Net, i: nat) {
    i < |n.flights| && n.flights[i].done < |n.flights[i].arrival.wirings|
  }

  function NextStep(f: Flight): AgentStep
    requires f.done < |f.arrival.wirings|
  {
    AgentStep(f.arrival, f.arrival.wirings[f.done])
  }

  /**
    Any message may take its next step at any time, or never, as after a delivery that threw; a step of a
    finished one does nothing.
   */
  function NetNext(n: Net, s: NetStep): Net {
    match s
    case Arrives(a) => n.(flights := n.flights + [Flight(a, 0)])
    case Takes(i) =>
      if !CanTake(n, i) then n else
      var f := n.flights[i];
      Net(StepOn(n.store, NextStep(f)), n.flights[i := f.(done := f.done + 1)])
  }

  type NetChange = (Net, NetStep) -> Net

  function Fold(next: NetChange, steps: seq<NetStep>): Net {
    if steps == [] then Net(EMPTY, []) else next(Fold(next, steps[..|steps| - 1]), steps[|steps| - 1])
  }

  function RunNet(steps: seq<NetStep>): Net {
    Fold(NetNext, steps)
  }

  predicate StickyNet(steps: seq<NetStep>, agent: Id, group: Id) {
    forall k :: 0 <= k < |steps| && steps[k].Arrives? ==> StickyChat(steps[k].arrival, agent, group)
  }

  /** The fan-out's step for this agent has run. */
  predicate Passed(f: Flight, agent: Id) {
    exists i :: 0 <= i < f.done && i < |f.arrival.wirings| && f.arrival.wirings[i].agent == agent
  }

  predicate OpenedBy(f: Flight, agent: Id, group: Id, thread: Option<Id>) {
    Passed(f, agent) && Opens(f.arrival, agent, group, thread)
  }

  predicate OpenedInNet(n: Net, agent: Id, group: Id, thread: Option<Id>) {
    exists k :: 0 <= k < |n.flights| && OpenedBy(n.flights[k], agent, group, thread)
  }

  predicate StickyFlights(n: Net, agent: Id, group: Id) {
    forall k :: 0 <= k < |n.flights| ==> StickyChat(n.flights[k].arrival, agent, group)
  }

  lemma {:induction false} PassedNext(f: Flight, agent: Id)
    requires f.done < |f.arrival.wirings|
    ensures Passed(f.(done := f.done + 1), agent) <==> Passed(f, agent) || f.arrival.wirings[f.done].agent == agent
  {
    if f.arrival.wirings[f.done].agent == agent {
      assert f.done < f.(done := f.done + 1).done;
    }
  }

  lemma {:induction false} TakeOpens(n: Net, i: nat, agent: Id, group: Id, thread: Option<Id>)
    requires CanTake(n, i) && StickyFlights(n, agent, group) && group != "" && thread != Some("")
    ensures Open(NetNext(n, Takes(i)).store.table, agent, group, thread) <==>
            Open(n.store.table, agent, group, thread) || StepOpens(NextStep(n.flights[i]), agent, group, thread)
  {
    var step := NextStep(n.flights[i]);
    if Concerns(step, agent, group) {
      assert step.wiring in step.arrival.wirings;
      StickyOpens(n.store, step, thread);
    } else {
      OthersOpenNothing(n.store, step, agent, group, thread);
    }
  }

  lemma {:induction false} TakeOpened(n: Net, i: nat, agent: Id, group: Id, thread: Option<Id>)
    requires CanTake(n, i)
    ensures OpenedInNet(NetNext(n, Takes(i)), agent, group, thread) <==>
            OpenedInNet(n, agent, group, thread) || StepOpens(NextStep(n.flights[i]), agent, group, thread)
  {
    var after := NetNext(n, Takes(i));
    PassedNext(n.flights[i], agent);
    assert forall k :: 0 <= k < |n.flights| && k != i ==> after.flights[k] == n.flights[k];
    if OpenedInNet(n, agent, group, thread) {
      var k :| 0 <= k < |n.flights| && OpenedBy(n.flights[k], agent, group, thread);
      assert OpenedBy(after.flights[k], agent, group, thread);
    }
    if StepOpens(NextStep(n.flights[i]), agent, group, thread) {
      assert OpenedBy(after.flights[i], agent, group, thread);
    }
  }

  lemma {:induction false} ArriveOpened(n: Net, a: Arrival, agent: Id, group: Id, thread: Option<Id>)
    ensures OpenedInNet(NetNext(n, Arrives(a)), agent, group, thread) <==> OpenedInNet(n, agent, group, thread)
  {
    var after := NetNext(n, Arrives(a));
    assert forall k :: 0 <= k < |n.flights| ==> after.flights[k] == n.flights[k];
  }

  lemma {:induction false} NetOpenIffOpened(steps: seq<NetStep>, agent: Id, group: Id, thread: Option<Id>)
    requires StickyNet(steps, agent, group) && group != "" && thread != Some("")
    ensures StickyFlights(RunNet(steps), agent, group)
    ensures Open(RunNet(steps).store.table, agent, group, thread) <==> OpenedInNet(RunNet(steps), agent, group, thread)
  {
    if steps != [] {
      var rest, last := steps[..|steps| - 1], steps[|steps| - 1];
      assert forall k :: 0 <= k < |rest| ==> rest[k] == steps[k];
      NetOpenIffOpened(rest, agent, group, thread);
      match last {
        case Arrives(a) => ArriveOpened(RunNet(rest), a, agent, group, thread);
        case Takes(i) =>
          if CanTake(RunNet(rest), i) {
            TakeOpens(RunNet(rest), i, agent, group, thread);
            TakeOpened(RunNet(rest), i, agent, group, thread);
          }
      }
    }
  }

  /**
    With any number of messages in flight, taking their steps in any order: at its step for a sticky agent
    a message without a mention engages exactly if the step for this agent of some mention of its thread
    that passes both gates has run.
   */
  lemma {:induction false} StickyRuleInFlight(steps: seq<NetStep>, j: nat)
    requires CanTake(RunNet(steps), j)
    requires var step := NextStep(RunNet(steps).flights[j]);
             step.arrival.group.id != "" && !step.arrival.event.isMention &&
             StickyNet(steps, step.wiring.agent, step.arrival.group.id)
    ensures var n := RunNet(steps);
            var step := NextStep(n.flights[j]);
            Engages(step.wiring, step.arrival, n.store.table) <==>
            OpenedInNet(n, step.wiring.agent, step.arrival.group.id, ThreadOf(step.arrival))
  {
    var n := RunNet(steps);
    var f := n.flights[j];
    var step := NextStep(f);
    ArrivedSticky(steps, step.wiring.agent, step.arrival.group.id);
    assert StickyChat(f.arrival, step.wiring.agent, step.arrival.group.id) && StickyWiring(f.arrival.wirings[f.done]);
    NetOpenIffOpened(steps, step.wiring.agent, step.arrival.group.id, ThreadOf(step.arrival));
  }

  lemma {:induction false} ArrivedSticky(steps: seq<NetStep>, agent: Id, group: Id)
    requires StickyNet(steps, agent, group)
    ensures StickyFlights(RunNet(steps), agent, group)
  {
    if steps != [] {
      var rest := steps[..|steps| - 1];
      assert forall k :: 0 <= k < |rest| ==> rest[k] == steps[k];
      ArrivedSticky(rest, agent, group);
    }
  }

  /** A message that arrived before the j-th opens the thread. */
  predicate MentionedBefore(n: Net, j: nat, agent: Id, group: Id, thread: Option<Id>) {
    exists k :: 0 <= k < j && k < |n.flights| && Opens(n.flights[k].arrival, agent, group, thread)
  }

  /**
    The rule in the order of arrival, "a message without a mention engages exactly if an earlier message of
    its thread was a mention that passed both gates", holds at a step exactly if: when there is such a
    message, the step for this agent of some such mention has run; when there is none, that of no later
    mention has.
   */
  lemma {:induction false} ArrivalOrderIff(steps: seq<NetStep>, j: nat)
    requires CanTake(RunNet(steps), j)
    requires var step := NextStep(RunNet(steps).flights[j]);
             step.arrival.group.id != "" && !step.arrival.event.isMention &&
             StickyNet(steps, step.wiring.agent, step.arrival.group.id)
    ensures var n := RunNet(steps);
            var step := NextStep(n.flights[j]);
            var agent, group, thread := step.wiring.agent, step.arrival.group.id, ThreadOf(step.arrival);
            (Engages(step.wiring, step.arrival, n.store.table) <==> MentionedBefore(n, j, agent, group, thread)) <==>
            if MentionedBefore(n, j, agent, group, thread) then OpenedInNet(n, agent, group, thread)
            else forall k :: j < k < |n.flights| ==> !OpenedBy(n.flights[k], agent, group, thread)
  {
    var n := RunNet(steps);
    var step := NextStep(n.flights[j]);
    var agent, group, thread := step.wiring.agent, step.arrival.group.id, ThreadOf(step.arrival);
    StickyRuleInFlight(steps, j);
    if !MentionedBefore(n, j, agent, group, thread) {
      forall k | 0 <= k < |n.flights| && OpenedBy(n.flights[k], agent, group, thread) ensures j < k {
      }
    }
  }

  /** If no fan-out of the chat is overtaken at this agent, the rule in the order of arrival holds. */
  lemma {:induction false} InOrderIsEnough(steps: seq<NetStep>, j: nat)
    requires CanTake(RunNet(steps), j)
    requires var step := NextStep(RunNet(steps).flights[j]);
             step.arrival.group.id != "" && !step.arrival.event.isMention &&
             StickyNet(steps, step.wiring.agent, step.arrival.group.id)
    requires var n := RunNet(steps);
             var step := NextStep(n.flights[j]);
             forall k :: 0 <= k < |n.flights| && n.flights[k].arrival.group.id == step.arrival.group.id ==>
               (Passed(n.flights[k], step.wiring.agent) <==> k < j)
    ensures var n := RunNet(steps);
            var step := NextStep(n.flights[j]);
            Engages(step.wiring, step.arrival, n.store.table) <==>
            MentionedBefore(n, j, step.wiring.agent, step.arrival.group.id, ThreadOf(step.arrival))
  {
    ArrivalOrderIff(steps, j);
    var n := RunNet(steps);
    var step := NextStep(n.flights[j]);
    var agent, group, thread := step.wiring.agent, step.arrival.group.id, ThreadOf(step.arrival);
    if MentionedBefore(n, j, agent, group, thread) {
      var k :| 0 <= k < j && k < |n.flights| && Opens(n.flights[k].arrival, agent, group, thread);
      assert OpenedBy(n.flights[k], agent, group, thread);
    }
  }

  lemma {:induction false} FoldSnoc(next: NetChange, steps: seq<NetStep>, last: NetStep)
    ensures Fold(next, steps + [last]) == next(Fold(next, steps), last)
  {
    assert (steps + [last])[..|steps|] == steps;
  }

  lemma {:induction false} FoldFour(next: NetChange, a: NetStep, b: NetStep, c: NetStep, d: NetStep)
    ensures Fold(next, [a, b, c, d]) == next(next(next(next(Net(EMPTY, []), a), b), c), d)
  {
    FoldSnoc(next, [], a);
    FoldSnoc(next, [a], b);
    FoldSnoc(next, [a, b], c);
    FoldSnoc(next, [a, b, c], d);
    assert [] + [a] == [a] && [a] + [b] == [a, b] && [a, b] + [c] == [a, b, c] && [a, b, c] + [d] == [a, b, c, d];
  }

  /**
    An admitted mention overtaken by its follow-up: the mention waits for the container of a first agent,
    while the follow-up, which that agent declines, reaches the sticky agent and is dropped.
   */
  lemma {:induction false} OvertakenMention(first: Arrival, next: Arrival, a: Wiring, b: Wiring)
    requires first.group == next.group && first.group.id != "" && first.group.isGroup
    requires first.wirings == next.wirings == [a, b] && a.agent != b.agent
    requires a.engage == Mention && !a.accumulate && StickyWiring(b)
    requires first.world.adapter.Some? && next.world.adapter.Some? && ThreadOf(first) == ThreadOf(next)
    requires first.event.thread != Some("") && next.event.thread != Some("")
    requires Opens(first, b.agent, first.group.id, ThreadOf(first)) && !next.event.isMention
    ensures var n := RunNet([Arrives(first), Takes(0), Arrives(next), Takes(1)]);
            && CanTake(n, 1) && NextStep(n.flights[1]) == AgentStep(next, b)
            && MentionedBefore(n, 1, b.agent, first.group.id, ThreadOf(next))
            && !Engages(b, next, n.store.table)
  {
    var steps := [Arrives(first), Takes(0), Arrives(next), Takes(1)];
    var n1, n2 := NetNext(Net(EMPTY, []), Arrives(first)), NetNext(NetNext(Net(EMPTY, []), Arrives(first)), Takes(0));
    FoldFour(NetNext, Arrives(first), Takes(0), Arrives(next), Takes(1));
    var n := RunNet(steps);
    assert n1.flights == [Flight(first, 0)] && n2.flights == [Flight(first, 1)];
    assert n.flights == [Flight(first, 1), Flight(next, 1)];
    assert first.wirings[0] == a && first.wirings[1] == b;
    forall k | 0 <= k < 2 && first.wirings[k].agent == b.agent ensures StickyWiring(first.wirings[k]) {
    }
    StickyRuleInFlight(steps, 1);
    assert !Passed(n.flights[0], b.agent);
    assert Opens(n.flights[0].arrival, b.agent, first.group.id, ThreadOf(next));
  }

  // ----- context -----

  lemma {:induction false} StepKeepsOneEach(s: Store, step: AgentStep)
    requires OneEach(s.table) && step.arrival.event.thread != Some("")
    ensures OneEach(StepOn(s, step).table)
  {
    ApplyKeepsOneEach(s.table, DoResolve(RequestFor(step.wiring, step.arrival), step.arrival.world.now));
  }

  lemma {:induction false} StepsKeepOneEach(s: Store, steps: seq<AgentStep>)
    requires OneEach(s.table) && forall k :: 0 <= k < |steps| ==> steps[k].arrival.event.thread != Some("")
    ensures OneEach(RunSteps(s, steps).table)
  {
    if steps != [] {
      StepsKeepOneEach(s, steps[..|steps| - 1]);
      StepKeepsOneEach(RunSteps(s, steps[..|steps| - 1]), steps[|steps| - 1]);
    }
  }

  /** A delivering step passes the command gate with an id that is new to its session. */
  predicate Writes(s: Store, step: AgentStep) {
    Passes(step.wiring, step.arrival) && !Refused(s, step.wiring, step.arrival)
  }

  /**
    A message kept for later context waits in the session that the next engaging message of its key gets:
    the row written without a trigger and the row that wakes the agent lie in one session, whatever other
    steps run in between.
   */
  lemma {:induction false} ContextReachesSession(s: Store, quiet: AgentStep, between: seq<AgentStep>, loud: AgentStep)
    requires OneEach(s.table) && quiet.arrival.event.thread != Some("") && loud.arrival.event.thread != Some("")
    requires forall k :: 0 <= k < |between| ==> between[k].arrival.event.thread != Some("")
    requires VerdictOn(quiet.wiring, quiet.arrival, s.table) == Accumulated && Writes(s, quiet)
    requires VerdictOn(loud.wiring, loud.arrival, RunSteps(StepOn(s, quiet), between).table) == Engaged
    requires Writes(RunSteps(StepOn(s, quiet), between), loud)
    requires Concerns(loud, quiet.wiring.agent, quiet.arrival.group.id) && quiet.arrival.group.id != ""
    requires quiet.wiring.mode != AgentShared && loud.wiring.mode != AgentShared
    requires KeyThread(RequestFor(quiet.wiring, quiet.arrival)) == KeyThread(RequestFor(loud.wiring, loud.arrival))
    ensures var s1 := StepOn(s, quiet);
            var s2 := RunSteps(s1, between);
            var s3 := StepOn(s2, loud);
            && |s1.inbox| == |s.inbox| + 1 && |s3.inbox| == |s2.inbox| + 1 && s1.inbox <= s2.inbox
            && var kept, woken := s1.inbox[|s.inbox|], s3.inbox[|s2.inbox|];
               !kept.trigger && woken.trigger && kept.session == woken.session
  {
    var s1 := StepOn(s, quiet);
    var s2 := RunSteps(s1, between);
    var r := RequestFor(quiet.wiring, quiet.arrival);
    var (t, k) := Resolve(s.table, r, quiet.arrival.world.now);
    StepKeepsOneEach(s, quiet);
    StepsKeepOneEach(s1, between);
    StepsGrow(s1, between);
    ResolvedHasKey(s.table, r, quiet.arrival.world.now);
    KeyStays(t, k, s2.table, RequestFor(loud.wiring, loud.arrival));
  }

  lemma {:induction false} WrittenIsTaken(s: Store, step: AgentStep)
    requires VerdictOn(step.wiring, step.arrival, s.table) != Declined && Passes(step.wiring, step.arrival)
    ensures var k := Resolve(s.table, RequestFor(step.wiring, step.arrival), step.arrival.world.now).1;
            IsTaken(StepOn(s, step).inbox, k, MessageId(step.arrival.event.id, step.wiring.agent))
  {
    var k := Resolve(s.table, RequestFor(step.wiring, step.arrival), step.arrival.world.now).1;
    var after := StepOn(s, step).inbox;
    if Refused(s, step.wiring, step.arrival) {
      assert after == s.inbox;
    } else {
      assert after[|s.inbox|] == RowOf(step.wiring, step.arrival, k, after[|s.inbox|].trigger);
    }
  }

  /**
    A message that is delivered again while its session is active throws at its agent, whatever else is routed
    in between, and so ends the second fan-out there.
   */
  lemma {:induction false} RedeliveryThrows(s: Store, step: AgentStep, between: seq<AgentStep>)
    requires OneEach(s.table) && step.arrival.event.thread != Some("")
    requires forall k :: 0 <= k < |between| ==> between[k].arrival.event.thread != Some("")
    requires VerdictOn(step.wiring, step.arrival, s.table) != Declined && Passes(step.wiring, step.arrival)
    requires VerdictOn(step.wiring, step.arrival, RunSteps(StepOn(s, step), between).table) != Declined
    requires step.wiring.mode != AgentShared && step.arrival.group.id != ""
    ensures StepThrows(RunSteps(StepOn(s, step), between), step)
  {
    var s1 := StepOn(s, step);
    var s2 := RunSteps(s1, between);
    var r := RequestFor(step.wiring, step.arrival);
    var (t, k) := Resolve(s.table, r, step.arrival.world.now);
    StepKeepsOneEach(s, step);
    StepsKeepOneEach(s1, between);
    StepsGrow(s1, between);
    ResolvedHasKey(s.table, r, step.arrival.world.now);
    KeyStays(t, k, s2.table, r);
    WrittenIsTaken(s, step);
    var id := MessageId(step.arrival.event.id, step.wiring.agent);
    var j :| 0 <= j < |s1.inbox| && s1.inbox[j].session == k && s1.inbox[j].id == id;
    assert s2.inbox[j] == s1.inbox[j];
    assert IsTaken(s2.inbox, k, id);
  }

  lemma {:induction false} ResolvedHasKey(t: Table, r: Request, now: int)
    requires r.mode != AgentShared && Truthy(r.group) && r.thread != Some("")
    ensures var (after, k) := Resolve(t, r, now); k < |after| && Has(after[k], r.agent, r.group, KeyThread(r))
  {
  }
}
