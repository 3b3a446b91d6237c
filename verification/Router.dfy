/** Routing an inbound message to the agents wired to its chat. */
module Router {
  import opened Wrappers
  import opened Sessions

  datatype Engage = Pattern(pattern: Option<string>) | Mention | MentionSticky | OtherEngage

  /** A row of `messaging_group_agents`; known says whether its agent group exists. */
  datatype Wiring = Wiring(agent: Id, engage: Engage, mode: Mode, accumulate: bool, known: bool)

  datatype Adapter = Adapter(supportsThreads: bool, canSubscribe: bool)

  datatype Group = Group(id: Id, isGroup: bool, denied: bool)

  type Address = (string, string)

  datatype Event = Event(address: Address, thread: Option<Id>, id: Id, text: string,
    isMention: bool, inGroup: bool, isChat: bool)

  datatype Command = PassCommand | FilterCommand | DenyCommand

  /** What the code around the router answers for one message; regex is None for a pattern that does not compile. */
  datatype World = World(
    adapter: Option<Adapter>,
    regex: (string, string) -> Option<bool>,
    access: Id -> bool,
    scope: Id -> bool,
    command: Id -> Command,
    wakeFails: Id -> bool,
    now: int)

  /** A message that reaches a chat with wired agents. */
  datatype Arrival = Arrival(group: Group, wirings: seq<Wiring>, event: Event, world: World)

  /** A row written to a session's inbound queue; its id is the primary key there. */
  datatype Message = Message(session: nat, id: Id, thread: Option<Id>, trigger: bool)

  /** The sessions, and the rows written to them. */
  datatype Store = Store(table: Table, inbox: seq<Message>)

  // ----- decisions -----

  /** An adapter without threads collapses them to the channel. */
  function ThreadOf(a: Arrival): Option<Id> {
    if a.world.adapter.Some? && !a.world.adapter.value.supportsThreads then None else a.event.thread
  }

  predicate HasThreads(w: World) {
    w.adapter.Some? && w.adapter.value.supportsThreads
  }

  /** `evaluateEngage` */
  predicate Engages(w: Wiring, a: Arrival, t: Table) {
    match w.engage
    case Pattern(pattern) =>
      var p := if pattern.Some? then pattern.value else ".";
      p == "." || a.world.regex(p, a.event.text) == None || a.world.regex(p, a.event.text) == Some(true)
    case Mention => a.event.isMention
    case MentionSticky => a.event.isMention || (a.group.isGroup && Find(t, w.agent, a.group.id, ThreadOf(a)).Some?)
    case OtherEngage => false
  }

  function EffectiveMode(w: Wiring, a: Arrival): Mode {
    if HasThreads(a.world) && w.mode != AgentShared && a.group.isGroup then PerThread else w.mode
  }

  function RequestFor(w: Wiring, a: Arrival): Request {
    Request(w.agent, Some(a.group.id), ThreadOf(a), EffectiveMode(w, a))
  }

  function MessageId(base: Id, agent: Id): Id {
    base + ":" + agent
  }

  predicate Admitted(w: Wiring, a: Arrival, t: Table) {
    Engages(w, a, t) && a.world.access(w.agent) && a.world.scope(w.agent)
  }

  predicate Passes(w: Wiring, a: Arrival) {
    !a.event.isChat || a.world.command(w.agent) == PassCommand
  }

  predicate Subscribes(w: Wiring, a: Arrival) {
    w.engage == MentionSticky && HasThreads(a.world) && a.world.adapter.value.canSubscribe
      && ThreadOf(a).Some? && a.group.isGroup
  }

  datatype Verdict = Engaged | Accumulated | Declined

  function VerdictOn(w: Wiring, a: Arrival, t: Table): Verdict {
    if !w.known then Declined
    else if Admitted(w, a, t) then Engaged
    else if w.accumulate then Accumulated
    else Declined
  }

  /**
    `deliverToAgent` up to its first suspension: the session is resolved before the command gate looks at the
    message.
   */
  function Deliver(s: Store, w: Wiring, a: Arrival, wake: bool): Store {
    var (table, k) := Resolve(s.table, RequestFor(w, a), a.world.now);
    Store(table, s.inbox + RowsOf(s.inbox, w, a, k, wake))
  }

  function RowOf(w: Wiring, a: Arrival, session: nat, wake: bool): Message {
    Message(session, MessageId(a.event.id, w.agent), ThreadOf(a), wake)
  }

  function RowsOf(inbox: seq<Message>, w: Wiring, a: Arrival, session: nat, wake: bool): seq<Message> {
    var row := RowOf(w, a, session, wake);
    if Passes(w, a) && !IsTaken(inbox, row.session, row.id) then [row] else []
  }

  /** The session's queue has a row with this id, so that another one is refused. */
  predicate IsTaken(inbox: seq<Message>, session: nat, id: Id) {
    exists k :: 0 <= k < |inbox| && inbox[k].session == session && inbox[k].id == id
  }

  /** The insertion throws, as for a message that is delivered again. */
  predicate Refused(s: Store, w: Wiring, a: Arrival) {
    var k := Resolve(s.table, RequestFor(w, a), a.world.now).1;
    Passes(w, a) && IsTaken(s.inbox, k, MessageId(a.event.id, w.agent))
  }

  /** The delivery throws, at the insertion or, for a message that wakes, at the wake. */
  predicate Throws(s: Store, w: Wiring, a: Arrival, wake: bool) {
    Refused(s, w, a) || (wake && Passes(w, a) && a.world.wakeFails(w.agent))
  }

  // ----- steps -----

  /** One pass of the loop over the agents, up to its suspension. */
  datatype AgentStep = AgentStep(arrival: Arrival, wiring: Wiring)

  function StepOn(s: Store, step: AgentStep): Store {
    match VerdictOn(step.wiring, step.arrival, s.table)
    case Engaged => Deliver(s, step.wiring, step.arrival, true)
    case Accumulated => Deliver(s, step.wiring, step.arrival, false)
    case Declined => s
  }

  function RunSteps(s: Store, steps: seq<AgentStep>): Store {
    if steps == [] then s else StepOn(RunSteps(s, steps[..|steps| - 1]), steps[|steps| - 1])
  }

  predicate StepThrows(s: Store, step: AgentStep) {
    var verdict := VerdictOn(step.wiring, step.arrival, s.table);
    verdict != Declined && Throws(s, step.wiring, step.arrival, verdict == Engaged)
  }

  /** What a fan-out has counted; rows are its own rows, and a failed one has ended. */
  datatype Tally = Tally(engaged: nat, accumulated: nat, subscribed: bool, rows: seq<Message>, failed: bool)

  const NOTHING := Tally(0, 0, false, [], false)

  function CountStep(t: Tally, s: Store, step: AgentStep): Tally {
    var rows := StepOn(s, step).inbox[|s.inbox|..];
    if StepThrows(s, step) then t.(rows := t.rows + rows, failed := true) else
    match VerdictOn(step.wiring, step.arrival, s.table)
    case Engaged =>
      t.(engaged := t.engaged + 1, subscribed := t.subscribed || Subscribes(step.wiring, step.arrival),
         rows := t.rows + rows)
    case Accumulated => t.(accumulated := t.accumulated + 1, rows := t.rows + rows)
    case Declined => t
  }

  /** The steps other fan-outs take while this one waits behind its n-th agent. */
  type Meanwhile = nat -> seq<AgentStep>

  /** One pass of the loop: a pass that delivers suspends, and the others take their steps. */
  function PassOn(s: Store, step: AgentStep, others: seq<AgentStep>): Store {
    if VerdictOn(step.wiring, step.arrival, s.table) == Declined then s else RunSteps(StepOn(s, step), others)
  }

  type Passer = (Store, AgentStep, seq<AgentStep>) -> Store

  type Counter = (Tally, Store, AgentStep) -> Tally

  function PassesBy(pass: Passer, count: Counter, s: Store, a: Arrival, others: Meanwhile, n: nat): (Store, Tally)
    requires n <= |a.wirings|
  {
    if n == 0 then (s, NOTHING) else
    var (before, tally) := PassesBy(pass, count, s, a, others, n - 1);
    if tally.failed then (before, tally) else
    var step := AgentStep(a, a.wirings[n - 1]);
    (pass(before, step, others(n - 1)), count(tally, before, step))
  }

  /** The first n passes of the loop, or those up to one that fails. */
  function FanOutSteps(s: Store, a: Arrival, others: Meanwhile, n: nat): (Store, Tally)
    requires n <= |a.wirings|
  {
    PassesBy(PassOn, CountStep, s, a, others, n)
  }

  datatype Reason = NoAgentWired | NoAgentEngaged

  /** Some agent is wired to the chat. */
  predicate IsWired(wirings: map<Id, seq<Wiring>>, group: Id) {
    group in wirings && wirings[group] != []
  }

  class InboundRouter {
    var sessions: Table
    var inbox: seq<Message>
    var groups: map<Address, Group>
    var wirings: map<Id, seq<Wiring>>
    var droppedMessages: seq<(Address, Reason)>

    ghost function Contents(): Store
      reads this
    {
      Store(sessions, inbox)
    }

    constructor (wirings: map<Id, seq<Wiring>>)
      ensures Contents() == Store([], []) && groups == map[] && droppedMessages == [] && this.wirings == wirings
    {
      sessions, inbox, groups, droppedMessages := [], [], map[], [];
      this.wirings := wirings;
    }

    function AgentsOf(g: Id): seq<Wiring>
      reads this`wirings
    {
      if g in wirings then wirings[g] else []
    }

    /**
      `routeInbound`; newGroupId is the generated id of a messaging group seen for the first time, and
      others says what other fan-outs do at the suspensions of this one.
     */
    method RouteInbound(e: Event, w: World, newGroupId: Id, others: Meanwhile)
      returns (failed: bool, subscribed: bool)
      modifies this`sessions, this`inbox, this`groups, this`droppedMessages
      ensures e.address in old(groups) || !e.isMention ==> groups == old(groups)
      ensures e.address !in old(groups) && e.isMention ==>
                groups == old(groups)[e.address := Group(newGroupId, e.inGroup, false)] &&
                droppedMessages == old(droppedMessages) + [(e.address, NoAgentWired)]
      ensures e.address !in old(groups) || !IsWired(wirings, old(groups)[e.address].id) ==>
                Contents() == old(Contents()) && !failed && !subscribed &&
                (!e.isMention ==> droppedMessages == old(droppedMessages))
      ensures e.address in old(groups) && !IsWired(wirings, old(groups)[e.address].id) && e.isMention ==>
                droppedMessages == old(droppedMessages) +
                  if groups[e.address].denied then [] else [(e.address, NoAgentWired)]
      ensures e.address in old(groups) && IsWired(wirings, old(groups)[e.address].id) ==>
                var g := groups[e.address];
                var agents := wirings[g.id];
                var (store, tally) := FanOutSteps(old(Contents()), Arrival(g, agents, e, w), others, |agents|);
                Contents() == store && failed == tally.failed && subscribed == tally.subscribed &&
                droppedMessages == old(droppedMessages) + DropRecord(e.address, tally)
    {
      failed, subscribed := false, false;
      if e.address !in groups {
        if !e.isMention {
          return;
        }
        groups := groups[e.address := Group(newGroupId, e.inGroup, false)];
        droppedMessages := droppedMessages + [(e.address, NoAgentWired)];
        return;
      }
      var g := groups[e.address];
      var agents := AgentsOf(g.id);
      if agents == [] {
        if e.isMention && !g.denied {
          droppedMessages := droppedMessages + [(e.address, NoAgentWired)];
        }
        return;
      }
      failed, subscribed := FanOut(Arrival(g, agents, e, w), others);
    }

    method FanOut(a: Arrival, others: Meanwhile) returns (failed: bool, subscribed: bool)
      modifies this`sessions, this`inbox, this`droppedMessages
      ensures var (store, tally) := FanOutSteps(old(Contents()), a, others, |a.wirings|);
              Contents() == store && failed == tally.failed && subscribed == tally.subscribed &&
              droppedMessages == old(droppedMessages) + DropRecord(a.event.address, tally)
    {
      var engagedCount, accumulatedCount := 0, 0;
      failed, subscribed := false, false;
      ghost var start := Contents();
      ghost var tally := NOTHING;
      for i := 0 to |a.wirings|
        invariant engagedCount == tally.engaged && accumulatedCount == tally.accumulated
                  && subscribed == tally.subscribed && !tally.failed && !failed
        invariant (Contents(), tally) == FanOutSteps(start, a, others, i)
        invariant droppedMessages == old(droppedMessages)
      {
        tally := CountStep(tally, Contents(), AgentStep(a, a.wirings[i]));
        var verdict;
        verdict, failed := HandleAgent(a.wirings[i], a, others(i));
        if failed {
          FailedStays(start, a, others, i + 1, |a.wirings|);
          return;
        }
        if verdict == Engaged {
          engagedCount := engagedCount + 1;
          if !subscribed && Subscribes(a.wirings[i], a) {
            subscribed := true;
          }
        } else if verdict == Accumulated {
          accumulatedCount := accumulatedCount + 1;
        }
      }
      if engagedCount + accumulatedCount == 0 {
        droppedMessages := droppedMessages + [(a.event.address, NoAgentEngaged)];
      }
    }

    /** The loop body, up to its counters. */
    method HandleAgent(w: Wiring, a: Arrival, others: seq<AgentStep>) returns (verdict: Verdict, failed: bool)
      modifies this`sessions, this`inbox
      ensures verdict == VerdictOn(w, a, old(sessions))
      ensures failed <==> StepThrows(old(Contents()), AgentStep(a, w))
      ensures Contents() == PassOn(old(Contents()), AgentStep(a, w), others)
    {
      if !w.known {
        return Declined, false;
      }
      var accessOk, scopeOk := false, false;
      if Engages(w, a, sessions) {
        accessOk, scopeOk := a.world.access(w.agent), a.world.scope(w.agent);
      }
      if accessOk && scopeOk {
        failed := DeliverToAgent(w, a, true);
        Suspend(others);
        return Engaged, failed;
      }
      if w.accumulate {
        failed := DeliverToAgent(w, a, false);
        Suspend(others);
        return Accumulated, failed;
      }
      verdict, failed := Declined, false;
    }

    /** Up to its suspension, and whether it throws at all. */
    method DeliverToAgent(w: Wiring, a: Arrival, wake: bool) returns (failed: bool)
      modifies this`sessions, this`inbox
      ensures Contents() == Deliver(old(Contents()), w, a, wake)
      ensures failed <==> Throws(old(Contents()), w, a, wake)
    {
      var (table, k) := Resolve(sessions, RequestFor(w, a), a.world.now);
      sessions := table;
      if a.event.isChat && a.world.command(w.agent) != PassCommand {
        return false;
      }
      var row := RowOf(w, a, k, wake);
      if IsTaken(inbox, row.session, row.id) {
        return true;
      }
      inbox := inbox + [row];
      failed := wake && a.world.wakeFails(w.agent);
    }

    /** An await: the steps of other fan-outs run, in the order given. */
    method Suspend(steps: seq<AgentStep>)
      modifies this`sessions, this`inbox
      ensures Contents() == RunSteps(old(Contents()), steps)
    {
      for i := 0 to |steps|
        invariant Contents() == RunSteps(old(Contents()), steps[..i])
      {
        assert steps[..i + 1][..i] == steps[..i];
        var verdict := VerdictOn(steps[i].wiring, steps[i].arrival, sessions);
        if verdict != Declined {
          var _ := DeliverToAgent(steps[i].wiring, steps[i].arrival, verdict == Engaged);
        }
      }
      assert steps[..|steps|] == steps;
    }
  }

  /** A message no agent took is recorded, whatever other messages did meanwhile. */
  function DropRecord(address: Address, t: Tally): seq<(Address, Reason)> {
    if !t.failed && t.engaged + t.accumulated == 0 then [(address, NoAgentEngaged)] else []
  }

  lemma {:induction false} FailedPassesStay(pass: Passer, count: Counter, s: Store, a: Arrival, others: Meanwhile,
        k: nat, n: nat)
    requires k <= n <= |a.wirings| && PassesBy(pass, count, s, a, others, k).1.failed
    ensures PassesBy(pass, count, s, a, others, n) == PassesBy(pass, count, s, a, others, k)
    decreases n
  {
    if k < n {
      FailedPassesStay(pass, count, s, a, others, k, n - 1);
    }
  }

  /** A failed pass is the last. */
  lemma {:induction false} FailedStays(s: Store, a: Arrival, others: Meanwhile, k: nat, n: nat)
    requires k <= n <= |a.wirings| && FanOutSteps(s, a, others, k).1.failed
    ensures FanOutSteps(s, a, others, n) == FanOutSteps(s, a, others, k)
  {
    FailedPassesStay(PassOn, CountStep, s, a, others, k, n);
  }

  // ----- what one routing writes -----

  /** The sessions only grow, and written rows stay. */
  predicate Grown(s: Store, t: Store) {
    s.table <= t.table && s.inbox <= t.inbox
  }

  lemma {:induction false} StepsGrow(s: Store, steps: seq<AgentStep>)
    ensures Grown(s, RunSteps(s, steps))
  {
    if steps != [] {
      StepsGrow(s, steps[..|steps| - 1]);
      StepGrows(RunSteps(s, steps[..|steps| - 1]), steps[|steps| - 1]);
    }
  }

  lemma {:induction false} StepGrows(s: Store, step: AgentStep)
    ensures Grown(s, StepOn(s, step))
  {
  }

  /** A row in a session of the wired agent, under the agent's own message id. */
  predicate RowFor(s: Store, m: Message, w: Wiring, e: Event) {
    && w.known && m in s.inbox && m.id == MessageId(e.id, w.agent)
    && m.session < |s.table| && s.table[m.session].agent == w.agent && s.table[m.session].active
  }

  ghost predicate RowsRight(s: Store, t: Tally, a: Arrival, n: nat)
    requires n <= |a.wirings|
  {
    && |t.rows| <= t.engaged + t.accumulated + (if t.failed then 1 else 0) <= n
    && (forall m :: m in t.rows ==> exists k :: 0 <= k < n && RowFor(s, m, a.wirings[k], a.event))
    && (forall i, j :: 0 <= i < j < |t.rows| ==> t.rows[i].id != t.rows[j].id)
  }

  ghost predicate DistinctAgents(wirings: seq<Wiring>) {
    forall j, k :: 0 <= j < k < |wirings| ==> wirings[j].agent != wirings[k].agent
  }

  lemma {:induction false} MessageIdInjective(base: Id, a: Id, b: Id)
    requires MessageId(base, a) == MessageId(base, b)
    ensures a == b
  {
    var n := |base + ":"|;
    assert MessageId(base, a)[n..] == a && MessageId(base, b)[n..] == b;
  }

  lemma {:induction false} RowStays(s: Store, t: Store, m: Message, w: Wiring, e: Event)
    requires RowFor(s, m, w, e) && Grown(s, t)
    ensures RowFor(t, m, w, e)
  {
  }

  lemma {:induction false} RowsStay(s: Store, t: Store, tally: Tally, a: Arrival, n: nat)
    requires n <= |a.wirings| && RowsRight(s, tally, a, n) && Grown(s, t)
    ensures RowsRight(t, tally, a, n)
  {
    forall m | m in tally.rows ensures exists k :: 0 <= k < n && RowFor(t, m, a.wirings[k], a.event) {
      var k :| 0 <= k < n && RowFor(s, m, a.wirings[k], a.event);
      RowStays(s, t, m, a.wirings[k], a.event);
    }
  }

  /** The rows of one step: at most one, for its agent. */
  lemma {:induction false} StepRows(s: Store, step: AgentStep)
    ensures var rows, after := StepOn(s, step).inbox[|s.inbox|..], StepOn(s, step);
            && after.inbox == s.inbox + rows && |rows| <= 1
            && (VerdictOn(step.wiring, step.arrival, s.table) == Declined ==> rows == [])
            && (rows != [] ==> RowFor(after, rows[0], step.wiring, step.arrival.event))
  {
    var after := StepOn(s, step);
    ResolvedIsRight(s.table, RequestFor(step.wiring, step.arrival), step.arrival.world.now);
    var rows := after.inbox[|s.inbox|..];
    if rows != [] {
      assert rows[0] == after.inbox[|s.inbox|];
    }
  }

  lemma {:induction false} NewRowDiffers(s: Store, t: Tally, a: Arrival, n: nat)
    requires n < |a.wirings| && RowsRight(s, t, a, n) && DistinctAgents(a.wirings)
    ensures forall i :: 0 <= i < |t.rows| ==> t.rows[i].id != MessageId(a.event.id, a.wirings[n].agent)
  {
    forall i | 0 <= i < |t.rows| ensures t.rows[i].id != MessageId(a.event.id, a.wirings[n].agent) {
      assert t.rows[i] in t.rows;
      var k :| 0 <= k < n && RowFor(s, t.rows[i], a.wirings[k], a.event);
      if MessageId(a.event.id, a.wirings[k].agent) == MessageId(a.event.id, a.wirings[n].agent) {
        MessageIdInjective(a.event.id, a.wirings[k].agent, a.wirings[n].agent);
      }
    }
  }

  lemma {:induction false} OwnRows(s: Store, t: Tally, a: Arrival, n: nat)
    requires n < |a.wirings| && RowsRight(s, t, a, n) && DistinctAgents(a.wirings) && !t.failed
    ensures var step := AgentStep(a, a.wirings[n]); RowsRight(StepOn(s, step), CountStep(t, s, step), a, n + 1)
  {
    var step := AgentStep(a, a.wirings[n]);
    var after, rows := StepOn(s, step), StepOn(s, step).inbox[|s.inbox|..];
    StepGrows(s, step);
    StepRows(s, step);
    NewRowDiffers(s, t, a, n);
    RowsStay(s, after, t, a, n);
    assert CountStep(t, s, step).rows == t.rows + rows;
    forall m | m in t.rows + rows ensures exists k :: 0 <= k < n + 1 && RowFor(after, m, a.wirings[k], a.event) {
      if m in t.rows {
        var k :| 0 <= k < n && RowFor(after, m, a.wirings[k], a.event);
      } else {
        assert RowFor(after, m, a.wirings[n], a.event);
      }
    }
  }

  lemma {:induction false} PassRows(s: Store, t: Tally, a: Arrival, n: nat, others: seq<AgentStep>)
    requires n < |a.wirings| && RowsRight(s, t, a, n) && DistinctAgents(a.wirings) && !t.failed
    ensures var step := AgentStep(a, a.wirings[n]);
            Grown(s, PassOn(s, step, others)) && RowsRight(PassOn(s, step, others), CountStep(t, s, step), a, n + 1)
  {
    var step := AgentStep(a, a.wirings[n]);
    var after := StepOn(s, step);
    OwnRows(s, t, a, n);
    StepGrows(s, step);
    StepsGrow(after, others);
    RowsStay(after, RunSteps(after, others), CountStep(t, s, step), a, n + 1);
  }

  lemma {:induction false} RowsLast(s: Store, t: Tally, a: Arrival, n: nat)
    requires n < |a.wirings| && RowsRight(s, t, a, n)
    ensures RowsRight(s, t, a, n + 1)
  {
    forall m | m in t.rows ensures exists k :: 0 <= k < n + 1 && RowFor(s, m, a.wirings[k], a.event) {
      var k :| 0 <= k < n && RowFor(s, m, a.wirings[k], a.event);
    }
  }

  type Right = (nat, Store, Tally) -> bool

  ghost predicate KeepsRight(pass: Passer, count: Counter, a: Arrival, right: Right, n: nat)
    requires n < |a.wirings|
  {
    && (forall s, t :: right(n, s, t) && t.failed ==> right(n + 1, s, t))
    && (forall s, t, others :: right(n, s, t) && !t.failed ==>
          right(n + 1, pass(s, AgentStep(a, a.wirings[n]), others), count(t, s, AgentStep(a, a.wirings[n]))))
  }

  lemma {:induction false} PassesKeepRight(pass: Passer, count: Counter, right: Right, s: Store,
        a: Arrival, others: Meanwhile, n: nat)
    requires n <= |a.wirings| && right(0, s, NOTHING)
    requires forall k: nat :: k < n ==> KeepsRight(pass, count, a, right, k)
    ensures var (store, tally) := PassesBy(pass, count, s, a, others, n); right(n, store, tally)
    decreases n
  {
    if n > 0 {
      PassesKeepRight(pass, count, right, s, a, others, n - 1);
      assert KeepsRight(pass, count, a, right, n - 1);
      var (before, tally) := PassesBy(pass, count, s, a, others, n - 1);
      assert right(n - 1, before, tally);
    }
  }

  /** The store grew from s, and the rows counted are right. */
  ghost function RightFrom(s: Store, a: Arrival): Right {
    (n: nat, store: Store, t: Tally) => n <= |a.wirings| && Grown(s, store) && RowsRight(store, t, a, n)
  }

  lemma {:induction false} PassKeepsRight(s: Store, a: Arrival, n: nat)
    requires n < |a.wirings| && DistinctAgents(a.wirings)
    ensures KeepsRight(PassOn, CountStep, a, RightFrom(s, a), n)
  {
    forall before, tally | RightFrom(s, a)(n, before, tally) && tally.failed
      ensures RightFrom(s, a)(n + 1, before, tally)
    {
      RowsLast(before, tally, a, n);
    }
    forall before, tally, others | RightFrom(s, a)(n, before, tally) && !tally.failed
      ensures RightFrom(s, a)(n + 1, PassOn(before, AgentStep(a, a.wirings[n]), others),
              CountStep(tally, before, AgentStep(a, a.wirings[n])))
    {
      PassRows(before, tally, a, n, others);
    }
  }

  /**
    Whatever other fan-outs do at its suspensions, a fan-out writes at most one row per wired agent, each
    into an active session of that agent, and no two of its rows have one id.
   */
  lemma {:induction false} FanOutRows(s: Store, a: Arrival, others: Meanwhile, n: nat)
    requires n <= |a.wirings| && DistinctAgents(a.wirings)
    ensures var (store, tally) := FanOutSteps(s, a, others, n); Grown(s, store) && RowsRight(store, tally, a, n)
  {
    forall k: nat | k < n ensures KeepsRight(PassOn, CountStep, a, RightFrom(s, a), k) {
      PassKeepsRight(s, a, k);
    }
    assert RowsRight(s, NOTHING, a, 0) && RightFrom(s, a)(0, s, NOTHING);
    PassesKeepRight(PassOn, CountStep, RightFrom(s, a), s, a, others, n);
  }

  // ----- the primary key of the queues -----

  /** No queue holds two rows with one id. */
  ghost predicate KeysDistinct(inbox: seq<Message>) {
    forall j, k :: 0 <= j < k < |inbox| ==> inbox[j].session != inbox[k].session || inbox[j].id != inbox[k].id
  }

  /** Whatever is routed, again or for the first time, no session's queue ever holds two rows with one id. */
  lemma {:induction false} StepsKeepKeys(s: Store, steps: seq<AgentStep>)
    requires KeysDistinct(s.inbox)
    ensures KeysDistinct(RunSteps(s, steps).inbox)
  {
    if steps != [] {
      StepsKeepKeys(s, steps[..|steps| - 1]);
      StepKeepsKeys(RunSteps(s, steps[..|steps| - 1]), steps[|steps| - 1]);
    }
  }

  lemma {:induction false} StepKeepsKeys(s: Store, step: AgentStep)
    requires KeysDistinct(s.inbox)
    ensures KeysDistinct(StepOn(s, step).inbox)
  {
    StepRows(s, step);
    var after := StepOn(s, step);
    if |after.inbox| > |s.inbox| {
      var row := after.inbox[|s.inbox|];
      assert !IsTaken(s.inbox, row.session, row.id);
      forall j, k | 0 <= j < k < |after.inbox|
        ensures after.inbox[j].session != after.inbox[k].session || after.inbox[j].id != after.inbox[k].id
      {
        assert after.inbox[j] == s.inbox[j];
        if k < |s.inbox| {
          assert after.inbox[k] == s.inbox[k];
        }
      }
    }
  }
}
