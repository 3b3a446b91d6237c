/** Delivering outbound messages: two polls, retries in memory, and the delivered table. */
module Delivery {
  import opened Selections
  import opened Wrappers

  type Id = string

  /** A message of one session's outbound queue. */
  datatype Key = Key(session: Id, id: Id)

  datatype Status = Delivered | Failed

  const MAX_DELIVERY_ATTEMPTS := 3

  // ----- what delivering one message does -----

  datatype Kind = System | OtherKind

  /** The parsed content; the reads of a null's fields throw. */
  datatype Content = BadJson | NullJson | Value

  /** questionFails: a question of it cannot be recorded; filesFail: an attached file cannot be read. */
  datatype Message = Message(
    kind: Kind, channel: Option<string>, platform: Option<string>, content: Content,
    questionFails: bool, filesFail: bool)

  /** What the tables and modules say about the message's destination. */
  datatype Destination = Destination(
    adapterSet: bool, agentModule: bool, group: Option<Id>, origin: Option<Id>, hasDestinationRow: bool)

  datatype Plan = DropSilently | RunAction | RouteToAgent | Throw | Send

  predicate NonEmpty(s: Option<string>) {
    s.Some? && s.value != ""
  }

  /** `deliverMessage`, up to the call it makes. */
  function PlanFor(m: Message, d: Destination): Plan {
    if !d.adapterSet then DropSilently
    else if m.content == BadJson then Throw
    else if m.kind == System then (if m.content == NullJson then Throw else RunAction)
    else if m.channel == Some("agent") then (if d.agentModule then RouteToAgent else Throw)
    else
      var routed := NonEmpty(m.channel) && NonEmpty(m.platform);
      if routed && d.group == None then Throw
      else if routed && d.origin != d.group && d.agentModule && !d.hasDestinationRow then Throw
      else if m.content == NullJson || m.questionFails then Throw
      else if !routed then DropSilently
      else if m.filesFail then Throw
      else Send
  }

  /** Where an agent may send: its own chat, or any chat it has a row for; any known chat without the module. */
  predicate Permitted(d: Destination) {
    d.group.Some? && (d.origin == d.group || d.hasDestinationRow || !d.agentModule)
  }

  predicate Addressed(m: Message) {
    && m.channel.Some? && |m.channel.value| > 0 && m.channel.value != "agent"
    && m.platform.Some? && |m.platform.value| > 0
  }

  /** A message for the adapter, not for the host or another agent. */
  predicate ForChat(m: Message) {
    m.kind != System && m.channel != Some("agent")
  }

  /** Nothing of the content throws before the call. */
  predicate Readable(m: Message) {
    m.content == Value && !m.questionFails
  }

  /**
    The adapter is called exactly for readable, addressed messages to a permitted chat whose files are read;
    without an adapter or, if readable, an address a message counts as delivered; what is for the host or for
    another agent is handed on if it can be read and, for an agent, the module is there; every other one fails.
   */
  lemma {:induction false} SendsIff(m: Message, d: Destination)
    ensures PlanFor(m, d) == Send <==>
            d.adapterSet && ForChat(m) && Readable(m) && Addressed(m) && Permitted(d) && !m.filesFail
    ensures PlanFor(m, d) == DropSilently <==> !d.adapterSet || (ForChat(m) && Readable(m) && !Addressed(m))
    ensures PlanFor(m, d) == RunAction <==> d.adapterSet && m.kind == System && m.content == Value
    ensures PlanFor(m, d) == RouteToAgent <==>
            d.adapterSet && m.kind != System && m.channel == Some("agent") && m.content != BadJson && d.agentModule
  {
  }

  // ----- the host's bookkeeping -----

  /** `deliveryAttempts`, `inflightDeliveries` and the sessions' delivered tables. */
  datatype Host = Host(attempts: map<Id, nat>, inflight: set<Id>, delivered: map<Key, Status>)

  /** INSERT OR IGNORE into the delivered table. */
  function Mark(delivered: map<Key, Status>, k: Key, s: Status): map<Key, Status> {
    if k in delivered then delivered else delivered[k := s]
  }

  function Attempts(h: Host, id: Id): nat {
    if id in h.attempts then h.attempts[id] else 0
  }

  /** After `deliverMessage` returned (ok) or threw. */
  function Settle(h: Host, k: Key, ok: bool): Host {
    if ok then h.(delivered := Mark(h.delivered, k, Delivered), attempts := h.attempts - {k.id})
    else if Attempts(h, k.id) + 1 >= MAX_DELIVERY_ATTEMPTS then
      h.(delivered := Mark(h.delivered, k, Failed), attempts := h.attempts - {k.id})
    else h.(attempts := h.attempts[k.id := Attempts(h, k.id) + 1])
  }

  function Undelivered(delivered: map<Key, Status>, session: Id, due: seq<Id>): (ids: seq<Id>)
    ensures forall id :: id in ids <==> id in due && Key(session, id) !in delivered
  {
    if due == [] then [] else
    var rest := Undelivered(delivered, session, due[..|due| - 1]);
    var last := due[|due| - 1];
    assert forall id :: id in due <==> id in due[..|due| - 1] || id == last;
    if Key(session, last) in delivered then rest else rest + [last]
  }

  function Unmarked(delivered: map<Key, Status>, session: Id): Id -> bool {
    id => Key(session, id) !in delivered
  }

  /** The drain's batch: the due messages without a mark, each once and in their order. */
  lemma {:induction false} UndeliveredInOrder(delivered: map<Key, Status>, session: Id, due: seq<Id>)
    ensures Picks(due, Unmarked(delivered, session), Undelivered(delivered, session, due))
  {
    if due == [] {
      PicksNone(Unmarked(delivered, session));
    } else {
      var last := due[|due| - 1];
      UndeliveredInOrder(delivered, session, due[..|due| - 1]);
      PicksSnoc(due[..|due| - 1], last, Unmarked(delivered, session),
        Undelivered(delivered, session, due[..|due| - 1]));
      assert due == due[..|due| - 1] + [last];
    }
  }

  function SettleAll(h: Host, session: Id, ids: seq<Id>, succeeds: Id -> bool): Host {
    if ids == [] then h else
    Settle(SettleAll(h, session, ids[..|ids| - 1], succeeds), Key(session, ids[|ids| - 1]), succeeds(ids[|ids| - 1]))
  }

  // ----- what other executions do while a call is awaited -----

  /** Another drain settles a message, or a session's delivery is entered or left. */
  datatype HostOp = Settled(key: Key, ok: bool) | Entered(session: Id) | Left(session: Id)

  function HostStep(h: Host, op: HostOp): Host {
    match op
    case Settled(key, ok) => Settle(h, key, ok)
    case Entered(session) => h.(inflight := h.inflight + {session})
    case Left(session) => h.(inflight := h.inflight - {session})
  }

  function RunHost(h: Host, ops: seq<HostOp>): Host {
    if ops == [] then h else HostStep(RunHost(h, ops[..|ops| - 1]), ops[|ops| - 1])
  }

  /** What runs during a drain's awaits, by the position of the message. */
  type Others = nat -> seq<HostOp>

  /** All that runs during the first n awaits. */
  function Meanwhile(others: Others, n: nat): seq<HostOp> {
    if n == 0 then [] else Meanwhile(others, n - 1) + others(n - 1)
  }

  /** A drain: each message is settled after what ran while its call was awaited. */
  function Drained(h: Host, session: Id, ids: seq<Id>, succeeds: Id -> bool, others: Others): Host {
    if ids == [] then h else
    var n := |ids| - 1;
    Settle(RunHost(Drained(h, session, ids[..n], succeeds, others), others(n)), Key(session, ids[n]), succeeds(ids[n]))
  }

  class Deliverer {
    var deliveryAttempts: map<Id, nat>
    var inflightDeliveries: set<Id>
    var delivered: map<Key, Status>

    ghost function Contents(): Host
      reads this
    {
      Host(deliveryAttempts, inflightDeliveries, delivered)
    }

    constructor ()
      ensures Contents() == Host(map[], {}, map[])
    {
      deliveryAttempts, inflightDeliveries, delivered := map[], {}, map[];
    }

    /** One message of the drain's loop. */
    method SettleMessage(session: Id, id: Id, ok: bool)
      modifies this`deliveryAttempts, this`delivered
      ensures Contents() == Settle(old(Contents()), Key(session, id), ok)
      ensures forall k :: k in old(delivered) ==> k in delivered && delivered[k] == old(delivered)[k]
    {
      var key := Key(session, id);
      if ok {
        delivered := Mark(delivered, key, Delivered);
        deliveryAttempts := deliveryAttempts - {id};
        return;
      }
      var attempts := (if id in deliveryAttempts then deliveryAttempts[id] else 0) + 1;
      ghost var before := deliveryAttempts;
      deliveryAttempts := deliveryAttempts[id := attempts];
      if attempts >= MAX_DELIVERY_ATTEMPTS {
        delivered := Mark(delivered, key, Failed);
        deliveryAttempts := deliveryAttempts - {id};
      }
      assert before[id := attempts] - {id} == before - {id};
    }

    /** What the other executions do, one after the other. */
    method Suspend(ops: seq<HostOp>)
      modifies this
      ensures Contents() == RunHost(old(Contents()), ops)
      ensures |ops| == 1 ==> Contents() == HostStep(old(Contents()), ops[0])
    {
      for i := 0 to |ops|
        invariant Contents() == RunHost(old(Contents()), ops[..i])
      {
        assert ops[..i + 1][..i] == ops[..i];
        var after := HostStep(Host(deliveryAttempts, inflightDeliveries, delivered), ops[i]);
        deliveryAttempts, inflightDeliveries, delivered := after.attempts, after.inflight, after.delivered;
      }
      assert ops[..|ops|] == ops;
      if |ops| == 1 {
        assert ops[..0] == [];
      }
    }

    /**
      `drainSession`; succeeds says how each call ends, others what runs while it is awaited. It calls exactly the
      due messages without a mark, in their order.
     */
    method DrainSession(session: Id, allDue: seq<Id>, succeeds: Id -> bool, others: Others)
      returns (ghost called: seq<Id>)
      modifies this
      ensures Picks(allDue, Unmarked(old(delivered), session), called)
      ensures var ids := Undelivered(old(delivered), session, allDue);
              && Contents() == Drained(old(Contents()), session, ids, succeeds, others)
              && (Apart(Meanwhile(others, |ids|), ids) ==>
                    Contents() == RunHost(SettleAll(old(Contents()), session, ids, succeeds), Meanwhile(others, |ids|)))
    {
      ghost var start := Contents();
      var undelivered := Undelivered(delivered, session, allDue);
      UndeliveredInOrder(delivered, session, allDue);
      called := SettleEach(session, undelivered, succeeds, others);
      if Apart(Meanwhile(others, |undelivered|), undelivered) {
        DrainIsUndisturbed(start, session, undelivered, succeeds, others);
      }
    }

    /** The loop over the batch. */
    method SettleEach(session: Id, batch: seq<Id>, succeeds: Id -> bool, others: Others)
      returns (ghost called: seq<Id>)
      modifies this
      ensures Contents() == Drained(old(Contents()), session, batch, succeeds, others) && called == batch
    {
      called := [];
      for i := 0 to |batch|
        invariant called == batch[..i]
        invariant Contents() == Drained(old(Contents()), session, batch[..i], succeeds, others)
      {
        assert batch[..i + 1][..i] == batch[..i];
        called := called + [batch[i]];
        Suspend(others(i));
        SettleMessage(session, batch[i], succeeds(batch[i]));
      }
      assert batch[..|batch|] == batch;
    }

    /**
      Skips a session that is being drained. Whatever else runs during the awaits, the one for the drain itself
      included, as long as it is about other ids and other sessions, the outcome is the drain's own followed
      by that of the others.
     */
    method DeliverSessionMessages(session: Id, allDue: seq<Id>, succeeds: Id -> bool, others: Others)
      returns (drained: bool, ghost called: seq<Id>)
      modifies this
      ensures if drained then Picks(allDue, Unmarked(old(delivered), session), called) else called == []
      ensures drained <==> session !in old(inflightDeliveries)
      ensures !drained ==> Contents() == old(Contents())
      ensures var ids := Undelivered(old(delivered), session, allDue);
              var all := Meanwhile(others, |ids| + 1);
              drained && Apart(all, ids) && Elsewhere(all, session) ==>
                Contents() == RunHost(SettleAll(old(Contents()), session, ids, succeeds), all)
    {
      if session in inflightDeliveries {
        return false, [];
      }
      ghost var start := Contents();
      var ids := Undelivered(delivered, session, allDue);
      inflightDeliveries := inflightDeliveries + {session};
      called := DrainSession(session, allDue, succeeds, others);
      Suspend(others(|ids|));
      inflightDeliveries := inflightDeliveries - {session};
      drained := true;
      ghost var all := Meanwhile(others, |ids| + 1);
      if Apart(all, ids) && Elsewhere(all, session) {
        GuardedDrain(start, session, ids, succeeds, others);
      }
    }
  }

  lemma {:induction false} SettleIgnoresInflight(
      h: Host, session: Id, ids: seq<Id>, succeeds: Id -> bool, inflight: set<Id>)
    ensures SettleAll(h.(inflight := inflight), session, ids, succeeds) ==
            SettleAll(h, session, ids, succeeds).(inflight := inflight)
    ensures SettleAll(h, session, ids, succeeds).inflight == h.inflight
  {
    if ids != [] { SettleIgnoresInflight(h, session, ids[..|ids| - 1], succeeds, inflight); }
  }

  lemma {:induction false} UpdatesCommute(m: map<Id, nat>, a: Id, b: Id, x: nat, y: nat)
    requires a != b
    ensures m[a := x][b := y] == m[b := y][a := x]
    ensures m[a := x] - {b} == (m - {b})[a := x]
    ensures m - {a} - {b} == m - {b} - {a}
  {
  }

  lemma {:induction false} MarksCommute(m: map<Key, Status>, j: Key, k: Key, s: Status, t: Status)
    requires j != k
    ensures Mark(Mark(m, j, s), k, t) == Mark(Mark(m, k, t), j, s)
  {
  }

  /** What settling a message does to its own entries. */
  function Outcome(attempts: nat, ok: bool): Option<Status> {
    if ok then Some(Delivered) else if attempts + 1 >= MAX_DELIVERY_ATTEMPTS then Some(Failed) else None
  }

  function WithOutcome(h: Host, k: Key, outcome: Option<Status>, attempts: nat): Host {
    if outcome.Some? then h.(delivered := Mark(h.delivered, k, outcome.value), attempts := h.attempts - {k.id})
    else h.(attempts := h.attempts[k.id := attempts + 1])
  }

  lemma {:induction false} SettleByOutcome(h: Host, k: Key, ok: bool)
    ensures Settle(h, k, ok) == WithOutcome(h, k, Outcome(Attempts(h, k.id), ok), Attempts(h, k.id))
  {
  }

  lemma {:induction false} OtherAttemptsStay(h: Host, j: Key, k: Key, ok: bool)
    requires j.id != k.id
    ensures Attempts(Settle(h, j, ok), k.id) == Attempts(h, k.id)
  {
  }

  lemma {:induction false} OutcomesCommute(h: Host, j: Key, k: Key, o: Option<Status>, p: Option<Status>, x: nat,
        y: nat)
    requires j.id != k.id
    ensures WithOutcome(WithOutcome(h, j, o, x), k, p, y) == WithOutcome(WithOutcome(h, k, p, y), j, o, x)
  {
    UpdatesCommute(h.attempts, j.id, k.id, x + 1, y + 1);
    UpdatesCommute(h.attempts, k.id, j.id, y + 1, x + 1);
    if o.Some? && p.Some? {
      MarksCommute(h.delivered, j, k, o.value, p.value);
    }
  }

  /** Messages with different ids do not disturb each other. */
  lemma {:induction false} SettlesCommute(h: Host, j: Key, k: Key, okJ: bool, okK: bool)
    requires j.id != k.id
    ensures Settle(Settle(h, j, okJ), k, okK) == Settle(Settle(h, k, okK), j, okJ)
  {
    var x, y := Attempts(h, j.id), Attempts(h, k.id);
    OtherAttemptsStay(h, j, k, okJ);
    OtherAttemptsStay(h, k, j, okK);
    SettleByOutcome(h, j, okJ);
    SettleByOutcome(h, k, okK);
    SettleByOutcome(Settle(h, j, okJ), k, okK);
    SettleByOutcome(Settle(h, k, okK), j, okJ);
    OutcomesCommute(h, j, k, Outcome(x, okJ), Outcome(y, okK), x, y);
  }

  lemma {:induction false} SettleCommutesWithDrain(h: Host, session: Id, ids: seq<Id>, succeeds: Id -> bool,
        k: Key, ok: bool)
    requires k.id !in ids
    ensures SettleAll(Settle(h, k, ok), session, ids, succeeds) == Settle(SettleAll(h, session, ids, succeeds), k, ok)
  {
    if ids != [] {
      var last := ids[|ids| - 1];
      SettleCommutesWithDrain(h, session, ids[..|ids| - 1], succeeds, k, ok);
      SettlesCommute(SettleAll(h, session, ids[..|ids| - 1], succeeds), k, Key(session, last), ok, succeeds(last));
    }
  }

  // ----- a drain among the others -----

  ghost predicate Apart(ops: seq<HostOp>, ids: seq<Id>) {
    forall k :: 0 <= k < |ops| && ops[k].Settled? ==> ops[k].key.id !in ids
  }

  ghost predicate Elsewhere(ops: seq<HostOp>, session: Id) {
    forall k :: 0 <= k < |ops| && !ops[k].Settled? ==> ops[k].session != session
  }

  lemma {:induction false} RunHostConcat(h: Host, a: seq<HostOp>, b: seq<HostOp>)
    ensures RunHost(h, a + b) == RunHost(RunHost(h, a), b)
  {
    if b == [] {
      assert a + b == a;
    } else {
      assert (a + b)[..|a + b| - 1] == a + b[..|b| - 1];
      RunHostConcat(h, a, b[..|b| - 1]);
    }
  }

  lemma {:induction false} StepCommutes(h: Host, op: HostOp, k: Key, ok: bool)
    requires op.Settled? ==> op.key.id != k.id
    ensures Settle(HostStep(h, op), k, ok) == HostStep(Settle(h, k, ok), op)
  {
    if op.Settled? {
      SettlesCommute(h, op.key, k, op.ok, ok);
    }
  }

  lemma {:induction false} RunCommutes(h: Host, ops: seq<HostOp>, k: Key, ok: bool)
    requires Apart(ops, [k.id])
    ensures Settle(RunHost(h, ops), k, ok) == RunHost(Settle(h, k, ok), ops)
  {
    if ops != [] {
      var n := |ops| - 1;
      RunCommutes(h, ops[..n], k, ok);
      assert ops[n].Settled? ==> ops[n].key.id !in [k.id];
      StepCommutes(RunHost(h, ops[..n]), ops[n], k, ok);
    }
  }

  /** A drain with others' messages settled during its awaits is the drain followed by the others. */
  lemma {:induction false} DrainIsUndisturbed(h: Host, session: Id, ids: seq<Id>, succeeds: Id -> bool, others: Others)
    requires Apart(Meanwhile(others, |ids|), ids)
    ensures Drained(h, session, ids, succeeds, others) ==
            RunHost(SettleAll(h, session, ids, succeeds), Meanwhile(others, |ids|))
  {
    if ids != [] {
      var n := |ids| - 1;
      var before, all := Meanwhile(others, n), Meanwhile(others, n + 1);
      assert forall k :: 0 <= k < |before| ==> all[k] == before[k];
      DrainIsUndisturbed(h, session, ids[..n], succeeds, others);
      var alone := SettleAll(h, session, ids[..n], succeeds);
      RunHostConcat(alone, before, others(n));
      RunCommutes(alone, all, Key(session, ids[n]), succeeds(ids[n]));
    }
  }

  lemma {:induction false} LeavingCommutes(h: Host, ops: seq<HostOp>, session: Id)
    requires Elsewhere(ops, session)
    ensures HostStep(RunHost(h, ops), Left(session)) == RunHost(HostStep(h, Left(session)), ops)
  {
    if ops != [] {
      var n := |ops| - 1;
      LeavingCommutes(h, ops[..n], session);
      var g := RunHost(h, ops[..n]);
      match ops[n]
      case Settled(key, ok) => StepCommutes(g, Left(session), key, ok);
      case Entered(other) => assert g.inflight + {other} - {session} == g.inflight - {session} + {other};
      case Left(other) => assert g.inflight - {other} - {session} == g.inflight - {session} - {other};
    }
  }

  lemma {:induction false} GuardIsUndisturbed(h: Host, session: Id, ids: seq<Id>, succeeds: Id -> bool,
        ops: seq<HostOp>)
    requires session !in h.inflight && Elsewhere(ops, session)
    ensures HostStep(RunHost(SettleAll(HostStep(h, Entered(session)), session, ids, succeeds), ops), Left(session)) ==
            RunHost(SettleAll(h, session, ids, succeeds), ops)
  {
    var entered := h.inflight + {session};
    LeavingCommutes(SettleAll(HostStep(h, Entered(session)), session, ids, succeeds), ops, session);
    SettleIgnoresInflight(h, session, ids, succeeds, entered);
    assert entered - {session} == h.inflight;
  }

  /** The drain between the entry of its session and what runs before the session is left. */
  lemma {:induction false} GuardedDrain(h: Host, session: Id, ids: seq<Id>, succeeds: Id -> bool, others: Others)
    requires session !in h.inflight
    requires var all := Meanwhile(others, |ids| + 1); Apart(all, ids) && Elsewhere(all, session)
    ensures var all := Meanwhile(others, |ids| + 1);
            var drained := Drained(HostStep(h, Entered(session)), session, ids, succeeds, others);
            && Apart(Meanwhile(others, |ids|), ids)
            && HostStep(RunHost(drained, others(|ids|)), Left(session)) ==
               RunHost(SettleAll(h, session, ids, succeeds), all)
  {
    var before, all := Meanwhile(others, |ids|), Meanwhile(others, |ids| + 1);
    assert forall k :: 0 <= k < |before| ==> all[k] == before[k];
    var entered := HostStep(h, Entered(session));
    DrainIsUndisturbed(entered, session, ids, succeeds, others);
    RunHostConcat(SettleAll(entered, session, ids, succeeds), before, others(|ids|));
    GuardIsUndisturbed(h, session, ids, succeeds, all);
  }

  // ----- interleaved drains -----

  type Ticket = nat

  /** What a drain read when it began: the due messages in their order, and the marks. */
  datatype Reading = Reading(due: seq<Id>, marks: map<Key, Status>)

  /** A drain: the messages done, those still to do, and whether the call for the first of these is under way. */
  datatype Drain = Drain(session: Id, read: Reading, done: seq<Id>, rest: seq<Id>, awaiting: bool)

  /**
    The host, the containers' queues, the drains under way and the calls they wait for;
    tries counts the calls ever made for a message, wins those that returned.
   */
  datatype World = World(
    host: Host, outbound: set<Key>, drains: map<Ticket, Drain>, calls: map<Key, Ticket>,
    tries: map<Key, nat>, wins: map<Key, nat>)

  function Count(m: map<Key, nat>, k: Key): nat {
    if k in m then m[k] else 0
  }

  datatype Step =
    | DoAppend(key: Key)
    | DoBegin(ticket: Ticket, session: Id, due: seq<Id>)
    | DoCall(ticket: Ticket)
    | DoReturn(ticket: Ticket, ok: bool)
    | DoEnd(ticket: Ticket)

  predicate Distinct(ids: seq<Id>) {
    forall i, j :: 0 <= i < j < |ids| ==> ids[i] != ids[j]
  }

  /** Which session's container makes up an id; that there is one is the uniqueness of ids. */
  type Owner = Id -> Id

  predicate Possible(w: World, s: Step) {
    match s
    case DoAppend(key) => key !in w.outbound
    case DoBegin(ticket, session, due) =>
      ticket !in w.drains && Distinct(due) && forall id :: id in due ==> Key(session, id) in w.outbound
    case DoCall(ticket) => ticket in w.drains && w.drains[ticket].rest != [] && !w.drains[ticket].awaiting
    case DoReturn(ticket, _) => ticket in w.drains && w.drains[ticket].rest != [] && w.drains[ticket].awaiting
    case DoEnd(ticket) => ticket in w.drains && w.drains[ticket].rest == []
  }

  predicate Owned(s: Step, owner: Owner) {
    s.DoAppend? ==> owner(s.key.id) == s.key.session
  }

  function NewDrain(session: Id, due: seq<Id>, marks: map<Key, Status>): Drain {
    Drain(session, Reading(due, marks), [], Undelivered(marks, session, due), false)
  }

  function Next(w: World, s: Step): World
    requires Possible(w, s)
  {
    match s
    case DoAppend(key) => w.(outbound := w.outbound + {key})
    case DoBegin(ticket, session, due) =>
      if session in w.host.inflight then w else
      w.(host := w.host.(inflight := w.host.inflight + {session}),
         drains := w.drains[ticket := NewDrain(session, due, w.host.delivered)])
    case DoCall(ticket) =>
      var d := w.drains[ticket];
      var k := Key(d.session, d.rest[0]);
      w.(drains := w.drains[ticket := d.(awaiting := true)], calls := w.calls[k := ticket],
         tries := w.tries[k := Count(w.tries, k) + 1])
    case DoReturn(ticket, ok) =>
      var d := w.drains[ticket];
      var k := Key(d.session, d.rest[0]);
      w.(host := Settle(w.host, k, ok),
         drains := w.drains[ticket := d.(done := d.done + [d.rest[0]], rest := d.rest[1..], awaiting := false)],
         calls := w.calls - {k},
         wins := if ok then w.wins[k := Count(w.wins, k) + 1] else w.wins)
    case DoEnd(ticket) =>
      w.(host := w.host.(inflight := w.host.inflight - {w.drains[ticket].session}), drains := w.drains - {ticket})
  }

  const START := World(Host(map[], {}, map[]), {}, map[], map[], map[], map[])

  predicate IsRun(w: World, steps: seq<Step>)
    decreases |steps|
  {
    steps == [] || (Possible(w, steps[0]) && IsRun(Next(w, steps[0]), steps[1..]))
  }

  function Run(w: World, steps: seq<Step>): World
    requires IsRun(w, steps)
    decreases |steps|
  {
    if steps == [] then w else Run(Next(w, steps[0]), steps[1..])
  }

  ghost predicate AllOwned(steps: seq<Step>, owner: Owner) {
    forall k :: 0 <= k < |steps| ==> Owned(steps[k], owner)
  }

  // ----- the invariant -----

  /** One message's mark and its calls. */
  predicate Marked(w: World, k: Key) {
    if k in w.host.delivered then
      k in w.outbound && k !in w.calls && Count(w.wins, k) == if w.host.delivered[k] == Delivered then 1 else 0
    else Count(w.wins, k) == 0 && (k in w.calls ==> k in w.outbound)
  }

  /** One message's tries, when its id is its own. */
  predicate Law(w: World, k: Key, owner: Owner) {
    if k in w.host.delivered then
      && owner(k.id) == k.session && k.id !in w.host.attempts
      && 1 <= Count(w.tries, k) <= MAX_DELIVERY_ATTEMPTS
      && (w.host.delivered[k] == Failed ==> Count(w.tries, k) == MAX_DELIVERY_ATTEMPTS)
    else if k in w.outbound then
      owner(k.id) == k.session && Count(w.tries, k) == Attempts(w.host, k.id) + if k in w.calls then 1 else 0
    else Count(w.tries, k) == 0
  }

  /** One or two attempts, of a message in some queue. */
  predicate CounterOk(w: World, id: Id, owner: Owner)
    requires id in w.host.attempts
  {
    1 <= w.host.attempts[id] < MAX_DELIVERY_ATTEMPTS && Key(owner(id), id) in w.outbound
  }

  predicate DrainOk(w: World, t: Ticket)
    requires t in w.drains
  {
    var d := w.drains[t];
    && d.session in w.host.inflight
    && Distinct(d.rest)
    && (d.awaiting ==> d.rest != [])
    && forall i :: 0 <= i < |d.rest| ==> PendingOk(w, Key(d.session, d.rest[i]), d.awaiting && i == 0)
  }

  predicate PendingOk(w: World, k: Key, called: bool) {
    k in w.outbound && k !in w.host.delivered && (k in w.calls <==> called)
  }

  predicate CallOk(w: World, k: Key)
    requires k in w.calls
  {
    var t := w.calls[k];
    t in w.drains && w.drains[t].session == k.session && w.drains[t].awaiting
      && w.drains[t].rest != [] && w.drains[t].rest[0] == k.id
  }

  ghost predicate OneDrainEach(w: World) {
    forall t, u :: t in w.drains && u in w.drains && w.drains[t].session == w.drains[u].session ==> t == u
  }

  /** Marks, drains and calls fit together, whatever the ids. */
  ghost predicate Tidy(w: World) {
    && (forall k :: Marked(w, k))
    && (forall t :: t in w.drains ==> DrainOk(w, t))
    && (forall k :: k in w.calls ==> CallOk(w, k))
    && OneDrainEach(w)
  }

  ghost predicate Counted(w: World, owner: Owner) {
    && (forall k :: Law(w, k, owner))
    && (forall id :: id in w.host.attempts ==> CounterOk(w, id, owner))
  }

  ghost predicate Invariant(w: World, owner: Owner) {
    Tidy(w) && Counted(w, owner)
  }

  /** A drain no step of another session touches stays in order. */
  lemma {:induction false} DrainStays(w: World, w': World, t: Ticket)
    requires t in w.drains && t in w'.drains && w.drains[t] == w'.drains[t] && DrainOk(w, t)
    requires w.drains[t].session in w'.host.inflight
    requires forall k: Key :: k.session == w.drains[t].session ==>
               (k in w.outbound ==> k in w'.outbound) && (k in w.host.delivered <==> k in w'.host.delivered)
                 && (k in w.calls <==> k in w'.calls)
    ensures DrainOk(w', t)
  {
  }

  // ----- marks, drains and calls -----

  lemma {:induction false} UndeliveredDistinct(delivered: map<Key, Status>, session: Id, due: seq<Id>)
    requires Distinct(due)
    ensures Distinct(Undelivered(delivered, session, due))
  {
    if due != [] { UndeliveredDistinct(delivered, session, due[..|due| - 1]); }
  }

  lemma {:induction false} AppendTidy(w: World, key: Key)
    requires Tidy(w) && Possible(w, DoAppend(key))
    ensures Tidy(Next(w, DoAppend(key)))
  {
    var w' := Next(w, DoAppend(key));
    forall k ensures Marked(w', k) {
      assert Marked(w, k);
    }
    forall t | t in w'.drains ensures DrainOk(w', t) {
      DrainStays(w, w', t);
    }
    forall k | k in w'.calls ensures CallOk(w', k) {
      assert CallOk(w, k);
    }
  }

  lemma {:induction false} BeginTidy(w: World, ticket: Ticket, session: Id, due: seq<Id>)
    requires Tidy(w) && Possible(w, DoBegin(ticket, session, due))
    ensures Tidy(Next(w, DoBegin(ticket, session, due)))
  {
    var w' := Next(w, DoBegin(ticket, session, due));
    if session in w.host.inflight {
      return;
    }
    UndeliveredDistinct(w.host.delivered, session, due);
    forall k ensures Marked(w', k) {
      assert Marked(w, k);
    }
    forall k | k in w'.calls ensures CallOk(w', k) && k.session != session {
      assert CallOk(w, k) && DrainOk(w, w.calls[k]);
    }
    forall t | t in w'.drains ensures DrainOk(w', t) && (t != ticket ==> w'.drains[t].session != session) {
      if t != ticket {
        assert DrainOk(w, t);
        DrainStays(w, w', t);
      } else {
        BatchIsPending(w', session, w'.drains[t].rest);
      }
    }
  }

  lemma {:induction false} BatchIsPending(w: World, session: Id, rest: seq<Id>)
    requires forall id :: id in rest ==>
               var k := Key(session, id); k in w.outbound && k !in w.host.delivered && k !in w.calls
    ensures forall i :: 0 <= i < |rest| ==> PendingOk(w, Key(session, rest[i]), false)
  {
  }

  lemma {:induction false} CallTidy(w: World, ticket: Ticket)
    requires Tidy(w) && Possible(w, DoCall(ticket))
    ensures Tidy(Next(w, DoCall(ticket)))
  {
    var w' := Next(w, DoCall(ticket));
    var d := w.drains[ticket];
    var key := Key(d.session, d.rest[0]);
    assert DrainOk(w, ticket);
    assert PendingOk(w, key, false);
    forall k ensures Marked(w', k) {
      assert Marked(w, k);
    }
    forall t | t in w'.drains ensures DrainOk(w', t) {
      assert DrainOk(w, t);
      if t == ticket {
        forall i | 0 <= i < |d.rest| ensures PendingOk(w', Key(d.session, d.rest[i]), i == 0) {
          assert PendingOk(w, Key(d.session, d.rest[i]), false);
        }
      } else {
        DrainStays(w, w', t);
      }
    }
    forall k | k in w'.calls ensures CallOk(w', k) {
      if k != key {
        assert CallOk(w, k);
      }
    }
  }

  lemma {:induction false} ReturnMarks(w: World, ticket: Ticket, ok: bool)
    requires Tidy(w) && Possible(w, DoReturn(ticket, ok))
    ensures forall k :: Marked(Next(w, DoReturn(ticket, ok)), k)
  {
    var w' := Next(w, DoReturn(ticket, ok));
    assert DrainOk(w, ticket);
    assert PendingOk(w, Key(w.drains[ticket].session, w.drains[ticket].rest[0]), true);
    forall k ensures Marked(w', k) {
      assert Marked(w, k);
    }
  }

  lemma {:induction false} ReturnTidy(w: World, ticket: Ticket, ok: bool)
    requires Tidy(w) && Possible(w, DoReturn(ticket, ok))
    ensures Tidy(Next(w, DoReturn(ticket, ok)))
  {
    ReturnMarks(w, ticket, ok);
    var w' := Next(w, DoReturn(ticket, ok));
    var d := w.drains[ticket];
    assert DrainOk(w, ticket);
    forall t | t in w'.drains ensures DrainOk(w', t) {
      assert DrainOk(w, t);
      if t == ticket {
        forall i | 0 <= i < |d.rest| - 1 ensures PendingOk(w', Key(d.session, d.rest[1..][i]), false) {
          assert PendingOk(w, Key(d.session, d.rest[i + 1]), false);
        }
      } else {
        DrainStays(w, w', t);
      }
    }
    forall k | k in w'.calls ensures CallOk(w', k) {
      assert CallOk(w, k);
    }
  }

  lemma {:induction false} EndTidy(w: World, ticket: Ticket)
    requires Tidy(w) && Possible(w, DoEnd(ticket))
    ensures Tidy(Next(w, DoEnd(ticket)))
  {
    var w' := Next(w, DoEnd(ticket));
    forall k ensures Marked(w', k) {
      assert Marked(w, k);
    }
    forall t | t in w'.drains ensures DrainOk(w', t) {
      assert DrainOk(w, t);
      DrainStays(w, w', t);
    }
    forall k | k in w'.calls ensures CallOk(w', k) {
      assert CallOk(w, k);
    }
  }

  lemma {:induction false} StepTidy(w: World, s: Step)
    requires Tidy(w) && Possible(w, s)
    ensures Tidy(Next(w, s))
  {
    match s
    case DoAppend(key) => AppendTidy(w, key);
    case DoBegin(ticket, session, due) => BeginTidy(w, ticket, session, due);
    case DoCall(ticket) => CallTidy(w, ticket);
    case DoReturn(ticket, ok) => ReturnTidy(w, ticket, ok);
    case DoEnd(ticket) => EndTidy(w, ticket);
  }

  lemma {:induction false} RunTidy(w: World, steps: seq<Step>)
    requires Tidy(w) && IsRun(w, steps)
    ensures Tidy(Run(w, steps))
    decreases |steps|
  {
    if steps != [] {
      StepTidy(w, steps[0]);
      RunTidy(Next(w, steps[0]), steps[1..]);
    }
  }

  // ----- tries and counters -----

  lemma {:induction false} AppendCounts(w: World, key: Key, owner: Owner)
    requires Invariant(w, owner) && Possible(w, DoAppend(key)) && owner(key.id) == key.session
    ensures Counted(Next(w, DoAppend(key)), owner)
  {
    var w' := Next(w, DoAppend(key));
    assert key.id in w.host.attempts ==> CounterOk(w, key.id, owner);
    assert Marked(w, key);
    forall k ensures Law(w', k, owner) {
      assert Law(w, k, owner);
    }
    forall id | id in w'.host.attempts ensures CounterOk(w', id, owner) {
      assert CounterOk(w, id, owner);
    }
  }

  lemma {:induction false} SameCounts(w: World, w': World, owner: Owner)
    requires Counted(w, owner) && w'.host.delivered == w.host.delivered && w'.host.attempts == w.host.attempts
    requires w'.outbound == w.outbound && w'.calls == w.calls && w'.tries == w.tries
    ensures Counted(w', owner)
  {
    forall k ensures Law(w', k, owner) {
      assert Law(w, k, owner);
    }
    forall id | id in w'.host.attempts ensures CounterOk(w', id, owner) {
      assert CounterOk(w, id, owner);
    }
  }

  lemma {:induction false} CallCounts(w: World, ticket: Ticket, owner: Owner)
    requires Invariant(w, owner) && Possible(w, DoCall(ticket))
    ensures Counted(Next(w, DoCall(ticket)), owner)
  {
    var w' := Next(w, DoCall(ticket));
    assert DrainOk(w, ticket);
    assert PendingOk(w, Key(w.drains[ticket].session, w.drains[ticket].rest[0]), false);
    forall k ensures Law(w', k, owner) {
      assert Law(w, k, owner);
    }
    forall id | id in w'.host.attempts ensures CounterOk(w', id, owner) {
      assert CounterOk(w, id, owner);
    }
  }

  lemma {:induction false} ReturnCounts(w: World, ticket: Ticket, ok: bool, owner: Owner)
    requires Invariant(w, owner) && Possible(w, DoReturn(ticket, ok))
    ensures Counted(Next(w, DoReturn(ticket, ok)), owner)
  {
    var w' := Next(w, DoReturn(ticket, ok));
    var d := w.drains[ticket];
    var key := Key(d.session, d.rest[0]);
    assert DrainOk(w, ticket);
    assert PendingOk(w, key, true);
    assert Law(w, key, owner);
    assert key.id in w.host.attempts ==> CounterOk(w, key.id, owner);
    forall k ensures Law(w', k, owner) {
      assert Law(w, k, owner) && Marked(w, k);
    }
    forall id | id in w'.host.attempts ensures CounterOk(w', id, owner) {
      if id in w.host.attempts {
        assert CounterOk(w, id, owner);
      }
    }
  }

  lemma {:induction false} StepKeeps(w: World, s: Step, owner: Owner)
    requires Invariant(w, owner) && Possible(w, s) && Owned(s, owner)
    ensures Invariant(Next(w, s), owner)
  {
    StepTidy(w, s);
    match s
    case DoAppend(key) => AppendCounts(w, key, owner);
    case DoBegin(_, _, _) => SameCounts(w, Next(w, s), owner);
    case DoCall(ticket) => CallCounts(w, ticket, owner);
    case DoReturn(ticket, ok) => ReturnCounts(w, ticket, ok, owner);
    case DoEnd(_) => SameCounts(w, Next(w, s), owner);
  }

  lemma {:induction false} RunKeeps(w: World, steps: seq<Step>, owner: Owner)
    requires Invariant(w, owner) && IsRun(w, steps) && AllOwned(steps, owner)
    ensures Invariant(Run(w, steps), owner)
    decreases |steps|
  {
    if steps != [] {
      StepKeeps(w, steps[0], owner);
      RunKeeps(Next(w, steps[0]), steps[1..], owner);
    }
  }

  // ----- whole runs -----

  /**
    However the polls, the calls and the containers' appends interleave, and whatever the ids: a message is
    sent successfully at most once, and marked delivered exactly after a success.
   */
  lemma {:induction false} SentAtMostOnce(steps: seq<Step>, k: Key)
    requires IsRun(START, steps)
    ensures var w := Run(START, steps);
            && Count(w.wins, k) <= 1
            && (Count(w.wins, k) == 1 <==> k in w.host.delivered && w.host.delivered[k] == Delivered)
  {
    RunTidy(START, steps);
    assert Marked(Run(START, steps), k);
  }

  /**
    If moreover every id belongs to one session: a message is tried at most three times; it is marked failed
    only after three tries without success; while its counter stands it is one or two and the message unmarked.
   */
  lemma {:induction false} AtMostOnce(steps: seq<Step>, owner: Owner, k: Key)
    requires IsRun(START, steps) && AllOwned(steps, owner)
    ensures var w := Run(START, steps);
            && Count(w.wins, k) <= 1
            && Count(w.tries, k) <= MAX_DELIVERY_ATTEMPTS
            && (Count(w.wins, k) == 1 <==> k in w.host.delivered && w.host.delivered[k] == Delivered)
            && (k in w.host.delivered && w.host.delivered[k] == Failed ==> Count(w.tries, k) == MAX_DELIVERY_ATTEMPTS)
            && (k in w.outbound && k.id in w.host.attempts ==>
                  k !in w.host.delivered && 1 <= w.host.attempts[k.id] <= 2)
  {
    assert Invariant(START, owner);
    RunKeeps(START, steps, owner);
    SentAtMostOnce(steps, k);
    var w := Run(START, steps);
    assert Law(w, k, owner) && Marked(w, k);
    if k.id in w.host.attempts {
      assert CounterOk(w, k.id, owner);
    }
  }

  /** A marked message keeps its mark, and no further call is made for it. */
  predicate Settles(w: World, w': World) {
    forall k :: k in w.host.delivered ==>
      k in w'.host.delivered && w'.host.delivered[k] == w.host.delivered[k] && Count(w'.tries, k) == Count(w.tries, k)
  }

  lemma {:induction false} StepSettles(w: World, s: Step)
    requires Tidy(w) && Possible(w, s)
    ensures Settles(w, Next(w, s))
  {
    if s.DoCall? {
      assert DrainOk(w, s.ticket);
      assert PendingOk(w, Key(w.drains[s.ticket].session, w.drains[s.ticket].rest[0]), false);
    }
  }

  lemma {:induction false} RunSettles(w: World, steps: seq<Step>)
    requires Tidy(w) && IsRun(w, steps)
    ensures Settles(w, Run(w, steps))
    decreases |steps|
  {
    if steps != [] {
      StepSettles(w, steps[0]);
      StepTidy(w, steps[0]);
      RunSettles(Next(w, steps[0]), steps[1..]);
    }
  }

  /** Whatever the ids, once a message is marked nothing in the rest of the run tries it again or changes the mark. */
  lemma {:induction false} MarkedIsFinal(before: seq<Step>, after: seq<Step>, k: Key)
    requires IsRun(START, before) && IsRun(Run(START, before), after)
    requires k in Run(START, before).host.delivered
    ensures var w, w' := Run(START, before), Run(Run(START, before), after);
            k in w'.host.delivered && w'.host.delivered[k] == w.host.delivered[k]
              && Count(w'.tries, k) == Count(w.tries, k)
  {
    RunTidy(START, before);
    RunSettles(Run(START, before), after);
  }

  // ----- the order of the calls -----

  /** What is done and still to do are the due messages that had no mark, in their order. */
  ghost predicate Sorted(d: Drain) {
    Picks(d.read.due, Unmarked(d.read.marks, d.session), d.done + d.rest)
  }

  ghost predicate AllSorted(w: World) {
    forall t :: t in w.drains ==> Sorted(w.drains[t])
  }

  lemma {:induction false} StepSorted(w: World, s: Step)
    requires AllSorted(w) && Possible(w, s)
    ensures AllSorted(Next(w, s))
  {
    match s
    case DoBegin(ticket, session, due) =>
      UndeliveredInOrder(w.host.delivered, session, due);
      var d := NewDrain(session, due, w.host.delivered);
      assert d.done + d.rest == d.rest;
    case DoReturn(ticket, _) =>
      var d := w.drains[ticket];
      assert d.done + d.rest == d.done + [d.rest[0]] + d.rest[1..];
    case _ =>
  }

  lemma {:induction false} RunSorted(w: World, steps: seq<Step>)
    requires AllSorted(w) && IsRun(w, steps)
    ensures AllSorted(Run(w, steps))
    decreases |steps|
  {
    if steps != [] {
      StepSorted(w, steps[0]);
      RunSorted(Next(w, steps[0]), steps[1..]);
    }
  }

  lemma {:induction false} DoneFirst(d: Drain, i: nat, j: nat)
    requires Sorted(d) && Distinct(d.done + d.rest) && d.rest != [] && i < j < |d.read.due|
    requires Key(d.session, d.read.due[i]) !in d.read.marks && Key(d.session, d.read.due[j]) !in d.read.marks
    requires d.rest[0] == d.read.due[j]
    ensures d.read.due[i] in d.done
  {
    var batch := d.done + d.rest;
    var x, y := PicksInOrder(d.read.due, Unmarked(d.read.marks, d.session), batch, i, j);
    assert batch[|d.done|] == d.rest[0];
    assert y == |d.done|;
    assert batch[x] == d.done[x];
  }

  lemma {:induction false} BatchDistinct(d: Drain)
    requires Sorted(d) && Distinct(d.read.due)
    ensures Distinct(d.done + d.rest)
  {
    var batch, test := d.done + d.rest, Unmarked(d.read.marks, d.session);
    var at: seq<nat> :| PicksAt(d.read.due, test, batch, at);
    forall i, j | 0 <= i < j < |batch| ensures batch[i] != batch[j] {
      assert StandsAt(d.read.due, test, batch, at, i) && StandsAt(d.read.due, test, batch, at, j);
      RisingOrder(at, i, j);
    }
  }

  ghost predicate AllDistinct(w: World) {
    forall t :: t in w.drains ==> Distinct(w.drains[t].read.due)
  }

  lemma {:induction false} RunDistinct(w: World, steps: seq<Step>)
    requires AllDistinct(w) && IsRun(w, steps)
    ensures AllDistinct(Run(w, steps))
    decreases |steps|
  {
    if steps != [] {
      RunDistinct(Next(w, steps[0]), steps[1..]);
    }
  }

  /**
    However the polls interleave, of two due messages that had no mark when the drain began, the later one is
    called only after the call of the earlier one has returned.
   */
  lemma {:induction false} CalledInOrder(steps: seq<Step>, ticket: Ticket, i: nat, j: nat)
    requires IsRun(START, steps) && Possible(Run(START, steps), DoCall(ticket))
    requires var d := Run(START, steps).drains[ticket];
             && i < j < |d.read.due| && d.rest[0] == d.read.due[j]
             && Key(d.session, d.read.due[i]) !in d.read.marks && Key(d.session, d.read.due[j]) !in d.read.marks
    ensures var d := Run(START, steps).drains[ticket]; d.read.due[i] in d.done
  {
    RunSorted(START, steps);
    RunDistinct(START, steps);
    var d := Run(START, steps).drains[ticket];
    BatchDistinct(d);
    DoneFirst(d, i, j);
  }

  /** A drain ends with all that was due and had no mark done, in order. */
  lemma {:induction false} AllDoneAtEnd(steps: seq<Step>, ticket: Ticket)
    requires IsRun(START, steps) && Possible(Run(START, steps), DoEnd(ticket))
    ensures var d := Run(START, steps).drains[ticket];
            Picks(d.read.due, Unmarked(d.read.marks, d.session), d.done)
  {
    RunSorted(START, steps);
    var d := Run(START, steps).drains[ticket];
    assert d.done + d.rest == d.done;
  }
}
