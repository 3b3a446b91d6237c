/** The sessions table, and finding or creating the session a message belongs to. */
module Sessions {
  import opened Wrappers

  type Id = string

  datatype Mode = Shared | PerThread | AgentShared

  /** A row of `sessions`. Its id is its creation number, so generated ids are taken to be distinct. */
  datatype Session = Session(id: nat, agent: Id, group: Option<Id>, thread: Option<Id>, active: bool, createdAt: int)

  /** The rows in the order of their creation. */
  type Table = seq<Session>

  /** JavaScript's truth of a string or null. */
  predicate Truthy(s: Option<Id>) {
    s.Some? && s.value != ""
  }

  /** An empty thread id is looked up like a missing one. */
  function LookupThread(thread: Option<Id>): Option<Id> {
    if Truthy(thread) then thread else None
  }

  predicate Has(s: Session, agent: Id, group: Option<Id>, thread: Option<Id>) {
    s.active && s.agent == agent && s.group == group && s.thread == thread
  }

  /** `findSessionForAgent`, as the row's position. */
  function Find(t: Table, agent: Id, group: Id, thread: Option<Id>): (k: Option<nat>)
    ensures k.Some? ==> k.value < |t| && Has(t[k.value], agent, Some(group), LookupThread(thread))
    ensures k == None <==> forall j :: 0 <= j < |t| ==> !Has(t[j], agent, Some(group), LookupThread(thread))
  {
    if t == [] then None else
    var rest := t[..|t| - 1];
    assert forall j :: 0 <= j < |rest| ==> rest[j] == t[j];
    var k := Find(rest, agent, group, thread);
    if k.Some? then k else if Has(t[|t| - 1], agent, Some(group), LookupThread(thread)) then Some(|t| - 1) else None
  }

  predicate IsOf(s: Session, agent: Id) {
    s.active && s.agent == agent
  }

  /** `findSessionByAgentGroup`: the active session of the agent created last. */
  function Newest(t: Table, agent: Id): (k: Option<nat>)
    ensures k.Some? ==> k.value < |t| && IsOf(t[k.value], agent)
    ensures k.Some? ==> forall j :: 0 <= j < |t| && IsOf(t[j], agent) ==> t[j].createdAt <= t[k.value].createdAt
    ensures k == None <==> forall j :: 0 <= j < |t| ==> !IsOf(t[j], agent)
  {
    if t == [] then None else
    var last, rest := t[|t| - 1], t[..|t| - 1];
    assert forall j :: 0 <= j < |rest| ==> rest[j] == t[j];
    var k := Newest(rest, agent);
    if IsOf(last, agent) && (k == None || t[k.value].createdAt < last.createdAt) then Some(|t| - 1) else k
  }

  datatype Request = Request(agent: Id, group: Option<Id>, thread: Option<Id>, mode: Mode)

  function Existing(t: Table, r: Request): (k: Option<nat>)
    ensures k.Some? ==> k.value < |t|
  {
    if r.mode == AgentShared then Newest(t, r.agent)
    else if Truthy(r.group) then Find(t, r.agent, r.group.value, if r.mode == Shared then None else r.thread)
    else None
  }

  function NewSession(t: Table, r: Request, now: int): Session {
    Session(|t|, r.agent, r.group, if r.mode == PerThread then r.thread else None, true, now)
  }

  /** `resolveSession`: the table after it and the position of the session. */
  function Resolve(t: Table, r: Request, now: int): (Table, nat) {
    var k := Existing(t, r);
    if k.Some? then (t, k.value) else (t + [NewSession(t, r, now)], |t|)
  }

  function Close(t: Table, id: nat): Table {
    if id < |t| then t[id := t[id].(active := false)] else t
  }

  class SessionStore {
    var sessions: Table

    constructor ()
      ensures sessions == []
    {
      sessions := [];
    }

    method ResolveSession(agent: Id, group: Option<Id>, thread: Option<Id>, mode: Mode, now: int)
      returns (session: Session, created: bool)
      modifies this
      ensures var (after, k) := Resolve(old(sessions), Request(agent, group, thread, mode), now);
              sessions == after && k < |after| && session == after[k]
      ensures created <==> Existing(old(sessions), Request(agent, group, thread, mode)) == None
    {
      if mode == AgentShared {
        var existing := Newest(sessions, agent);
        if existing.Some? {
          return sessions[existing.value], false;
        }
      } else if Truthy(group) {
        var lookup := if mode == Shared then None else thread;
        var existing := Find(sessions, agent, group.value, lookup);
        if existing.Some? {
          return sessions[existing.value], false;
        }
      }
      session := Session(|sessions|, agent, group, if mode == PerThread then thread else None, true, now);
      sessions := sessions + [session];
      created := true;
    }
  }

  /** The session is active, of the agent, and but for agent-shared of the requested chat and thread; if new, of now. */
  lemma {:induction false} ResolvedIsRight(t: Table, r: Request, now: int)
    ensures var (after, k) := Resolve(t, r, now);
            && k < |after| && t <= after && IsOf(after[k], r.agent)
            && (r.mode != AgentShared ==> after[k].group == r.group)
            && (r.mode == Shared ==> after[k].thread == None)
            && (r.mode == PerThread && r.thread != Some("") ==> after[k].thread == r.thread)
            && (Existing(t, r) == None ==> after[k].createdAt == now)
  {
  }

  // ----- resolving twice -----

  /** A session created for the request is stored where the request looks for one. */
  predicate FindsItsOwn(r: Request) {
    r.mode == AgentShared || (Truthy(r.group) && (r.mode == Shared || r.thread != Some("")))
  }

  /**
    The same request made twice gets the same session exactly if the first call found one, or the
    request looks where it stores: not with an empty thread id, nor without a messaging group.
   */
  lemma {:induction false} ResolveTwiceIff(t: Table, r: Request, now: int, later: int)
    ensures var (t1, first) := Resolve(t, r, now);
            var (t2, second) := Resolve(t1, r, later);
            first == second <==> Existing(t, r).Some? || FindsItsOwn(r)
  {
    var (t1, first) := Resolve(t, r, now);
    if Existing(t, r) == None {
      var s := NewSession(t, r, now);
      assert t1[|t|] == s;
      assert forall j :: 0 <= j < |t| ==> t1[j] == t[j];
      if r.mode == AgentShared {
        assert IsOf(t1[|t|], r.agent);
        assert forall j :: 0 <= j < |t| ==> !IsOf(t1[j], r.agent);
      } else if Truthy(r.group) {
        var lookup := if r.mode == Shared then None else r.thread;
        assert forall j :: 0 <= j < |t| ==> !Has(t1[j], r.agent, r.group, LookupThread(lookup));
        assert Has(t1[|t|], r.agent, r.group, LookupThread(lookup)) <==> FindsItsOwn(r);
      }
    }
  }

  /** An empty thread id opens a new session for every message. */
  lemma {:induction false} EmptyThreadNeverFound(agent: Id, group: Id, now: int, later: int)
    requires group != ""
    ensures var r := Request(agent, Some(group), Some(""), PerThread);
            var (t1, first) := Resolve([], r, now);
            var (t2, second) := Resolve(t1, r, later);
            first == 0 && second == 1 && |t2| == 2
  {
    ResolveTwiceIff([], Request(agent, Some(group), Some(""), PerThread), now, later);
  }

  // ----- runs -----

  datatype Op = DoResolve(request: Request, now: int) | DoClose(id: nat)

  function Apply(t: Table, op: Op): Table {
    match op
    case DoResolve(r, now) => Resolve(t, r, now).0
    case DoClose(id) => Close(t, id)
  }

  function Run(t: Table, ops: seq<Op>): Table
    decreases |ops|
  {
    if ops == [] then t else Run(Apply(t, ops[0]), ops[1..])
  }

  /** A run is its operations, one after the other. */
  lemma {:induction false} RunSnoc(t: Table, ops: seq<Op>, op: Op)
    ensures Run(t, []) == t && Run(t, ops + [op]) == Apply(Run(t, ops), op)
    decreases |ops|
  {
    if ops == [] {
      assert ([] + [op])[1..] == [];
    } else {
      assert (ops + [op])[1..] == ops[1..] + [op];
      RunSnoc(Apply(t, ops[0]), ops[1..], op);
    }
  }

  predicate IsClosed(t: Table, id: nat) {
    id < |t| && !t[id].active
  }

  lemma {:induction false} RunKeepsClosed(t: Table, ops: seq<Op>, id: nat)
    requires IsClosed(t, id)
    ensures IsClosed(Run(t, ops), id)
    decreases |ops|
  {
    if ops != [] {
      assert IsClosed(Apply(t, ops[0]), id);
      RunKeepsClosed(Apply(t, ops[0]), ops[1..], id);
    }
  }

  /** A session that is closed is never resolved to again. */
  lemma {:induction false} ClosedNeverResolved(t: Table, id: nat, ops: seq<Op>, r: Request, now: int)
    requires id < |t|
    ensures Resolve(Run(Close(t, id), ops), r, now).1 != id
  {
    var after := Run(Close(t, id), ops);
    RunKeepsClosed(Close(t, id), ops, id);
    ResolvedIsRight(after, r, now);
  }

  // ----- the clock -----

  predicate Later(a: int, b: int, strict: bool) {
    if strict then a < b else a <= b
  }

  /** The clock of the operations does not go back, or, if strict, rises between any two of them. */
  predicate Forward(ops: seq<Op>, strict: bool) {
    forall j, k :: 0 <= j < k < |ops| && ops[j].DoResolve? && ops[k].DoResolve? ==>
      Later(ops[j].now, ops[k].now, strict)
  }

  ghost predicate InTime(t: Table, strict: bool) {
    forall j, k :: 0 <= j < k < |t| ==> Later(t[j].createdAt, t[k].createdAt, strict)
  }

  /** The rows are older than the operations to come. */
  ghost predicate AllBefore(t: Table, ops: seq<Op>, strict: bool) {
    forall j, k :: 0 <= j < |t| && 0 <= k < |ops| && ops[k].DoResolve? ==> Later(t[j].createdAt, ops[k].now, strict)
  }

  lemma {:induction false} RunInTime(t: Table, ops: seq<Op>, strict: bool)
    requires Forward(ops, strict) && InTime(t, strict) && AllBefore(t, ops, strict)
    ensures InTime(Run(t, ops), strict)
    decreases |ops|
  {
    if ops != [] {
      assert forall k :: 0 <= k < |ops| - 1 ==> ops[1..][k] == ops[k + 1];
      RunInTime(Apply(t, ops[0]), ops[1..], strict);
    }
  }

  /**
    An agent-shared request gets the active session of its agent that was created last; where the clock stands
    still, one created at the same time as that.
   */
  lemma {:induction false} AgentGetsLastCreated(ops: seq<Op>, r: Request, now: int, strict: bool)
    requires Forward(ops, strict) && r.mode == AgentShared && Existing(Run([], ops), r).Some?
    ensures var (t, k) := Resolve(Run([], ops), r, now);
            forall j :: k < j < |t| && IsOf(t[j], r.agent) ==> !strict && t[j].createdAt == t[k].createdAt
  {
    RunInTime([], ops, strict);
  }

  predicate GoodOp(op: Op) {
    op.DoResolve? ==> op.request.thread != Some("")
  }

  predicate Twins(a: Session, b: Session) {
    a.active && b.active && a.agent == b.agent && Truthy(a.group) && a.group == b.group && a.thread == b.thread
  }

  ghost predicate OneEach(t: Table) {
    && (forall j :: 0 <= j < |t| ==> t[j].id == j && t[j].thread != Some(""))
    && (forall j, k :: 0 <= j < k < |t| ==> !Twins(t[j], t[k]))
  }

  lemma {:induction false} ApplyKeepsOneEach(t: Table, op: Op)
    requires OneEach(t) && GoodOp(op)
    ensures OneEach(Apply(t, op))
  {
  }

  /** At most one active session per agent, messaging group and thread, whatever is resolved and closed. */
  lemma {:induction false} RunKeepsOneEach(t: Table, ops: seq<Op>)
    requires OneEach(t) && forall k :: 0 <= k < |ops| ==> GoodOp(ops[k])
    ensures OneEach(Run(t, ops))
    decreases |ops|
  {
    if ops != [] {
      ApplyKeepsOneEach(t, ops[0]);
      RunKeepsOneEach(Apply(t, ops[0]), ops[1..]);
    }
  }

  lemma {:induction false} OnlyOne(t: Table, j: nat, k: nat, agent: Id, group: Id, thread: Option<Id>)
    requires OneEach(t) && j < |t| && k < |t| && group != ""
    requires Has(t[j], agent, Some(group), thread) && Has(t[k], agent, Some(group), thread)
    ensures j == k
  {
  }

  predicate NoClose(ops: seq<Op>) {
    forall k :: 0 <= k < |ops| ==> !ops[k].DoClose?
  }

  lemma {:induction false} RunOnlyAdds(t: Table, ops: seq<Op>)
    requires NoClose(ops)
    ensures t <= Run(t, ops)
    decreases |ops|
  {
    if ops != [] {
      assert t <= Apply(t, ops[0]);
      RunOnlyAdds(Apply(t, ops[0]), ops[1..]);
    }
  }

  /** The thread a request is filed under. */
  function KeyThread(r: Request): Option<Id> {
    if r.mode == Shared then None else r.thread
  }

  /** A session of the request's key is found by every later request with that key. */
  lemma {:induction false} KeyStays(t: Table, k: nat, after: Table, r: Request)
    requires OneEach(after) && t <= after && k < |t|
    requires r.mode != AgentShared && Truthy(r.group) && r.thread != Some("")
    requires Has(t[k], r.agent, r.group, KeyThread(r))
    ensures Existing(after, r) == Some(k)
  {
    assert Has(after[k], r.agent, r.group, KeyThread(r));
    var found := Existing(after, r);
    assert found.Some?;
    OnlyOne(after, k, found.value, r.agent, r.group.value, KeyThread(r));
  }

  /** Requests for one agent, messaging group and thread get one session, whatever else is resolved between them. */
  lemma {:induction false} SameKeySameSession(before: seq<Op>, r: Request, now: int, between: seq<Op>,
        again: Request, later: int)
    requires forall k :: 0 <= k < |before| ==> GoodOp(before[k])
    requires forall k :: 0 <= k < |between| ==> GoodOp(between[k])
    requires NoClose(between)
    requires r.mode != AgentShared && again.mode != AgentShared && Truthy(r.group)
    requires r.thread != Some("") && again.thread != Some("")
    requires r.agent == again.agent && r.group == again.group && KeyThread(r) == KeyThread(again)
    ensures var (t, first) := Resolve(Run([], before), r, now);
            Resolve(Run(t, between), again, later) == (Run(t, between), first)
  {
    RunKeepsOneEach([], before);
    var start := Run([], before);
    ApplyKeepsOneEach(start, DoResolve(r, now));
    var (t, first) := Resolve(start, r, now);
    RunKeepsOneEach(t, between);
    RunOnlyAdds(t, between);
    KeyStays(t, first, Run(t, between), again);
  }
}
