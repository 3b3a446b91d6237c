/** The memory tables, and the ledger of reinforcements they keep. */
module MemoryStore {
  import opened Wrappers

  type Id = string

  datatype Category = Fact | Preference | Correction | Entity | Custom
  datatype Trust = High | Medium | Low

  /** A row of `memories`, without its time stamps and access count. */
  datatype Memory = Memory(
    content: string,
    context: Option<string>,
    category: Category,
    trust: Trust,
    tags: seq<string>,
    embedded: bool,
    strength: int,
    active: bool,
    supersededBy: Option<Id>,
    contradicts: seq<Id>)

  datatype Reinforcement = Reinforcement(memoryId: Id, session: string, context: Option<string>)

  type Memories = map<Id, Memory>

  /** Both tables; `rows` lists the memories in insertion order. */
  datatype Tables = Tables(memories: Memories, rows: seq<Id>, reinforcements: seq<Reinforcement>)

  // ----- what the duplicate searches may answer -----

  /** `_find_exact_duplicate` */
  type ExactSearch = (Memories, string) -> Option<Id>

  datatype Near = NoNear | NearReinforce(id: Id) | NearWarn(id: Id)

  /** `_find_near_duplicate`; the flag says whether the new memory has an embedding. */
  type NearSearch = (Memories, string, bool) -> Near

  ghost predicate FindsActive(exact: ExactSearch) {
    forall m: Memories, c: string :: exact(m, c).Some? ==> exact(m, c).value in m && m[exact(m, c).value].active
  }

  ghost predicate ReinforcesActive(near: NearSearch) {
    forall m: Memories, c: string, e: bool :: near(m, c, e).NearReinforce? ==>
      near(m, c, e).id in m && m[near(m, c, e).id].active
  }

  // ----- operations -----

  datatype Outcome = Created(id: Id) | Reinforced(id: Id) | Failed

  datatype Entry = Entry(content: string, context: Option<string>, category: Category, trust: Trust,
                         tags: seq<string>, embedded: bool, session: Option<string>)

  function NewMemory(e: Entry): Memory {
    Memory(e.content, e.context, e.category, e.trust, e.tags, e.embedded, 1, true, None, [])
  }

  /** A row for an unknown memory breaks the foreign key, and nothing is written. */
  function Reinforce(t: Tables, id: Id, session: string, context: Option<string>): Tables {
    if id !in t.memories then t else
    var m := t.memories[id];
    t.(reinforcements := t.reinforcements + [Reinforcement(id, session, context)],
       memories := t.memories[id := m.(strength := m.strength + 1)])
  }

  function SessionName(e: Entry): string {
    if e.session == None || e.session.value == "" then "unknown" else e.session.value
  }

  /** newId is the generated id; if it is taken, the primary key rejects the row. */
  function Store(t: Tables, e: Entry, newId: Id, exact: ExactSearch, near: NearSearch): (Tables, Outcome) {
    var dup := exact(t.memories, e.content);
    if dup.Some? then (Reinforce(t, dup.value, SessionName(e), e.context), Reinforced(dup.value)) else
    var similar := near(t.memories, e.content, e.embedded);
    if similar.NearReinforce? then (Reinforce(t, similar.id, SessionName(e), e.context), Reinforced(similar.id))
    else if newId in t.memories then (t, Failed)
    else (t.(memories := t.memories[newId := NewMemory(e)], rows := t.rows + [newId]), Created(newId))
  }

  function Forget(t: Tables, id: Id, supersededBy: Option<Id>): Tables {
    if id !in t.memories then t else
    t.(memories := t.memories[id := t.memories[id].(active := false, supersededBy := supersededBy)])
  }

  predicate CanContradict(t: Tables, a: Id, b: Id) {
    a in t.memories && b in t.memories && a != b
  }

  function AddContradiction(t: Tables, id: Id, other: Id): Tables
    requires id in t.memories
  {
    var m := t.memories[id];
    if other in m.contradicts then t
    else t.(memories := t.memories[id := m.(contradicts := m.contradicts + [other])])
  }

  function MarkContradiction(t: Tables, a: Id, b: Id): Tables {
    if CanContradict(t, a, b) then AddContradiction(AddContradiction(t, a, b), b, a) else t
  }

  /** Deactivates the memories of a set, as pruning and a replacing import do. */
  function Deactivate(t: Tables, ids: set<Id>): Tables {
    t.(memories := map id | id in t.memories ::
         if id in ids then t.memories[id].(active := false) else t.memories[id])
  }

  predicate IsSessionName(name: string, session: Option<string>) {
    session == Some(name) || (name == "unknown" && (session == None || session == Some("")))
  }

  /** What the duplicate searches find to reinforce, the search for an exact duplicate first. */
  predicate FoundTwin(t: Tables, e: Entry, exact: ExactSearch, near: NearSearch, id: Id) {
    var twin, similar := exact(t.memories, e.content), near(t.memories, e.content, e.embedded);
    if twin.Some? then twin.value == id else similar == NearReinforce(id)
  }

  /** The entry is now a memory: all of it in a new row, or one more reinforcement of an active one. */
  ghost predicate Recorded(t: Tables, u: Tables, e: Entry, outcome: Outcome) {
    match outcome
    case Created(id) =>
      && id !in t.memories && u.memories.Keys == t.memories.Keys + {id} && u.rows == t.rows + [id]
      && u.reinforcements == t.reinforcements
      && var m := u.memories[id];
         m.active && m.strength == 1 && m.content == e.content && m.context == e.context && m.category == e.category &&
         m.trust == e.trust && m.tags == e.tags && m.embedded == e.embedded
           && m.contradicts == [] && m.supersededBy == None
    case Reinforced(id) =>
      && id in t.memories && t.memories[id].active && u.memories.Keys == t.memories.Keys && u.rows == t.rows
      && u.memories[id] == t.memories[id].(strength := t.memories[id].strength + 1)
      && |u.reinforcements| == |t.reinforcements| + 1 && t.reinforcements < u.reinforcements
      && var r := u.reinforcements[|t.reinforcements|];
         r.memoryId == id && r.context == e.context && IsSessionName(r.session, e.session)
    case Failed => u == t
  }

  /**
    A store reinforces what the searches find, and else makes a new memory unless the generated id is taken; it
    touches no other memory.
   */
  lemma {:induction false} StoreRecords(t: Tables, e: Entry, newId: Id, exact: ExactSearch, near: NearSearch)
    requires FindsActive(exact) && ReinforcesActive(near)
    ensures var (u, outcome) := Store(t, e, newId, exact, near);
            && Recorded(t, u, e, outcome)
            && (forall id :: outcome == Reinforced(id) <==> FoundTwin(t, e, exact, near, id))
            && (outcome == Failed <==> !outcome.Reinforced? && newId in t.memories)
            && (outcome.Created? ==> outcome.id == newId)
            && (forall id :: id in t.memories && !(outcome.Reinforced? && outcome.id == id) ==>
              id in u.memories && u.memories[id] == t.memories[id])
  {
  }

  class MemoryDb {
    var memories: Memories
    var rows: seq<Id>
    var reinforcements: seq<Reinforcement>

    ghost function Contents(): Tables
      reads this
    {
      Tables(memories, rows, reinforcements)
    }

    constructor ()
      ensures Contents() == Tables(map[], [], [])
    {
      memories, rows, reinforcements := map[], [], [];
    }

    method AddReinforcement(id: Id, session: string, context: Option<string>) returns (ok: bool)
      modifies this
      ensures Contents() == Reinforce(old(Contents()), id, session, context)
      ensures ok <==> id in old(memories)
    {
      if id !in memories {
        return false;
      }
      reinforcements := reinforcements + [Reinforcement(id, session, context)];
      memories := memories[id := memories[id].(strength := memories[id].strength + 1)];
      ok := true;
    }

    method StoreEntry(e: Entry, newId: Id, exact: ExactSearch, near: NearSearch) returns (outcome: Outcome)
      modifies this
      ensures (Contents(), outcome) == Store(old(Contents()), e, newId, exact, near)
    {
      var dup := exact(memories, e.content);
      if dup.Some? {
        var _ := AddReinforcement(dup.value, SessionName(e), e.context);
        return Reinforced(dup.value);
      }
      var similar := near(memories, e.content, e.embedded);
      if similar.NearReinforce? {
        var _ := AddReinforcement(similar.id, SessionName(e), e.context);
        return Reinforced(similar.id);
      }
      if newId in memories {
        return Failed;
      }
      memories := memories[newId := NewMemory(e)];
      rows := rows + [newId];
      outcome := Created(newId);
    }

    method ForgetMemory(id: Id, supersededBy: Option<Id>) returns (found: bool)
      modifies this
      ensures Contents() == Forget(old(Contents()), id, supersededBy)
      ensures found <==> id in old(memories)
    {
      if id !in memories {
        return false;
      }
      memories := memories[id := memories[id].(active := false, supersededBy := supersededBy)];
      found := true;
    }

    /** `UPDATE memories SET active = 0 WHERE active = 1` */
    method DeactivateAll()
      modifies this
      ensures Contents() == Deactivate(old(Contents()), old(memories).Keys)
    {
      memories := map id | id in memories :: memories[id].(active := false);
    }

    method Contradict(a: Id, b: Id) returns (ok: bool)
      modifies this
      ensures Contents() == MarkContradiction(old(Contents()), a, b)
      ensures ok <==> CanContradict(old(Contents()), a, b)
    {
      if a !in memories || b !in memories || a == b {
        return false;
      }
      var ofA, ofB := memories[a].contradicts, memories[b].contradicts;
      if b !in ofA {
        memories := memories[a := memories[a].(contradicts := ofA + [b])];
      }
      if a !in ofB {
        memories := memories[b := memories[b].(contradicts := ofB + [a])];
      }
      ok := true;
    }
  }

  // ----- runs -----

  datatype Op =
    | DoStore(entry: Entry, newId: Id)
    | DoReinforce(id: Id, session: string, context: Option<string>)
    | DoForget(id: Id, supersededBy: Option<Id>)
    | DoContradict(a: Id, b: Id)
    | DoDeactivate(ids: set<Id>)

  function Apply(t: Tables, op: Op, exact: ExactSearch, near: NearSearch): Tables {
    match op
    case DoStore(e, newId) => Store(t, e, newId, exact, near).0
    case DoReinforce(id, session, context) => Reinforce(t, id, session, context)
    case DoForget(id, successor) => Forget(t, id, successor)
    case DoContradict(a, b) => MarkContradiction(t, a, b)
    case DoDeactivate(ids) => Deactivate(t, ids)
  }

  function Run(t: Tables, ops: seq<Op>, exact: ExactSearch, near: NearSearch): Tables
    decreases |ops|
  {
    if ops == [] then t else Run(Apply(t, ops[0], exact, near), ops[1..], exact, near)
  }

  // ----- the ledger -----

  /** How many reinforcement rows a memory has. */
  function Count(rs: seq<Reinforcement>, id: Id): nat {
    if rs == [] then 0 else
    Count(rs[..|rs| - 1], id) + (if rs[|rs| - 1].memoryId == id then 1 else 0)
  }

  ghost predicate NoDuplicates<T(!new)>(s: seq<T>) {
    forall i, j :: 0 <= i < j < |s| ==> s[i] != s[j]
  }

  ghost predicate StrengthsMatch(t: Tables) {
    && (forall id :: id in t.memories ==> t.memories[id].strength == 1 + Count(t.reinforcements, id))
    && (forall i :: 0 <= i < |t.reinforcements| ==> t.reinforcements[i].memoryId in t.memories)
  }

  ghost predicate RowsMatch(t: Tables) {
    NoDuplicates(t.rows) && (forall id :: id in t.rows <==> id in t.memories)
  }

  ghost predicate ContradictionsMatch(t: Tables) {
    forall a :: a in t.memories ==>
      && NoDuplicates(t.memories[a].contradicts)
      && a !in t.memories[a].contradicts
      && forall b :: b in t.memories[a].contradicts ==> b in t.memories && a in t.memories[b].contradicts
  }

  ghost predicate Ledger(t: Tables) {
    StrengthsMatch(t) && RowsMatch(t) && ContradictionsMatch(t)
  }

  lemma {:induction false} CountSnoc(rs: seq<Reinforcement>, r: Reinforcement, id: Id)
    ensures Count(rs + [r], id) == Count(rs, id) + (if r.memoryId == id then 1 else 0)
  {
    assert (rs + [r])[..|rs|] == rs;
  }

  lemma {:induction false} CountUnknown(rs: seq<Reinforcement>, id: Id)
    requires forall i :: 0 <= i < |rs| ==> rs[i].memoryId != id
    ensures Count(rs, id) == 0
  {
    if rs != [] { CountUnknown(rs[..|rs| - 1], id); }
  }

  lemma {:induction false} FrameStrengths(t: Tables, u: Tables)
    requires StrengthsMatch(t) && RowsMatch(t)
    requires u.rows == t.rows && u.reinforcements == t.reinforcements && u.memories.Keys == t.memories.Keys
    requires forall id :: id in t.memories ==> u.memories[id].strength == t.memories[id].strength
    ensures StrengthsMatch(u) && RowsMatch(u)
  {
  }

  lemma {:induction false} FrameContradictions(t: Tables, u: Tables)
    requires ContradictionsMatch(t)
    requires u.memories.Keys == t.memories.Keys
    requires forall id :: id in t.memories ==> u.memories[id].contradicts == t.memories[id].contradicts
    ensures ContradictionsMatch(u)
  {
  }

  lemma {:induction false} ReinforceKeepsLedger(t: Tables, id: Id, session: string, context: Option<string>)
    requires Ledger(t)
    ensures Ledger(Reinforce(t, id, session, context))
  {
    if id in t.memories {
      var r, u := Reinforcement(id, session, context), Reinforce(t, id, session, context);
      FrameContradictions(t, u);
      forall x | x in u.memories ensures u.memories[x].strength == 1 + Count(u.reinforcements, x) {
        CountSnoc(t.reinforcements, r, x);
      }
    }
  }

  lemma {:induction false} InsertKeepsLedger(t: Tables, e: Entry, newId: Id)
    requires Ledger(t) && newId !in t.memories
    ensures Ledger(t.(memories := t.memories[newId := NewMemory(e)], rows := t.rows + [newId]))
  {
    CountUnknown(t.reinforcements, newId);
  }

  lemma {:induction false} MarkKeepsLedger(t: Tables, a: Id, b: Id)
    requires Ledger(t)
    ensures Ledger(MarkContradiction(t, a, b))
  {
    if CanContradict(t, a, b) {
      MarkOnlyPair(t, a, b);
      FrameStrengths(t, MarkContradiction(t, a, b));
      MarkKeepsContradictions(t, a, b);
    }
  }

  function With(others: seq<Id>, id: Id): (r: seq<Id>)
    ensures forall x :: x in r <==> x in others || x == id
  {
    if id in others then others else others + [id]
  }

  lemma {:induction false} MarkOnlyPair(t: Tables, a: Id, b: Id)
    requires CanContradict(t, a, b)
    ensures var m, n := t.memories, MarkContradiction(t, a, b).memories;
            && n == m[a := m[a].(contradicts := With(m[a].contradicts, b))]
                     [b := m[b].(contradicts := With(m[b].contradicts, a))]
    ensures MarkContradiction(t, a, b).rows == t.rows
    ensures MarkContradiction(t, a, b).reinforcements == t.reinforcements
  {
  }

  lemma {:induction false} MarkKeepsContradictions(t: Tables, a: Id, b: Id)
    requires CanContradict(t, a, b) && ContradictionsMatch(t)
    ensures ContradictionsMatch(MarkContradiction(t, a, b))
  {
    MarkOnlyPair(t, a, b);
  }

  lemma {:induction false} ApplyKeepsLedger(t: Tables, op: Op, exact: ExactSearch, near: NearSearch)
    requires Ledger(t)
    ensures Ledger(Apply(t, op, exact, near))
  {
    match op
    case DoStore(e, newId) => StoreKeepsLedger(t, e, newId, exact, near);
    case DoReinforce(id, session, context) => ReinforceKeepsLedger(t, id, session, context);
    case DoForget(id, successor) =>
      FrameStrengths(t, Forget(t, id, successor));
      FrameContradictions(t, Forget(t, id, successor));
    case DoContradict(a, b) => MarkKeepsLedger(t, a, b);
    case DoDeactivate(ids) =>
      FrameStrengths(t, Deactivate(t, ids));
      FrameContradictions(t, Deactivate(t, ids));
  }

  lemma {:induction false} StoreKeepsLedger(t: Tables, e: Entry, newId: Id, exact: ExactSearch, near: NearSearch)
    requires Ledger(t)
    ensures Ledger(Store(t, e, newId, exact, near).0)
  {
    var dup, similar := exact(t.memories, e.content), near(t.memories, e.content, e.embedded);
    if dup.Some? {
      ReinforceKeepsLedger(t, dup.value, SessionName(e), e.context);
    } else if similar.NearReinforce? {
      ReinforceKeepsLedger(t, similar.id, SessionName(e), e.context);
    } else if newId !in t.memories {
      InsertKeepsLedger(t, e, newId);
    }
  }

  ghost predicate Ages(m: Memory, n: Memory) {
    && n.content == m.content
    && n.strength >= m.strength
    && (n.active ==> m.active)
    && (forall b :: b in m.contradicts ==> b in n.contradicts)
  }

  /** Nothing is lost, nothing comes back to life, and nothing weakens. */
  ghost predicate Grows(t: Tables, u: Tables) {
    && t.rows <= u.rows && t.reinforcements <= u.reinforcements
    && forall id :: id in t.memories ==> id in u.memories && Ages(t.memories[id], u.memories[id])
  }

  lemma {:induction false} ApplyGrows(t: Tables, op: Op, exact: ExactSearch, near: NearSearch)
    ensures Grows(t, Apply(t, op, exact, near))
  {
    match op
    case DoStore(e, newId) => StoreGrows(t, e, newId, exact, near);
    case DoReinforce(_, _, _) =>
    case DoForget(_, _) =>
    case DoContradict(a, b) =>
      if CanContradict(t, a, b) { MarkOnlyPair(t, a, b); }
    case DoDeactivate(_) =>
  }

  lemma {:induction false} StoreGrows(t: Tables, e: Entry, newId: Id, exact: ExactSearch, near: NearSearch)
    ensures Grows(t, Store(t, e, newId, exact, near).0)
  {
  }

  /** Whatever operations run, the ledger balances, and memories only fade and strengthen. */
  lemma {:induction false} RunKeepsLedger(t: Tables, ops: seq<Op>, exact: ExactSearch, near: NearSearch)
    requires Ledger(t)
    ensures Ledger(Run(t, ops, exact, near)) && Grows(t, Run(t, ops, exact, near))
    decreases |ops|
  {
    if ops != [] {
      var u := Apply(t, ops[0], exact, near);
      ApplyKeepsLedger(t, ops[0], exact, near);
      ApplyGrows(t, ops[0], exact, near);
      RunKeepsLedger(u, ops[1..], exact, near);
    }
  }

  /** The strengths above 1 of the memories in a list of ids. */
  function Surplus(memories: Memories, ids: seq<Id>): int
    requires forall id :: id in ids ==> id in memories
  {
    if ids == [] then 0 else
    var last := ids[|ids| - 1];
    Surplus(memories, ids[..|ids| - 1]) + memories[last].strength - 1
  }

  function CountAll(rs: seq<Reinforcement>, ids: seq<Id>): nat {
    if ids == [] then 0 else CountAll(rs, ids[..|ids| - 1]) + Count(rs, ids[|ids| - 1])
  }

  lemma {:induction false} SurplusIsCountAll(t: Tables, ids: seq<Id>)
    requires StrengthsMatch(t) && forall id :: id in ids ==> id in t.memories
    ensures Surplus(t.memories, ids) == CountAll(t.reinforcements, ids)
  {
    if ids != [] {
      assert ids[|ids| - 1] in ids;
      SurplusIsCountAll(t, ids[..|ids| - 1]);
    }
  }

  lemma {:induction false} CountAllSnoc(rs: seq<Reinforcement>, r: Reinforcement, ids: seq<Id>)
    requires NoDuplicates(ids)
    ensures CountAll(rs + [r], ids) == CountAll(rs, ids) + (if r.memoryId in ids then 1 else 0)
  {
    if ids != [] {
      var last := |ids| - 1;
      CountSnoc(rs, r, ids[last]);
      CountAllSnoc(rs, r, ids[..last]);
      assert r.memoryId in ids <==> r.memoryId in ids[..last] || r.memoryId == ids[last];
    }
  }

  lemma {:induction false} CountAllTotal(rs: seq<Reinforcement>, ids: seq<Id>)
    requires NoDuplicates(ids) && forall i :: 0 <= i < |rs| ==> rs[i].memoryId in ids
    ensures CountAll(rs, ids) == |rs|
  {
    if rs == [] {
      CountAllEmpty(ids);
    } else {
      var last := |rs| - 1;
      CountAllTotal(rs[..last], ids);
      CountAllSnoc(rs[..last], rs[last], ids);
      assert rs[..last] + [rs[last]] == rs;
    }
  }

  lemma {:induction false} CountAllEmpty(ids: seq<Id>)
    ensures CountAll([], ids) == 0
  {
    if ids != [] { CountAllEmpty(ids[..|ids| - 1]); }
  }

  /** The reinforcement total equals the sum, over all memories, of strength - 1. */
  lemma {:induction false} LedgerBalances(t: Tables)
    requires Ledger(t)
    ensures Surplus(t.memories, t.rows) == |t.reinforcements|
  {
    SurplusIsCountAll(t, t.rows);
    CountAllTotal(t.reinforcements, t.rows);
  }
}
