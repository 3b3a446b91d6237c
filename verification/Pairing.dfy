/** One-time pairing codes: creation, consumption and the list of records. */
module Pairing {
  import opened PairingCode
  import opened Strings
  import opened Wrappers

  const KEEP := 50
  const MAX_ATTEMPTS := 10

  datatype Intent = Main | WireTo(folder: string) | NewAgent(folder: string)

  datatype Status = Pending | Consumed | Invalidated

  datatype Chat = Chat(platformId: string, isGroup: bool, name: Option<string>, adminUserId: Option<string>)

  datatype Attempt = Attempt(candidate: Code, platformId: string, at: int, matched: bool)

  datatype Record = Record(
    code: Code, intent: Intent, createdAt: int, status: Status,
    consumed: Option<(Chat, int)>, attempts: seq<Attempt>)

  // ----- the store -----

  function LastN<T>(s: seq<T>, n: nat): seq<T> {
    if |s| <= n then s else s[|s| - n..]
  }

  function Sweep(s: seq<Record>): seq<Record> {
    LastN(s, KEEP)
  }

  function Supersede(s: seq<Record>, intent: Intent): (r: seq<Record>)
    ensures |r| == |s|
    ensures forall k :: 0 <= k < |s| ==>
              r[k] == if s[k].status == Pending && s[k].intent == intent then s[k].(status := Invalidated) else s[k]
  {
    seq(|s|, k requires 0 <= k < |s| =>
      if s[k].status == Pending && s[k].intent == intent then s[k].(status := Invalidated) else s[k])
  }

  function PendingCodes(s: seq<Record>): set<Code> {
    set k | 0 <= k < |s| && s[k].status == Pending :: s[k].code
  }

  /** None when no draw is free: `generateCode` throws before anything is written. */
  function Create(s: seq<Record>, intent: Intent, draws: Draws, at: int): Option<seq<Record>> {
    var kept := Supersede(Sweep(s), intent);
    var code := FirstFree(PendingCodes(kept), draws);
    if code == None then None else
    Some(kept + [Record(code.value, intent, at, Pending, None, [])])
  }

  function WithAttempt(r: Record, a: Attempt, status: Status): Record {
    r.(attempts := LastN(r.attempts + [a], MAX_ATTEMPTS), status := status)
  }

  /** The first position of a pending record with this code, or |s|. */
  function FindPending(s: seq<Record>, code: Code): (k: nat)
    ensures k <= |s|
    ensures k < |s| ==> s[k].status == Pending && s[k].code == code
    ensures forall j :: 0 <= j < k ==> !(s[j].status == Pending && s[j].code == code)
  {
    if s == [] then 0
    else if s[0].code == code && s[0].status == Pending then 0
    else
      assert forall j :: 1 <= j < |s| ==> s[j] == s[1..][j - 1];
      1 + FindPending(s[1..], code)
  }

  function MissAll(s: seq<Record>, a: Attempt): (r: seq<Record>)
    ensures |r| == |s|
    ensures forall k :: 0 <= k < |s| ==>
            r[k] == if s[k].status == Pending then WithAttempt(s[k], a, Invalidated) else s[k]
  {
    seq(|s|, k requires 0 <= k < |s| => if s[k].status == Pending then WithAttempt(s[k], a, Invalidated) else s[k])
  }

  function Consume(s: seq<Record>, code: Code, chat: Chat, at: int): seq<Record> {
    var kept := Sweep(s);
    var k := FindPending(kept, code);
    if k == |kept| then MissAll(kept, Attempt(code, chat.platformId, at, false))
    else
      var attempt := Attempt(code, chat.platformId, at, true);
      kept[k := WithAttempt(kept[k], attempt, Status.Consumed).(consumed := Some((chat, at)))]
  }

  predicate Matches(s: seq<Record>, code: Code) {
    FindPending(Sweep(s), code) < |Sweep(s)|
  }

  /** The first position of a record with this code, or |s|. */
  function FindCode(s: seq<Record>, code: Code): (k: nat)
    ensures k <= |s|
    ensures k < |s| ==> s[k].code == code
    ensures forall j :: 0 <= j < k ==> s[j].code != code
  {
    if s == [] || s[0].code == code then 0
    else
      assert forall j :: 1 <= j < |s| ==> s[j] == s[1..][j - 1];
      1 + FindCode(s[1..], code)
  }

  function GetPairing(s: seq<Record>, code: Code): Option<Record> {
    var kept := Sweep(s);
    var k := FindCode(kept, code);
    if k < |kept| then Some(kept[k]) else None
  }

  /** The loop of `createPairing`. */
  method SupersedeAll(swept: seq<Record>, intent: Intent) returns (store: seq<Record>)
    ensures store == Supersede(swept, intent)
  {
    store := swept;
    for i := 0 to |store|
      invariant |store| == |swept|
      invariant forall j :: 0 <= j < i ==> store[j] == Supersede(swept, intent)[j]
      invariant forall j :: i <= j < |store| ==> store[j] == swept[j]
    {
      if store[i].status == Pending && store[i].intent == intent {
        store := store[i := store[i].(status := Invalidated)];
      }
    }
  }

  /** The loop of `tryConsume` after a miss. */
  method InvalidateAll(swept: seq<Record>, attempt: Attempt) returns (store: seq<Record>)
    ensures store == MissAll(swept, attempt)
  {
    store := swept;
    for i := 0 to |store|
      invariant |store| == |swept|
      invariant forall j :: 0 <= j < i ==> store[j] == MissAll(swept, attempt)[j]
      invariant forall j :: i <= j < |store| ==> store[j] == swept[j]
    {
      if store[i].status == Pending {
        store := store[i := WithAttempt(store[i], attempt, Invalidated)];
      }
    }
  }

  /** The pairing file; every operation reads it, works on the list and writes it back. */
  class PairingStore {
    var pairings: seq<Record>

    constructor ()
      ensures pairings == []
    {
      pairings := [];
    }

    method CreatePairing(intent: Intent, draws: Draws, at: int) returns (created: Option<Record>)
      modifies this
      ensures var made := Create(old(pairings), intent, draws, at);
              if made == None then created == None && pairings == old(pairings)
              else pairings == made.value && created == Some(made.value[|made.value| - 1])
    {
      var store := SupersedeAll(LastN(pairings, KEEP), intent);
      var code := GenerateCode(PendingCodes(store), draws);
      if code == None {
        return None;
      }
      var record := Record(code.value, intent, at, Pending, None, []);
      pairings := store + [record];
      created := Some(record);
    }

    /** Fails, like a message without a code, without touching the file. */
    method TryConsume(re: Regex, text: string, bot: string, chat: Chat, at: int)
      returns (failed: bool, record: Option<Record>)
      modifies this
      ensures var reading := ExtractCode(re, text, bot);
              && (failed <==> reading == Throws)
              && if !reading.ACode? then record == None && pairings == old(pairings) else
              pairings == Consume(old(pairings), reading.code, chat, at) &&
              if Matches(old(pairings), reading.code)
              then record == Some(pairings[FindPending(Sweep(old(pairings)), reading.code)])
              else record == None
    {
      var reading := ExtractCode(re, text, bot);
      if !reading.ACode? {
        return reading == Throws, None;
      }
      failed := false;
      var store := LastN(pairings, KEEP);
      var k := FindPending(store, reading.code);
      if k == |store| {
        pairings := InvalidateAll(store, Attempt(reading.code, chat.platformId, at, false));
        return false, None;
      }
      var attempt := Attempt(reading.code, chat.platformId, at, true);
      var r := WithAttempt(store[k], attempt, Status.Consumed).(consumed := Some((chat, at)));
      pairings := store[k := r];
      record := Some(r);
    }
  }

  // ----- the invariant -----

  /** A pending record has seen no attempt; a consumed one has seen one match, an invalidated one at most one miss. */
  predicate WellFormed(r: Record) {
    && IsCode(r.code)
    && |r.attempts| <= 1
    && (r.status == Pending ==> r.attempts == [])
    && (r.status == Status.Consumed <==> r.consumed.Some?)
    && (r.status == Status.Consumed <==> r.attempts != [] && r.attempts[0].matched)
    && (r.status == Status.Consumed ==> r.attempts[0].candidate == r.code)
  }

  predicate Clash(a: Record, b: Record) {
    a.status == Pending && b.status == Pending && (a.code == b.code || a.intent == b.intent)
  }

  predicate Good(s: seq<Record>) {
    && |s| <= KEEP + 1
    && (forall k :: 0 <= k < |s| ==> WellFormed(s[k]))
    && (forall j, k :: 0 <= j < k < |s| ==> !Clash(s[j], s[k]))
  }

  datatype Op = DoCreate(intent: Intent, draws: Draws, at: int) | DoConsume(code: Code, chat: Chat, at: int)

  /** A message without a code does nothing; the others carry one. */
  predicate ValidOp(op: Op) {
    op.DoConsume? ==> IsCode(op.code)
  }

  function Apply(s: seq<Record>, op: Op): seq<Record> {
    match op
    case DoCreate(intent, draws, at) => var made := Create(s, intent, draws, at); if made == None then s else made.value
    case DoConsume(code, chat, at) => Consume(s, code, chat, at)
  }

  function Run(s: seq<Record>, ops: seq<Op>): seq<Record>
    decreases |ops|
  {
    if ops == [] then s else Run(Apply(s, ops[0]), ops[1..])
  }

  lemma {:induction false} SweepKeepsGood(s: seq<Record>)
    requires Good(s)
    ensures Good(Sweep(s)) && |Sweep(s)| <= KEEP
  {
  }

  lemma {:induction false} CreateKeepsGood(s: seq<Record>, intent: Intent, draws: Draws, at: int)
    requires Good(s)
    ensures Good(Apply(s, DoCreate(intent, draws, at)))
  {
    SweepKeepsGood(s);
    var swept := Sweep(s);
    var kept := Supersede(swept, intent);
    var made := Create(s, intent, draws, at);
    if made.Some? {
      assert made.value[..|kept|] == kept;
      forall j, k | 0 <= j < k < |made.value| ensures !Clash(made.value[j], made.value[k]) {
        if k < |kept| {
          assert !Clash(swept[j], swept[k]);
        } else if kept[j].status == Pending {
          assert kept[j].code in PendingCodes(kept);
        }
      }
    }
  }

  lemma {:induction false} ConsumeKeepsGood(s: seq<Record>, code: Code, chat: Chat, at: int)
    requires Good(s) && IsCode(code)
    ensures Good(Apply(s, DoConsume(code, chat, at)))
  {
    SweepKeepsGood(s);
    var kept, after := Sweep(s), Consume(s, code, chat, at);
    forall j, k | 0 <= j < k < |after| ensures !Clash(after[j], after[k]) {
      assert !Clash(kept[j], kept[k]);
    }
  }

  /** Whatever is created and tried, pending codes and intents stay distinct and the list short. */
  lemma {:induction false} RunKeepsGood(s: seq<Record>, ops: seq<Op>)
    requires Good(s) && forall k :: 0 <= k < |ops| ==> ValidOp(ops[k])
    ensures Good(Run(s, ops))
    decreases |ops|
  {
    if ops != [] {
      assert ValidOp(ops[0]);
      match ops[0] {
        case DoCreate(intent, draws, at) => CreateKeepsGood(s, intent, draws, at);
        case DoConsume(code, chat, at) => ConsumeKeepsGood(s, code, chat, at);
      }
      RunKeepsGood(Apply(s, ops[0]), ops[1..]);
    }
  }

  /** A well-formed code consumes exactly one record, or leaves none pending. */
  lemma {:induction false} ConsumesOneOrInvalidatesAll(s: seq<Record>, code: Code, chat: Chat, at: int)
    requires Good(s)
    ensures var kept, after := Sweep(s), Consume(s, code, chat, at);
            if code in PendingCodes(kept) then
              exists k :: 0 <= k < |kept| && kept[k].status == Pending && kept[k].code == code &&
                          after == kept[k := kept[k].(status := Status.Consumed, consumed := Some((chat, at)),
                                                      attempts := [Attempt(code, chat.platformId, at, true)])]
            else
              |after| == |kept| &&
              forall k :: 0 <= k < |kept| ==> after[k] == if kept[k].status == Pending
                then kept[k].(status := Invalidated, attempts := [Attempt(code, chat.platformId, at, false)])
                else kept[k]
  {
    SweepKeepsGood(s);
    var kept := Sweep(s);
    var k := FindPending(kept, code);
    if k < |kept| {
      assert kept[k].code in PendingCodes(kept);
      assert WellFormed(kept[k]);
      var attempt := Attempt(code, chat.platformId, at, true);
      assert kept[k].attempts + [attempt] == [attempt];
      assert Consume(s, code, chat, at) ==
        kept[k := kept[k].(status := Status.Consumed, consumed := Some((chat, at)), attempts := [attempt])];
    } else {
      forall j | 0 <= j < |kept| && kept[j].status == Pending ensures kept[j].attempts == [] && kept[j].code != code {
        assert WellFormed(kept[j]);
      }
    }
  }

  // ----- histories -----

  /** Every record ever made: those the sweep dropped, then those in the file. */
  datatype History = History(gone: seq<Record>, kept: seq<Record>) {
    function All(): seq<Record> { gone + kept }
  }

  function Dropped(before: seq<Record>): seq<Record> {
    before[..|before| - |Sweep(before)|]
  }

  function Next(h: History, op: Op): History {
    if op.DoCreate? && Create(h.kept, op.intent, op.draws, op.at) == None then h
    else History(h.gone + Dropped(h.kept), Apply(h.kept, op))
  }

  function RunHistory(h: History, ops: seq<Op>): History
    decreases |ops|
  {
    if ops == [] then h else RunHistory(Next(h, ops[0]), ops[1..])
  }

  /** Only a pending record changes, and never its code or intent. */
  predicate Evolves(a: Record, b: Record) {
    a == b || (
      a.status == Pending && b.status != Pending &&
      a.code == b.code && a.intent == b.intent && a.createdAt == b.createdAt)
  }

  predicate Extends(before: seq<Record>, after: seq<Record>) {
    |before| <= |after| && forall k :: 0 <= k < |before| ==> Evolves(before[k], after[k])
  }

  lemma {:induction false} ApplyExtends(s: seq<Record>, op: Op)
    requires !(op.DoCreate? && Create(s, op.intent, op.draws, op.at) == None)
    ensures Extends(Sweep(s), Apply(s, op))
  {
    var swept, after := Sweep(s), Apply(s, op);
    match op
    case DoCreate(intent, draws, at) => assert after[..|swept|] == Supersede(swept, intent);
    case DoConsume(code, chat, at) =>
  }

  lemma {:induction false} ExtendsBehind(gone: seq<Record>, before: seq<Record>, after: seq<Record>)
    requires Extends(before, after)
    ensures Extends(gone + before, gone + after)
  {
  }

  lemma {:induction false} NextExtends(h: History, op: Op)
    ensures Extends(h.All(), Next(h, op).All())
  {
    if op.DoCreate? && Create(h.kept, op.intent, op.draws, op.at) == None {
      return;
    }
    ApplyExtends(h.kept, op);
    assert h.All() == h.gone + Dropped(h.kept) + Sweep(h.kept);
    ExtendsBehind(h.gone + Dropped(h.kept), Sweep(h.kept), Apply(h.kept, op));
  }

  /** Consumed and invalidated records never change again, in any run. */
  lemma {:induction false} FinalIsFinal(h: History, ops: seq<Op>)
    ensures Extends(h.All(), RunHistory(h, ops).All())
    decreases |ops|
  {
    if ops != [] {
      NextExtends(h, ops[0]);
      FinalIsFinal(Next(h, ops[0]), ops[1..]);
    }
  }

  lemma {:induction false} HistoryKeepsStore(h: History, ops: seq<Op>)
    ensures RunHistory(h, ops).kept == Run(h.kept, ops)
    decreases |ops|
  {
    if ops != [] { HistoryKeepsStore(Next(h, ops[0]), ops[1..]); }
  }

  function CountConsumed(s: seq<Record>): nat {
    if s == [] then 0 else (if s[|s| - 1].status == Status.Consumed then 1 else 0) + CountConsumed(s[..|s| - 1])
  }

  /** How many messages of a run got a record back. */
  function Successes(s: seq<Record>, ops: seq<Op>): nat
    decreases |ops|
  {
    if ops == [] then 0 else
    (if ops[0].DoConsume? && Matches(s, ops[0].code) then 1 else 0) + Successes(Apply(s, ops[0]), ops[1..])
  }

  lemma {:induction false} CountAppend(a: seq<Record>, b: seq<Record>)
    ensures CountConsumed(a + b) == CountConsumed(a) + CountConsumed(b)
  {
    if b == [] {
      assert a + b == a;
    } else {
      assert (a + b)[..|a + b| - 1] == a + b[..|b| - 1];
      CountAppend(a, b[..|b| - 1]);
    }
  }

  lemma {:induction false} CountSame(a: seq<Record>, b: seq<Record>)
    requires |a| == |b| &&
             forall k :: 0 <= k < |a| ==> (a[k].status == Status.Consumed <==> b[k].status == Status.Consumed)
    ensures CountConsumed(a) == CountConsumed(b)
  {
    if a != [] { CountSame(a[..|a| - 1], b[..|b| - 1]); }
  }

  lemma {:induction false} CountUpdate(s: seq<Record>, k: nat, r: Record)
    requires k < |s| && s[k].status != Status.Consumed && r.status == Status.Consumed
    ensures CountConsumed(s[k := r]) == CountConsumed(s) + 1
  {
    var last := |s| - 1;
    if k == last {
      assert s[k := r][..last] == s[..last];
    } else {
      assert s[k := r][..last] == s[..last][k := r];
      CountUpdate(s[..last], k, r);
    }
  }

  lemma {:induction false} CreateCounts(s: seq<Record>, intent: Intent, draws: Draws, at: int)
    requires Create(s, intent, draws, at).Some?
    ensures CountConsumed(Create(s, intent, draws, at).value) == CountConsumed(Sweep(s))
  {
    var superseded, made := Supersede(Sweep(s), intent), Create(s, intent, draws, at).value;
    CountSame(Sweep(s), superseded);
    assert made[..|made| - 1] == superseded && made[|made| - 1].status == Pending;
  }

  lemma {:induction false} ConsumeCounts(s: seq<Record>, code: Code, chat: Chat, at: int)
    ensures CountConsumed(Consume(s, code, chat, at)) == CountConsumed(Sweep(s)) + if Matches(s, code) then 1 else 0
  {
    var kept := Sweep(s);
    var k := FindPending(kept, code);
    if k < |kept| {
      CountUpdate(kept, k, Consume(s, code, chat, at)[k]);
    } else {
      CountSame(kept, Consume(s, code, chat, at));
    }
  }

  lemma {:induction false} NextCounts(h: History, op: Op)
    ensures CountConsumed(Next(h, op).All()) ==
            CountConsumed(h.All()) + if op.DoConsume? && Matches(h.kept, op.code) then 1 else 0
  {
    if op.DoCreate? && Create(h.kept, op.intent, op.draws, op.at) == None {
      return;
    }
    match op {
      case DoCreate(intent, draws, at) => CreateCounts(h.kept, intent, draws, at);
      case DoConsume(code, chat, at) => ConsumeCounts(h.kept, code, chat, at);
    }
    var gone := h.gone + Dropped(h.kept);
    assert h.All() == gone + Sweep(h.kept);
    CountAppend(gone, Sweep(h.kept));
    CountAppend(gone, Apply(h.kept, op));
  }

  /** Over any run, the records consumed are as many as the messages answered with a record. */
  lemma {:induction false} ConsumedAreSuccesses(h: History, ops: seq<Op>)
    ensures CountConsumed(RunHistory(h, ops).All()) == CountConsumed(h.All()) + Successes(h.kept, ops)
    decreases |ops|
  {
    if ops != [] {
      NextCounts(h, ops[0]);
      assert Next(h, ops[0]).kept == Apply(h.kept, ops[0]);
      ConsumedAreSuccesses(Next(h, ops[0]), ops[1..]);
    }
  }
}
