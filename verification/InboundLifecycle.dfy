/** The inbound queue of a session: inserting, retrying with backoff, failing and completing messages. */
module InboundLifecycle {
  import opened Numbers
  import opened Wrappers

  type Id = string

  datatype Status = Pending | Failed | Completed

  /** A row of `messages_in`; times are in seconds. */
  datatype Row = Row(id: Id, seqNo: int, status: Status, tries: nat, processAfter: Option<int>, trigger: bool)

  type Queue = seq<Row>

  const MAX_TRIES := 5

  // ----- operations -----

  function MaxSeq(q: Queue): (m: int)
    ensures forall k :: 0 <= k < |q| ==> q[k].seqNo <= m
    ensures q == [] ==> m == 0
    ensures q != [] ==> exists k :: 0 <= k < |q| && q[k].seqNo == m
  {
    if q == [] then 0 else
    var last, rest := q[|q| - 1], q[..|q| - 1];
    assert forall k :: 0 <= k < |rest| ==> rest[k] == q[k];
    var m := MaxSeq(rest);
    if rest == [] || m < last.seqNo then last.seqNo else m
  }

  function NextEvenSeq(q: Queue): int {
    var max := MaxSeq(q);
    if max < 2 then 2 else max + 2 - max % 2
  }

  predicate HasId(q: Queue, id: Id) {
    exists k :: 0 <= k < |q| && q[k].id == id
  }

  /** The primary key refuses an id that is taken. */
  function Insert(q: Queue, id: Id, processAfter: Option<int>, trigger: bool): Queue {
    if HasId(q, id) then q else q + [Row(id, NextEvenSeq(q), Pending, 0, processAfter, trigger)]
  }

  predicate Scheduled(r: Row, now: int) {
    r.processAfter.Some? && r.processAfter.value > now
  }

  predicate Due(r: Row, now: int) {
    r.status == Pending && r.trigger && !Scheduled(r, now)
  }

  function DuePlaces(q: Queue, now: int): set<nat> {
    set k: nat | k < |q| && Due(q[k], now)
  }

  /** `countDueMessages` */
  function CountDue(q: Queue, now: int): (n: nat)
    ensures n == |DuePlaces(q, now)|
    ensures n > 0 <==> exists k :: 0 <= k < |q| && Due(q[k], now)
  {
    if q == [] then 0 else
    var last, rest := q[|q| - 1], q[..|q| - 1];
    assert forall k :: 0 <= k < |rest| ==> rest[k] == q[k];
    assert DuePlaces(q, now) == DuePlaces(rest, now) + if Due(last, now) then {|rest|} else {};
    CountDue(rest, now) + if Due(last, now) then 1 else 0
  }

  function Retry(r: Row, now: int): Row {
    r.(tries := r.tries + 1, processAfter := Some(now + 5 * Pow2(r.tries)))
  }

  /** What becomes of a claimed row when its container is gone. */
  function ResetRow(r: Row, now: int): Row {
    if r.status != Pending || Scheduled(r, now) then r
    else if r.tries >= MAX_TRIES then r.(status := Failed)
    else Retry(r, now)
  }

  function ResetClaimed(q: Queue, claims: seq<Id>, now: int): (r: Queue)
    ensures |r| == |q| && forall k :: 0 <= k < |q| ==> r[k] == if q[k].id in claims then ResetRow(q[k], now) else q[k]
  {
    seq(|q|, k requires 0 <= k < |q| => if q[k].id in claims then ResetRow(q[k], now) else q[k])
  }

  /** Completed and failed acknowledgements both complete the message. */
  function Complete(q: Queue, finished: set<Id>): (r: Queue)
    ensures |r| == |q| && forall k :: 0 <= k < |q| ==>
            r[k] == if q[k].id in finished then q[k].(status := Completed) else q[k]
  {
    seq(|q|, k requires 0 <= k < |q| => if q[k].id in finished then q[k].(status := Completed) else q[k])
  }

  ghost predicate DistinctIds(q: Queue) {
    forall j, k :: 0 <= j < k < |q| ==> q[j].id != q[k].id
  }

  /** The position of the row with this id, or |q|. */
  function RowOf(q: Queue, id: Id): (k: nat)
    ensures k <= |q|
    ensures k < |q| ==> q[k].id == id
    ensures forall j :: 0 <= j < k ==> q[j].id != id
  {
    if q == [] || q[0].id == id then 0
    else
      assert forall j :: 1 <= j < |q| ==> q[j] == q[1..][j - 1];
      1 + RowOf(q[1..], id)
  }

  // ----- when a running container counts as stuck -----

  datatype Decision = Ok | KillCeiling(heartbeatAge: int, ceiling: int)
    | KillClaim(id: Id, claimAge: int, tolerance: int)

  /** claimedAt is None for a time stamp that does not parse. */
  datatype Claim = Claim(id: Id, claimedAt: Option<int>)

  const ABSOLUTE_CEILING_MS := 1800000
  const CLAIM_STUCK_MS := 60000

  function Max(a: int, b: int): int {
    if a >= b then a else b
  }

  /** A declared Bash timeout widens both limits. */
  function Limit(base: int, bashTimeout: Option<int>): int {
    Max(base, if bashTimeout.Some? then bashTimeout.value else 0)
  }

  /** A heartbeat of 0 means that there is no heartbeat file. */
  predicate PastCeiling(now: int, heartbeat: int, bashTimeout: Option<int>) {
    heartbeat != 0 && now - heartbeat > Limit(ABSOLUTE_CEILING_MS, bashTimeout)
  }

  predicate Silent(c: Claim, now: int, heartbeat: int, bashTimeout: Option<int>) {
    c.claimedAt.Some? && now - c.claimedAt.value > Limit(CLAIM_STUCK_MS, bashTimeout) && heartbeat <= c.claimedAt.value
  }

  predicate Stuck(now: int, heartbeat: int, bashTimeout: Option<int>, claims: seq<Claim>) {
    PastCeiling(now, heartbeat, bashTimeout) ||
      exists k :: 0 <= k < |claims| && Silent(claims[k], now, heartbeat, bashTimeout)
  }

  /** The container is killed exactly if it is stuck, and the first silent claim is named. */
  method DecideStuckAction(now: int, heartbeat: int, bashTimeout: Option<int>, claims: seq<Claim>) returns (d: Decision)
    ensures d == Ok <==> !Stuck(now, heartbeat, bashTimeout, claims)
    ensures d.KillCeiling? <==> PastCeiling(now, heartbeat, bashTimeout)
    ensures d.KillCeiling? ==> d.heartbeatAge == now - heartbeat && d.ceiling == Limit(ABSOLUTE_CEILING_MS, bashTimeout)
    ensures d.KillClaim? ==> exists k :: 0 <= k < |claims| && Silent(claims[k], now, heartbeat, bashTimeout) &&
                                         d == KillClaim(claims[k].id, now - claims[k].claimedAt.value,
                                                        Limit(CLAIM_STUCK_MS, bashTimeout)) &&
                                         forall j :: 0 <= j < k ==> !Silent(claims[j], now, heartbeat, bashTimeout)
  {
    var declared := if bashTimeout.Some? then bashTimeout.value else 0;
    if heartbeat != 0 {
      var age := now - heartbeat;
      var ceiling := Max(ABSOLUTE_CEILING_MS, declared);
      if age > ceiling {
        return KillCeiling(age, ceiling);
      }
    }
    var tolerance := Max(CLAIM_STUCK_MS, declared);
    for i := 0 to |claims|
      invariant forall j :: 0 <= j < i ==> !Silent(claims[j], now, heartbeat, bashTimeout)
    {
      var claim := claims[i];
      if claim.claimedAt == None {
        continue;
      }
      var claimAge := now - claim.claimedAt.value;
      if claimAge <= tolerance {
        continue;
      }
      if heartbeat > claim.claimedAt.value {
        continue;
      }
      return KillClaim(claim.id, claimAge, tolerance);
    }
    d := Ok;
  }

  /** More than this many milliseconds, and more than a declared Bash timeout. */
  predicate LongerThan(ms: int, least: int, bashTimeout: Option<int>) {
    ms > least && (bashTimeout.Some? ==> ms > bashTimeout.value)
  }

  /**
    A container is stuck exactly if its heartbeat is older than half an hour and than the Bash timeout it declared,
    or a claim is older than a minute and than that timeout, with no heartbeat after the claim.
   */
  lemma {:induction false} StuckIff(now: int, heartbeat: int, bashTimeout: Option<int>, claims: seq<Claim>)
    ensures Stuck(now, heartbeat, bashTimeout, claims) <==>
            || (heartbeat != 0 && LongerThan(now - heartbeat, 30 * 60 * 1000, bashTimeout))
            || exists k :: 0 <= k < |claims| && claims[k].claimedAt.Some? && heartbeat <= claims[k].claimedAt.value &&
                           LongerThan(now - claims[k].claimedAt.value, 60 * 1000, bashTimeout)
  {
    forall k | 0 <= k < |claims|
      ensures Silent(claims[k], now, heartbeat, bashTimeout) <==>
              claims[k].claimedAt.Some? && heartbeat <= claims[k].claimedAt.value &&
              LongerThan(now - claims[k].claimedAt.value, 60 * 1000, bashTimeout)
    {
    }
  }

  /** Within the Bash timeout it declared a container is kept, whatever else is late. */
  lemma {:induction false} DeclaredTimeoutKeeps(now: int, heartbeat: int, declared: int, claims: seq<Claim>)
    requires heartbeat != 0 ==> now - heartbeat <= declared
    requires forall k :: 0 <= k < |claims| && claims[k].claimedAt.Some? ==> now - claims[k].claimedAt.value <= declared
    ensures !Stuck(now, heartbeat, Some(declared), claims)
  {
    StuckIff(now, heartbeat, Some(declared), claims);
  }

  /** Waiting longer, or declaring a shorter Bash timeout, never frees a stuck container. */
  lemma {:induction false} StuckStaysStuck(now: int, heartbeat: int, bashTimeout: Option<int>, claims: seq<Claim>,
        later: int, shorter: Option<int>)
    requires Stuck(now, heartbeat, bashTimeout, claims) && now <= later
    requires shorter.Some? && bashTimeout.Some? ==> shorter.value <= bashTimeout.value
    requires shorter.Some? && bashTimeout == None ==> shorter.value <= 0
    ensures Stuck(later, heartbeat, shorter, claims)
  {
  }

  /**
    A heartbeat within the ceiling, or none yet, with every claim before the heartbeat or less than a
    minute old, keeps a container alive whatever it runs.
   */
  lemma {:induction false} FreshHeartbeatIsSafe(now: int, heartbeat: int, bashTimeout: Option<int>, claims: seq<Claim>)
    requires heartbeat != 0 ==> now - heartbeat <= ABSOLUTE_CEILING_MS
    requires forall k :: 0 <= k < |claims| && claims[k].claimedAt.Some? ==>
               claims[k].claimedAt.value < heartbeat || now - claims[k].claimedAt.value <= CLAIM_STUCK_MS
    ensures !Stuck(now, heartbeat, bashTimeout, claims)
  {
  }

  // ----- the queue -----

  class InboundQueue {
    var rows: Queue

    constructor ()
      ensures rows == []
    {
      rows := [];
    }

    method InsertMessage(id: Id, processAfter: Option<int>, trigger: bool) returns (ok: bool)
      modifies this
      ensures rows == Insert(old(rows), id, processAfter, trigger)
      ensures ok <==> !HasId(old(rows), id)
    {
      if RowOf(rows, id) < |rows| {
        return false;
      }
      rows := rows + [Row(id, NextEvenSeq(rows), Pending, 0, processAfter, trigger)];
      ok := true;
    }

    method SyncProcessingAcks(finished: seq<Id>)
      modifies this
      ensures rows == Complete(old(rows), set id | id in finished)
    {
      for i := 0 to |finished|
        invariant rows == Complete(old(rows), set id | id in finished[..i])
      {
        var before := rows;
        rows := seq(|before|, k requires 0 <= k < |before| =>
          if before[k].id == finished[i] && before[k].status != Completed then before[k].(status := Completed)
          else before[k]);
        assert forall id :: id in finished[..i + 1] <==> id in finished[..i] || id == finished[i];
      }
      assert finished[..|finished|] == finished;
    }

    method ResetIfStuck(id: Id, now: int)
      modifies this
      ensures var q := old(rows);
              var k := RowOf(q, id);
              rows == if k == |q| then q else q[k := ResetRow(q[k], now)]
    {
      var k := RowOf(rows, id);
      if k == |rows| || rows[k].status != Pending {
        return;
      }
      var msg := rows[k];
      if msg.processAfter.Some? && msg.processAfter.value > now {
        return;
      }
      if msg.tries >= MAX_TRIES {
        rows := rows[k := msg.(status := Failed)];
      } else {
        var backoffSec := 5000 * Pow2(msg.tries) / 1000;
        rows := rows[k := msg.(tries := msg.tries + 1, processAfter := Some(now + backoffSec))];
      }
    }

    /** For each claim, looks the row up, then reschedules it or gives it up. */
    method ResetStuckProcessingRows(claims: seq<Id>, now: int)
      requires DistinctIds(rows)
      modifies this
      ensures rows == ResetClaimed(old(rows), claims, now)
    {
      for i := 0 to |claims|
        invariant rows == ResetClaimed(old(rows), claims[..i], now)
      {
        ResetClaimedSnoc(old(rows), claims, i, now);
        ResetIfStuck(claims[i], now);
      }
      assert claims[..|claims|] == claims;
    }

    /** What other executions do to the queue while a call is awaited. */
    method Suspend(ops: seq<Op>)
      modifies this
      ensures rows == Run(old(rows), ops)
    {
      rows := Run(rows, ops);
    }

    /**
      One sweep of the session. outbound: the container's database exists; running: a container runs at the
      start; during: what happens to the queue while a wake is awaited; wakeStarts: a container runs after it.
      The claims are those read after the wake; the clock is read for the due messages, the decision and the
      reset.
     */
    method SweepSession(outbound: bool, finished: seq<Id>, claims: seq<Claim>, running: bool, wakeStarts: bool,
            during: seq<Op>, dueAt: int, decidedMs: int, resetAt: int, heartbeat: int, bashTimeout: Option<int>)
      returns (woke: bool, killed: bool)
      requires Ordered(rows)
      modifies this
      ensures var synced := if outbound then Complete(old(rows), set id | id in finished) else old(rows);
              woke <==> !running && exists k :: 0 <= k < |synced| && Due(synced[k], dueAt)
      ensures var alive := running || (woke && wakeStarts);
              && (killed <==> outbound && alive && Stuck(decidedMs, heartbeat, bashTimeout, claims))
              && var reset := outbound && (killed || !alive);
              rows == Run(old(rows),
                SweepOps(outbound, finished, if woke then during else [], reset, claims, resetAt))
    {
      ghost var start := rows;
      if outbound {
        SyncProcessingAcks(finished);
      }
      var due := CountDue(rows, dueAt);
      woke := due > 0 && !running;
      killed := false;
      if woke {
        Suspend(during);
      }
      ghost var between := if woke then during else [];
      var alive := running || (woke && wakeStarts);
      if alive && outbound {
        var decision := DecideStuckAction(decidedMs, heartbeat, bashTimeout, claims);
        killed := decision != Ok;
      }
      if outbound && (killed || !alive) {
        SweepIsRun(start, outbound, finished, between, true, claims, resetAt);
        ResetStuckProcessingRows(Ids(claims), resetAt);
      } else {
        SweepIsRun(start, outbound, finished, between, false, claims, resetAt);
      }
    }
  }

  /** A sweep as operations on the queue: acknowledgements, what others do during the wake, the reset. */
  function SweepOps(outbound: bool, finished: seq<Id>, during: seq<Op>, reset: bool,
        claims: seq<Claim>, now: int): seq<Op> {
    (if outbound then [DoSync(set id | id in finished)] else []) + during +
    (if reset then [DoReset(Ids(claims), now)] else [])
  }

  lemma {:induction false} RunConcat(q: Queue, a: seq<Op>, b: seq<Op>)
    ensures Run(q, a + b) == Run(Run(q, a), b)
    decreases |a|
  {
    if a == [] {
      assert a + b == b;
    } else {
      assert (a + b)[1..] == a[1..] + b;
      RunConcat(Apply(q, a[0]), a[1..], b);
    }
  }

  lemma {:induction false} RunOne(q: Queue, op: Op)
    ensures Run(q, [op]) == Apply(q, op)
  {
    assert [op][1..] == [];
  }

  lemma {:induction false} SweepIsRun(q: Queue, outbound: bool, finished: seq<Id>, during: seq<Op>, reset: bool,
        claims: seq<Claim>, now: int)
    requires Ordered(q)
    ensures var synced := if outbound then Complete(q, set id | id in finished) else q;
            var waited := Run(synced, during);
            && Ordered(waited) && DistinctIds(waited)
            && Run(q, SweepOps(outbound, finished, during, reset, claims, now)) ==
               if reset then ResetClaimed(waited, Ids(claims), now) else waited
  {
    var first := if outbound then [DoSync(set id | id in finished)] else [];
    var last := if reset then [DoReset(Ids(claims), now)] else [];
    RunConcat(q, first + during, last);
    RunConcat(q, first, during);
    if outbound {
      RunOne(q, DoSync(set id | id in finished));
    }
    if reset {
      RunOne(Run(q, first + during), DoReset(Ids(claims), now));
    }
    RunKeepsOrder(q, first + during);
  }

  function Ids(claims: seq<Claim>): seq<Id> {
    seq(|claims|, k requires 0 <= k < |claims| => claims[k].id)
  }

  /** Resetting a row twice in one sweep resets it once. */
  lemma {:induction false} ResetIdempotent(r: Row, now: int)
    ensures ResetRow(ResetRow(r, now), now) == ResetRow(r, now)
  {
  }

  lemma {:induction false} ResetClaimedSnoc(q: Queue, claims: seq<Id>, i: nat, now: int)
    requires DistinctIds(q) && i < |claims|
    ensures var before, after := ResetClaimed(q, claims[..i], now), ResetClaimed(q, claims[..i + 1], now);
            var k := RowOf(before, claims[i]);
            after == if k == |q| then before else before[k := ResetRow(before[k], now)]
  {
    assert claims[..i + 1] == claims[..i] + [claims[i]];
    var before, after := ResetClaimed(q, claims[..i], now), ResetClaimed(q, claims[..i + 1], now);
    var k := RowOf(before, claims[i]);
    forall j | 0 <= j < |q| ensures after[j] == if j == k then ResetRow(before[j], now) else before[j] {
      ResetIdempotent(q[j], now);
      assert before[j].id == q[j].id;
      if k < |q| {
        assert before[k].id == q[k].id;
      }
    }
  }

  // ----- runs -----

  /** The container may claim and acknowledge anything between any two steps, so both sets are arbitrary. */
  datatype Op =
    | DoInsert(id: Id, processAfter: Option<int>, trigger: bool)
    | DoSync(finished: set<Id>)
    | DoReset(claims: seq<Id>, now: int)

  function Apply(q: Queue, op: Op): Queue {
    match op
    case DoInsert(id, after, trigger) => Insert(q, id, after, trigger)
    case DoSync(finished) => Complete(q, finished)
    case DoReset(claims, now) => ResetClaimed(q, claims, now)
  }

  function Run(q: Queue, ops: seq<Op>): Queue
    decreases |ops|
  {
    if ops == [] then q else Run(Apply(q, ops[0]), ops[1..])
  }

  // ----- sequence numbers -----

  ghost predicate Ordered(q: Queue) {
    && (forall k :: 0 <= k < |q| ==> q[k].seqNo >= 2 && q[k].seqNo % 2 == 0)
    && (forall j, k :: 0 <= j < k < |q| ==> q[j].seqNo < q[k].seqNo && q[j].id != q[k].id)
  }

  lemma {:induction false} NextSeqIsFresh(q: Queue)
    ensures NextEvenSeq(q) % 2 == 0 && NextEvenSeq(q) >= 2
    ensures forall k :: 0 <= k < |q| ==> q[k].seqNo < NextEvenSeq(q)
  {
  }

  /** No smaller even number is free above all those in use. */
  lemma {:induction false} NextSeqIsLeast(q: Queue, n: int)
    requires n % 2 == 0 && n >= 2 && forall k :: 0 <= k < |q| ==> q[k].seqNo < n
    ensures NextEvenSeq(q) <= n
  {
    if q != [] {
      var k :| 0 <= k < |q| && q[k].seqNo == MaxSeq(q);
      assert MaxSeq(q) < n;
    }
  }

  lemma {:induction false} SameNumbersOrdered(q: Queue, r: Queue)
    requires Ordered(q) && |r| == |q|
    requires forall k :: 0 <= k < |q| ==> r[k].id == q[k].id && r[k].seqNo == q[k].seqNo
    ensures Ordered(r)
  {
  }

  lemma {:induction false} InsertKeepsOrder(q: Queue, id: Id, processAfter: Option<int>, trigger: bool)
    requires Ordered(q)
    ensures Ordered(Insert(q, id, processAfter, trigger))
  {
    NextSeqIsFresh(q);
    var next := NextEvenSeq(q);
    if !HasId(q, id) {
      AddNewest(q, Row(id, next, Pending, 0, processAfter, trigger));
    }
  }

  lemma {:induction false} AddNewest(q: Queue, r: Row)
    requires Ordered(q) && r.seqNo >= 2 && r.seqNo % 2 == 0
    requires forall k :: 0 <= k < |q| ==> q[k].seqNo < r.seqNo && q[k].id != r.id
    ensures Ordered(q + [r])
  {
  }

  lemma {:induction false} ApplyKeepsOrder(q: Queue, op: Op)
    requires Ordered(q)
    ensures Ordered(Apply(q, op))
  {
    match op
    case DoInsert(id, after, trigger) => InsertKeepsOrder(q, id, after, trigger);
    case DoSync(finished) => SameNumbersOrdered(q, Complete(q, finished));
    case DoReset(claims, now) => SameNumbersOrdered(q, ResetClaimed(q, claims, now));
  }

  /** Sequence numbers stay even, distinct and in the order of insertion, and ids distinct. */
  lemma {:induction false} RunKeepsOrder(q: Queue, ops: seq<Op>)
    requires Ordered(q)
    ensures Ordered(Run(q, ops))
    decreases |ops|
  {
    if ops != [] {
      ApplyKeepsOrder(q, ops[0]);
      RunKeepsOrder(Apply(q, ops[0]), ops[1..]);
    }
  }

  // ----- one row's life -----

  /** What an operation does to a row already in the queue. */
  function RowStep(r: Row, op: Op): Row {
    match op
    case DoInsert(_, _, _) => r
    case DoSync(finished) => if r.id in finished then r.(status := Completed) else r
    case DoReset(claims, now) => if r.id in claims then ResetRow(r, now) else r
  }

  /** A row, the time of its first retry, and the time it was given up, as the run goes. */
  datatype Life = Life(row: Row, firstRetry: Option<int>, failedAt: Option<int>)

  function LifeStep(l: Life, op: Op): Life {
    var after := RowStep(l.row, op);
    Life(after,
         if op.DoReset? && l.row.tries == 0 && after.tries == 1 then Some(op.now) else l.firstRetry,
         if op.DoReset? && l.row.status == Pending && after.status == Failed then Some(op.now) else l.failedAt)
  }

  function LifeAfter(l: Life, ops: seq<Op>): Life
    decreases |ops|
  {
    if ops == [] then l else LifeAfter(LifeStep(l, ops[0]), ops[1..])
  }

  predicate Lawful(l: Life) {
    && l.row.tries <= MAX_TRIES
    && (l.row.status == Failed ==> l.row.tries == MAX_TRIES && l.failedAt.Some?)
    && (l.row.tries > 0 ==> l.firstRetry.Some? && l.row.processAfter.Some? &&
                            l.row.processAfter.value >= l.firstRetry.value + 5 * (Pow2(l.row.tries) - 1))
    && (l.failedAt.Some? ==> l.firstRetry.Some? && l.failedAt.value >= l.firstRetry.value + 155)
    && (l.failedAt.Some? ==> l.row.status != Pending && l.row.tries == MAX_TRIES)
  }

  lemma {:induction false} StepKeepsLawful(l: Life, op: Op)
    requires Lawful(l)
    ensures Lawful(LifeStep(l, op))
  {
    assert Pow2(5) == 32;
    assert Pow2(l.row.tries + 1) == 2 * Pow2(l.row.tries);
  }

  lemma {:induction false} RunKeepsLawful(l: Life, ops: seq<Op>)
    requires Lawful(l)
    ensures Lawful(LifeAfter(l, ops))
    decreases |ops|
  {
    if ops != [] {
      StepKeepsLawful(l, ops[0]);
      RunKeepsLawful(LifeStep(l, ops[0]), ops[1..]);
    }
  }

  lemma {:induction false} ApplyIsRowStep(q: Queue, op: Op, k: nat)
    requires k < |q|
    ensures k < |Apply(q, op)| && Apply(q, op)[k] == RowStep(q[k], op)
  {
  }

  /** No row is lost or moved: each lives its own life in the run. */
  lemma {:induction false} RowsLiveOn(q: Queue, ops: seq<Op>, k: nat, l: Life)
    requires k < |q| && l.row == q[k]
    ensures k < |Run(q, ops)| && Run(q, ops)[k] == LifeAfter(l, ops).row
    decreases |ops|
  {
    if ops != [] {
      ApplyIsRowStep(q, ops[0], k);
      RowsLiveOn(Apply(q, ops[0]), ops[1..], k, LifeStep(l, ops[0]));
    }
  }

  /**
    A message inserted into any queue, after any run: still there with its id and number, tried at most
    five times, its next try at least 5 * (2^tries - 1) seconds after the first retry, and given up only
    with five tries, no sooner than 155 seconds after that retry.
   */
  lemma {:induction false} InsertedMessageLife(q: Queue, id: Id, processAfter: Option<int>, trigger: bool, ops: seq<Op>)
    requires !HasId(q, id)
    ensures var inserted := Insert(q, id, processAfter, trigger);
            var l := LifeAfter(Life(inserted[|q|], None, None), ops);
            |q| < |Run(inserted, ops)| && Run(inserted, ops)[|q|] == l.row
              && Lawful(l) && l.row.id == id && l.row.seqNo == NextEvenSeq(q)
  {
    var inserted := Insert(q, id, processAfter, trigger);
    var l := Life(inserted[|q|], None, None);
    RunKeepsLawful(l, ops);
    RowsLiveOn(inserted, ops, |q|, l);
    LifeKeepsIdentity(l, ops);
  }

  lemma {:induction false} LifeKeepsIdentity(l: Life, ops: seq<Op>)
    ensures var r := LifeAfter(l, ops).row;
            r.id == l.row.id && r.seqNo == l.row.seqNo && r.trigger == l.row.trigger && r.tries >= l.row.tries
    ensures l.row.status == Completed ==> LifeAfter(l, ops).row == l.row
    decreases |ops|
  {
    if ops != [] { LifeKeepsIdentity(LifeStep(l, ops[0]), ops[1..]); }
  }

  /** Completed is final: no later step of host or container changes the row. */
  lemma {:induction false} CompletedIsFinal(q: Queue, ops: seq<Op>, k: nat)
    requires k < |q| && q[k].status == Completed
    ensures k < |Run(q, ops)| && Run(q, ops)[k] == q[k]
  {
    var l := Life(q[k], None, None);
    RowsLiveOn(q, ops, k, l);
    LifeKeepsIdentity(l, ops);
  }

  predicate Acknowledges(op: Op, id: Id) {
    op.DoSync? && id in op.finished
  }

  /** Failed is not final: the row stays failed exactly as long as no acknowledgement names it. */
  lemma {:induction false} FailedUntilAcknowledged(l: Life, ops: seq<Op>)
    requires l.row.status == Failed
    ensures LifeAfter(l, ops).row.status == Failed <==> forall k :: 0 <= k < |ops| ==> !Acknowledges(ops[k], l.row.id)
    decreases |ops|
  {
    if ops != [] {
      assert forall k :: 1 <= k < |ops| ==> ops[k] == ops[1..][k - 1];
      if Acknowledges(ops[0], l.row.id) {
        LifeKeepsIdentity(LifeStep(l, ops[0]), ops[1..]);
      } else {
        FailedUntilAcknowledged(LifeStep(l, ops[0]), ops[1..]);
      }
    }
  }
}
