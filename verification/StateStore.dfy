/** The chat state store: locks that expire, and bounded queues kept as numbered rows. */
module StateStore {
  import opened Selections
  import opened Wrappers

  type Key = string
  type Token = string
  type Json = string

  /** A row of `chat_sdk_locks`; the thread is the primary key. */
  datatype LockRow = LockRow(token: Token, expiresAt: int)

  type LockTable = map<Key, LockRow>

  /** A row of `chat_sdk_lists` under one key; (key, idx) is the primary key. */
  datatype ListRow = ListRow(idx: int, value: Json, expiresAt: Option<int>)

  /** The rows of each key, in the order of their idx. */
  type ListTable = map<Key, seq<ListRow>>

  // ----- locks -----

  function DropExpired(locks: LockTable, thread: Key, now: int): LockTable {
    if thread in locks && locks[thread].expiresAt < now then locks - {thread} else locks
  }

  function Acquire(locks: LockTable, thread: Key, row: LockRow, now: int): LockTable {
    var rest := DropExpired(locks, thread, now);
    if thread in rest then rest else rest[thread := row]
  }

  predicate Holds(locks: LockTable, thread: Key, token: Token) {
    thread in locks && locks[thread].token == token
  }

  function Release(locks: LockTable, thread: Key, token: Token): LockTable {
    if Holds(locks, thread, token) then locks - {thread} else locks
  }

  function Extend(locks: LockTable, thread: Key, token: Token, expiresAt: int): LockTable {
    if Holds(locks, thread, token) then locks[thread := LockRow(token, expiresAt)] else locks
  }

  function Unexpired(locks: LockTable, now: int): LockTable {
    map thread | thread in locks && locks[thread].expiresAt >= now :: locks[thread]
  }

  // ----- lists -----

  function RowsOf(lists: ListTable, key: Key): seq<ListRow> {
    if key in lists then lists[key] else []
  }

  /** The rows that `DELETE ... WHERE idx <= cutoff` leaves. */
  function Above(rows: seq<ListRow>, cutoff: int): seq<ListRow> {
    if rows == [] then [] else
    (if rows[0].idx > cutoff then [rows[0]] else []) + Above(rows[1..], cutoff)
  }

  function NextIdx(rows: seq<ListRow>): int {
    if rows == [] then 0 else rows[|rows| - 1].idx + 1
  }

  /** A maxLength of 0 means that none was given. */
  function Append(rows: seq<ListRow>, value: Json, expiresAt: Option<int>, maxLength: int): seq<ListRow> {
    var next := NextIdx(rows);
    var longer := rows + [ListRow(next, value, expiresAt)];
    if maxLength != 0 && next - maxLength >= 0 then Above(longer, next - maxLength) else longer
  }

  predicate Expired(row: ListRow, now: int) {
    row.expiresAt.Some? && row.expiresAt.value < now
  }

  function DropExpiredRows(rows: seq<ListRow>, now: int): seq<ListRow> {
    if rows == [] then [] else
    (if Expired(rows[0], now) then [] else [rows[0]]) + DropExpiredRows(rows[1..], now)
  }

  /** What `getList` selects: a row that expires now is no longer shown, though not yet cleaned up. */
  predicate Shown(row: ListRow, now: int) {
    row.expiresAt == None || row.expiresAt.value > now
  }

  function ShownValues(rows: seq<ListRow>, now: int): seq<Json> {
    if rows == [] then [] else
    (if Shown(rows[0], now) then [rows[0].value] else []) + ShownValues(rows[1..], now)
  }

  function Lasts(now: int): ListRow -> bool {
    (row: ListRow) => row.expiresAt.Some? ==> row.expiresAt.value > now
  }

  predicate AreValues(rows: seq<ListRow>, values: seq<Json>) {
    |rows| == |values| && forall k :: 0 <= k < |rows| ==> rows[k].value == values[k]
  }

  lemma {:induction false} ShownSnoc(rows: seq<ListRow>, row: ListRow, now: int)
    ensures ShownValues(rows + [row], now) == ShownValues(rows, now) + if Shown(row, now) then [row.value] else []
  {
    if rows == [] {
      assert rows + [row] == [row] && [row][1..] == [];
    } else {
      assert (rows + [row])[1..] == rows[1..] + [row];
      ShownSnoc(rows[1..], row, now);
    }
  }

  lemma {:induction false} ShownArePicked(rows: seq<ListRow>, now: int) returns (chosen: seq<ListRow>)
    ensures Picks(rows, Lasts(now), chosen) && AreValues(chosen, ShownValues(rows, now))
  {
    chosen := [];
    if rows == [] {
      PicksNone(Lasts(now));
    } else {
      var rest, last := rows[..|rows| - 1], rows[|rows| - 1];
      assert rows == rest + [last];
      chosen := ShownArePicked(rest, now);
      PicksSnoc(rest, last, Lasts(now), chosen);
      ShownSnoc(rest, last, now);
      chosen := if Lasts(now)(last) then chosen + [last] else chosen;
    }
  }

  function CleanLists(lists: ListTable, now: int): ListTable {
    map key | key in lists :: DropExpiredRows(lists[key], now)
  }

  const QUEUE_PREFIX := "queue:"

  function QueueKey(thread: Key): Key {
    QUEUE_PREFIX + thread
  }

  /** What a caller of `acquireLock` gets; extending it changes its expiry. */
  class Lock {
    const threadId: Key
    const token: Token
    var expiresAt: int

    constructor (threadId: Key, token: Token, expiresAt: int)
      ensures this.threadId == threadId && this.token == token && this.expiresAt == expiresAt
    {
      this.threadId, this.token, this.expiresAt := threadId, token, expiresAt;
    }
  }

  class SqliteState {
    var locks: LockTable
    var lists: ListTable

    constructor ()
      ensures locks == map[] && lists == map[]
    {
      locks, lists := map[], map[];
    }

    method AcquireLock(threadId: Key, ttlMs: int, now: int, token: Token) returns (lock: Lock?)
      modifies this`locks
      ensures locks == Acquire(old(locks), threadId, LockRow(token, now + ttlMs), now)
      ensures lock == null <==> threadId in old(locks) && old(locks)[threadId].expiresAt >= now
      ensures lock != null ==>
                fresh(lock) && lock.threadId == threadId && lock.token == token && lock.expiresAt == now + ttlMs
    {
      if threadId in locks && locks[threadId].expiresAt < now {
        locks := locks - {threadId};
      }
      if threadId in locks {
        return null;
      }
      locks := locks[threadId := LockRow(token, now + ttlMs)];
      lock := new Lock(threadId, token, now + ttlMs);
    }

    method ReleaseLock(lock: Lock)
      modifies this`locks
      ensures locks == Release(old(locks), lock.threadId, lock.token)
    {
      if lock.threadId in locks && locks[lock.threadId].token == lock.token {
        locks := locks - {lock.threadId};
      }
    }

    method ExtendLock(lock: Lock, ttlMs: int, now: int) returns (ok: bool)
      modifies this`locks, lock`expiresAt
      ensures locks == Extend(old(locks), lock.threadId, lock.token, now + ttlMs)
      ensures ok <==> Holds(old(locks), lock.threadId, lock.token)
      ensures lock.expiresAt == if ok then now + ttlMs else old(lock.expiresAt)
    {
      if lock.threadId !in locks || locks[lock.threadId].token != lock.token {
        return false;
      }
      locks := locks[lock.threadId := LockRow(lock.token, now + ttlMs)];
      lock.expiresAt := now + ttlMs;
      ok := true;
    }

    method ForceReleaseLock(threadId: Key)
      modifies this`locks
      ensures locks == old(locks) - {threadId}
    {
      locks := locks - {threadId};
    }

    method AppendToList(key: Key, value: Json, maxLength: int, ttlMs: int, now: int)
      modifies this`lists
      ensures var expiresAt := if ttlMs != 0 then Some(now + ttlMs) else None;
              lists == old(lists)[key := Append(RowsOf(old(lists), key), value, expiresAt, maxLength)]
    {
      var expiresAt := if ttlMs != 0 then Some(now + ttlMs) else None;
      var rows := RowsOf(lists, key);
      var next := NextIdx(rows);
      rows := rows + [ListRow(next, value, expiresAt)];
      if maxLength != 0 {
        var cutoff := next - maxLength;
        if cutoff >= 0 {
          rows := Above(rows, cutoff);
        }
      }
      lists := lists[key := rows];
    }

    /** The number of rows, which is the length of the queue that they store. */
    method QueueDepth(threadId: Key) returns (depth: nat)
      ensures depth == |RowsOf(lists, QueueKey(threadId))|
      ensures forall q :: Stores(RowsOf(lists, QueueKey(threadId)), q) ==> depth == |q|
    {
      depth := |RowsOf(lists, QueueKey(threadId))|;
    }

    /** What other callers do to the lists while one of the store's own calls is suspended. */
    method OthersRun(ops: seq<QueueOp>)
      modifies this`lists
      ensures lists == RunQueues(old(lists), ops)
    {
      lists := RunQueues(lists, ops);
    }

    /** Appends, is suspended while `between` runs, and counts. */
    method Enqueue(threadId: Key, entry: Json, maxSize: int, now: int, between: seq<QueueOp>) returns (depth: nat)
      modifies this`lists
      ensures var ops := [Enq(threadId, entry, maxSize)] + between;
              && lists == RunQueues(old(lists), ops)
              && forall q :: Stores(RowsOf(old(lists), QueueKey(threadId)), q) && AllKeepOff(between) ==>
                   depth == |RunIdeal(q, threadId, ops)|
    {
      ghost var ops := [Enq(threadId, entry, maxSize)] + between;
      assert ops[1..] == between;
      AppendToList(QueueKey(threadId), entry, maxSize, 0, now);
      OthersRun(between);
      depth := QueueDepth(threadId);
      forall q | Stores(RowsOf(old(lists), QueueKey(threadId)), q) && AllKeepOff(between)
        ensures depth == |RunIdeal(q, threadId, ops)|
      {
        QueueRefinesFrom(old(lists), q, threadId, ops);
      }
    }

    method Dequeue(threadId: Key) returns (entry: Option<Json>)
      modifies this`lists
      ensures lists == QueueStep(old(lists), Deq(threadId))
      ensures forall q :: Stores(RowsOf(old(lists), QueueKey(threadId)), q) ==>
                entry == if q == [] then None else Some(q[0])
    {
      var key := QueueKey(threadId);
      var rows := RowsOf(lists, key);
      if rows == [] {
        return None;
      }
      lists := lists[key := rows[1..]];
      entry := Some(rows[0].value);
    }

    /** The values that do not expire by now, in order; a list without expiry times is read back whole. */
    method GetList(key: Key, now: int) returns (values: seq<Json>)
      ensures values == ShownValues(RowsOf(lists, key), now)
      ensures exists chosen :: Picks(RowsOf(lists, key), Lasts(now), chosen) && AreValues(chosen, values)
      ensures forall q :: Stores(RowsOf(lists, key), q) ==> values == q
    {
      forall q | Stores(RowsOf(lists, key), q) ensures ShownValues(RowsOf(lists, key), now) == q {
        StoredIsShown(RowsOf(lists, key), q, now);
      }
      values := ShownValues(RowsOf(lists, key), now);
      ghost var chosen := ShownArePicked(RowsOf(lists, key), now);
    }

    /** Exactly the expired locks and rows go; the other rows of a list keep their order. */
    method Cleanup(now: int)
      modifies this
      ensures locks == Unexpired(old(locks), now)
      ensures lists == CleanLists(old(lists), now)
      ensures forall thread :: thread in locks <==> thread in old(locks) && old(locks)[thread].expiresAt >= now
      ensures forall key, row :: row in RowsOf(lists, key) <==>
                row in RowsOf(old(lists), key) && (row.expiresAt.Some? ==> row.expiresAt.value >= now)
      ensures forall key :: Ascending(RowsOf(old(lists), key)) ==> Ascending(RowsOf(lists, key))
    {
      forall key ensures
        && (forall row :: row in RowsOf(CleanLists(lists, now), key) <==>
              row in RowsOf(lists, key) && !Expired(row, now))
        && (Ascending(RowsOf(lists, key)) ==> Ascending(RowsOf(CleanLists(lists, now), key)))
      {
        CleaningDropsExpired(RowsOf(lists, key), now);
      }
      locks := Unexpired(locks, now);
      lists := CleanLists(lists, now);
    }
  }

  // ----- mutual exclusion -----

  /** A lock object in some caller's hands. */
  datatype Handle = Handle(threadId: Key, expiresAt: int, released: bool)

  /** The table, and every handle ever given out, by its token. */
  datatype Locking = Locking(rows: LockTable, handles: map<Token, Handle>)

  datatype LockOp =
    | DoAcquire(thread: Key, token: Token, ttlMs: int)
    | DoRelease(token: Token)
    | DoExtend(token: Token, ttlMs: int)
    | DoCleanup
    | DoForce(thread: Key)

  datatype Timed = Timed(now: int, op: LockOp)

  predicate Acquires(rows: LockTable, thread: Key, now: int) {
    !(thread in rows && rows[thread].expiresAt >= now)
  }

  /** A token is drawn once; a caller releases and extends what it was given. */
  predicate CanDo(s: Locking, op: LockOp) {
    match op
    case DoAcquire(_, token, _) => token !in s.handles
    case DoRelease(token) => token in s.handles
    case DoExtend(token, _) => token in s.handles
    case _ => true
  }

  function LockStep(s: Locking, t: Timed): Locking
    requires CanDo(s, t.op)
  {
    match t.op
    case DoAcquire(thread, token, ttl) =>
      Locking(Acquire(s.rows, thread, LockRow(token, t.now + ttl), t.now),
              if Acquires(s.rows, thread, t.now) then s.handles[token := Handle(thread, t.now + ttl, false)]
              else s.handles)
    case DoRelease(token) =>
      var h := s.handles[token];
      Locking(Release(s.rows, h.threadId, token), s.handles[token := h.(released := true)])
    case DoExtend(token, ttl) =>
      var h := s.handles[token];
      Locking(Extend(s.rows, h.threadId, token, t.now + ttl),
              if Holds(s.rows, h.threadId, token) then s.handles[token := h.(expiresAt := t.now + ttl)] else s.handles)
    case DoCleanup => s.(rows := Unexpired(s.rows, t.now))
    case DoForce(thread) => s.(rows := s.rows - {thread})
  }

  /** The rows are as before but for this thread's. */
  predicate OnlyThread(before: LockTable, after: LockTable, thread: Key) {
    before - {thread} == after - {thread}
  }

  /**
    What each call does to the table: an attempt takes the thread's row unless it has one that has not expired;
    releasing and extending act exactly on the row with the own token; a cleanup removes exactly the expired rows.
   */
  lemma {:induction false} StepRows(s: Locking, t: Timed, thread: Key)
    requires CanDo(s, t.op)
    ensures var u := LockStep(s, t).rows;
            match t.op
            case DoAcquire(key, token, ttl) =>
              OnlyThread(s.rows, u, key) && key in u &&
              u[key] == if key in s.rows && t.now <= s.rows[key].expiresAt then s.rows[key]
                        else LockRow(token, t.now + ttl)
            case DoRelease(token) =>
              var key := s.handles[token].threadId;
              OnlyThread(s.rows, u, key) && (key in u ==> u[key] == s.rows[key]) &&
              (key in u <==> key in s.rows && s.rows[key].token != token)
            case DoExtend(token, ttl) =>
              var key := s.handles[token].threadId;
              OnlyThread(s.rows, u, key) && (key in u <==> key in s.rows) &&
              (key in u ==> u[key] == if s.rows[key].token == token then LockRow(token, t.now + ttl) else s.rows[key])
            case DoCleanup =>
              && (thread in u <==> thread in s.rows && t.now <= s.rows[thread].expiresAt)
              && (thread in u ==> u[thread] == s.rows[thread])
            case DoForce(key) => OnlyThread(s.rows, u, key) && key !in u
  {
  }

  /** A run from `start` on, read by a clock that never goes back. */
  predicate IsLockRun(s: Locking, start: int, run: seq<Timed>)
    decreases |run|
  {
    run == [] || (start <= run[0].now && CanDo(s, run[0].op) && IsLockRun(LockStep(s, run[0]), run[0].now, run[1..]))
  }

  function RunLocks(s: Locking, start: int, run: seq<Timed>): Locking
    requires IsLockRun(s, start, run)
    decreases |run|
  {
    if run == [] then s else RunLocks(LockStep(s, run[0]), run[0].now, run[1..])
  }

  function EndOf(start: int, run: seq<Timed>): int
    decreases |run|
  {
    if run == [] then start else EndOf(run[0].now, run[1..])
  }

  predicate Live(s: Locking, token: Token, now: int) {
    token in s.handles && !s.handles[token].released && s.handles[token].expiresAt >= now
  }

  predicate Backed(s: Locking, token: Token) {
    token in s.handles &&
    var h := s.handles[token];
    h.threadId in s.rows && s.rows[h.threadId] == LockRow(token, h.expiresAt)
  }

  /** A row belongs to an unreleased handle that agrees with it. */
  predicate Owned(s: Locking, thread: Key)
    requires thread in s.rows
  {
    var token := s.rows[thread].token;
    token in s.handles && s.handles[token] == Handle(thread, s.rows[thread].expiresAt, false)
  }

  ghost predicate LockInvariant(s: Locking, now: int) {
    && (forall token :: Live(s, token, now) ==> Backed(s, token))
    && (forall thread :: thread in s.rows ==> Owned(s, thread))
  }

  ghost predicate Exclusive(s: Locking, now: int) {
    forall a, b :: Live(s, a, now) && Live(s, b, now) && s.handles[a].threadId == s.handles[b].threadId ==> a == b
  }

  /** Nobody holds the thread's lock. */
  ghost predicate Free(s: Locking, thread: Key, now: int) {
    forall token :: Live(s, token, now) ==> s.handles[token].threadId != thread
  }

  ghost predicate Safe(s: Locking, t: Timed) {
    t.op.DoForce? ==> Free(s, t.op.thread, t.now)
  }

  /** Every forced release of the run comes when nobody holds the lock it releases. */
  ghost predicate SafeForces(s: Locking, start: int, run: seq<Timed>)
    requires IsLockRun(s, start, run)
    decreases |run|
  {
    run == [] || (Safe(s, run[0]) && SafeForces(LockStep(s, run[0]), run[0].now, run[1..]))
  }

  lemma {:induction false} StepKeepsInvariant(s: Locking, before: int, t: Timed)
    requires LockInvariant(s, before) && before <= t.now && CanDo(s, t.op) && Safe(s, t)
    ensures LockInvariant(LockStep(s, t), t.now)
  {
    var s' := LockStep(s, t);
    forall token | Live(s', token, t.now) ensures Backed(s', token) {
      if token in s.handles && s.handles[token].expiresAt >= before {
        assert Live(s, token, before);
      }
      if t.op.DoExtend? && t.op.token == token && Holds(s.rows, s.handles[token].threadId, token) {
        assert Owned(s, s.handles[token].threadId);
      }
      if t.op.DoForce? {
        assert Live(s, token, t.now);
      }
    }
    forall thread | thread in s'.rows ensures Owned(s', thread) {
      if thread in s.rows {
        assert Owned(s, thread);
      }
    }
  }

  lemma {:induction false} RunKeepsInvariant(s: Locking, start: int, run: seq<Timed>)
    requires LockInvariant(s, start) && IsLockRun(s, start, run) && SafeForces(s, start, run)
    ensures LockInvariant(RunLocks(s, start, run), EndOf(start, run))
    decreases |run|
  {
    if run != [] {
      StepKeepsInvariant(s, start, run[0]);
      RunKeepsInvariant(LockStep(s, run[0]), run[0].now, run[1..]);
    }
  }

  lemma {:induction false} InvariantLasts(s: Locking, before: int, now: int)
    requires LockInvariant(s, before) && before <= now
    ensures LockInvariant(s, now)
  {
    forall token | Live(s, token, now) ensures Backed(s, token) {
      assert Live(s, token, before);
    }
  }

  const NO_LOCKS := Locking(map[], map[])

  /** What the invariant gives at any time after a run. */
  lemma {:induction false} InvariantAfter(start: int, run: seq<Timed>, now: int)
    requires IsLockRun(NO_LOCKS, start, run) && SafeForces(NO_LOCKS, start, run) && EndOf(start, run) <= now
    ensures LockInvariant(RunLocks(NO_LOCKS, start, run), now)
  {
    RunKeepsInvariant(NO_LOCKS, start, run);
    InvariantLasts(RunLocks(NO_LOCKS, start, run), EndOf(start, run), now);
  }

  /** Unless a lock is forced away from its holder, no two callers ever hold one thread's lock. */
  lemma {:induction false} MutualExclusion(start: int, run: seq<Timed>, now: int)
    requires IsLockRun(NO_LOCKS, start, run) && SafeForces(NO_LOCKS, start, run) && EndOf(start, run) <= now
    ensures Exclusive(RunLocks(NO_LOCKS, start, run), now)
  {
    InvariantAfter(start, run, now);
    var s := RunLocks(NO_LOCKS, start, run);
    forall a, b | Live(s, a, now) && Live(s, b, now) && s.handles[a].threadId == s.handles[b].threadId ensures a == b {
      assert Backed(s, a) && Backed(s, b);
    }
  }

  /** An attempt after such a run succeeds exactly if nobody holds the lock then. */
  lemma {:induction false} AcquiresIffFree(start: int, run: seq<Timed>, thread: Key, now: int)
    requires IsLockRun(NO_LOCKS, start, run) && SafeForces(NO_LOCKS, start, run) && EndOf(start, run) <= now
    ensures var s := RunLocks(NO_LOCKS, start, run);
            Acquires(s.rows, thread, now) <==> Free(s, thread, now)
  {
    InvariantAfter(start, run, now);
    var s := RunLocks(NO_LOCKS, start, run);
    if Acquires(s.rows, thread, now) {
      forall token | Live(s, token, now) ensures s.handles[token].threadId != thread {
        assert Backed(s, token);
      }
    } else {
      assert Owned(s, thread);
      assert Live(s, s.rows[thread].token, now);
    }
  }

  /** A forced release and the attempt of the next caller. */
  function ForcedTo(s: Locking, thread: Key, token: Token, ttlMs: nat, now: int): Locking
    requires token !in s.handles
  {
    LockStep(LockStep(s, Timed(now, DoForce(thread))), Timed(now, DoAcquire(thread, token, ttlMs)))
  }

  /** After such a run, forcing a lock and taking it is safe exactly if nobody held it. */
  lemma {:induction false} ForceIsSafeIffFree(start: int, run: seq<Timed>, thread: Key, token: Token, ttlMs: nat,
        now: int)
    requires IsLockRun(NO_LOCKS, start, run) && SafeForces(NO_LOCKS, start, run) && EndOf(start, run) <= now
    requires token !in RunLocks(NO_LOCKS, start, run).handles
    ensures var s := RunLocks(NO_LOCKS, start, run);
            Exclusive(ForcedTo(s, thread, token, ttlMs, now), now) <==> Free(s, thread, now)
  {
    InvariantAfter(start, run, now);
    var s := RunLocks(NO_LOCKS, start, run);
    var s' := ForcedTo(s, thread, token, ttlMs, now);
    assert s'.handles == s.handles[token := Handle(thread, now + ttlMs, false)];
    assert Live(s', token, now);
    forall other | other in s.handles ensures Live(s, other, now) == Live(s', other, now) {
    }
    forall a, b | Live(s, a, now) && Live(s, b, now) && s.handles[a].threadId == s.handles[b].threadId ensures a == b {
      assert Backed(s, a) && Backed(s, b);
    }
  }

  /** Three calls that leave two holders of one lock. */
  lemma {:induction false} ForcedLockHasTwoHolders(thread: Key, a: Token, b: Token, ttlMs: nat, now: int)
    requires a != b
    ensures var run := [Timed(now, DoAcquire(thread, a, ttlMs)), Timed(now, DoForce(thread)),
                        Timed(now, DoAcquire(thread, b, ttlMs))];
            && IsLockRun(NO_LOCKS, now, run)
            && Live(RunLocks(NO_LOCKS, now, run), a, now) && Live(RunLocks(NO_LOCKS, now, run), b, now)
            && !Exclusive(RunLocks(NO_LOCKS, now, run), now)
  {
    var run := [Timed(now, DoAcquire(thread, a, ttlMs)), Timed(now, DoForce(thread)),
                Timed(now, DoAcquire(thread, b, ttlMs))];
    var s1 := LockStep(NO_LOCKS, run[0]);
    var s2 := LockStep(s1, run[1]);
    var s3 := LockStep(s2, run[2]);
    assert run[1..][1..] == run[2..] && run[2..][1..] == [];
    assert IsLockRun(s3, now, []) && IsLockRun(s2, now, run[2..]) && IsLockRun(s1, now, run[1..]);
    assert RunLocks(NO_LOCKS, now, run) == RunLocks(s1, now, run[1..]) == RunLocks(s2, now, run[2..]) == s3;
    assert Live(s3, a, now) && Live(s3, b, now);
  }

  // ----- cleaning up -----

  predicate Ascending(rows: seq<ListRow>) {
    forall j, k :: 0 <= j < k < |rows| ==> rows[j].idx < rows[k].idx
  }

  lemma {:induction false} CleaningDropsExpired(rows: seq<ListRow>, now: int)
    ensures forall row :: row in DropExpiredRows(rows, now) <==> row in rows && !Expired(row, now)
    ensures Ascending(rows) ==> Ascending(DropExpiredRows(rows, now))
  {
    if rows != [] {
      CleaningDropsExpired(rows[1..], now);
      var rest := DropExpiredRows(rows[1..], now);
      assert forall row :: row in rows <==> row == rows[0] || row in rows[1..];
      if Ascending(rows) {
        forall k | 0 <= k < |rest| ensures rows[0].idx < rest[k].idx {
          assert rest[k] in rows[1..];
        }
      }
    }
  }

  lemma {:induction false} CleaningKeepsShown(rows: seq<ListRow>, at: int, now: int)
    requires at <= now
    ensures ShownValues(DropExpiredRows(rows, at), now) == ShownValues(rows, now)
  {
    if rows != [] {
      CleaningKeepsShown(rows[1..], at, now);
      var rest := DropExpiredRows(rows[1..], at);
      if Expired(rows[0], at) {
        assert DropExpiredRows(rows, at) == rest;
      } else {
        assert DropExpiredRows(rows, at) == [rows[0]] + rest;
        assert ([rows[0]] + rest)[1..] == rest;
      }
    }
  }

  /**
    A cleanup changes no list a caller reads afterwards and no attempt to take a lock; of a holder it
    takes the lock away exactly if the holder let it expire, so that extending it fails.
   */
  lemma {:induction false} CleanupUnseen(locks: LockTable, lists: ListTable, at: int, now: int, key: Key, token: Token)
    requires at <= now
    ensures ShownValues(RowsOf(CleanLists(lists, at), key), now) == ShownValues(RowsOf(lists, key), now)
    ensures Acquires(Unexpired(locks, at), key, now) <==> Acquires(locks, key, now)
    ensures Holds(Unexpired(locks, at), key, token) <==> Holds(locks, key, token) && locks[key].expiresAt >= at
  {
    CleaningKeepsShown(RowsOf(lists, key), at, now);
  }

  // ----- the queue is a bounded sequence -----

  datatype QueueOp =
    | Enq(thread: Key, entry: Json, maxSize: int)
    | Deq(thread: Key)
    | AppendOther(key: Key, value: Json, expiresAt: Option<int>, maxLength: int)
    | Clean(now: int)

  /** The list calls of the chat SDK do not use the queues' keys. */
  predicate KeepsOff(op: QueueOp) {
    op.AppendOther? ==> !("queue:" <= op.key)
  }

  ghost predicate AllKeepOff(ops: seq<QueueOp>) {
    forall k :: 0 <= k < |ops| ==> KeepsOff(ops[k])
  }

  function QueueStep(lists: ListTable, op: QueueOp): ListTable {
    match op
    case Enq(thread, entry, max) =>
      lists[QueueKey(thread) := Append(RowsOf(lists, QueueKey(thread)), entry, None, max)]
    case Deq(thread) =>
      var rows := RowsOf(lists, QueueKey(thread));
      if rows == [] then lists else lists[QueueKey(thread) := rows[1..]]
    case AppendOther(key, value, expiresAt, max) => lists[key := Append(RowsOf(lists, key), value, expiresAt, max)]
    case Clean(now) => CleanLists(lists, now)
  }

  function RunQueues(lists: ListTable, ops: seq<QueueOp>): ListTable
    decreases |ops|
  {
    if ops == [] then lists else RunQueues(QueueStep(lists, ops[0]), ops[1..])
  }

  /** The newest `max` entries; 0 is no bound, and a negative bound keeps nothing. */
  function Newest(q: seq<Json>, max: int): seq<Json> {
    if max == 0 || |q| <= max then q else if max < 0 then [] else q[|q| - max..]
  }

  /** What one thread's queue should be: a plain sequence. */
  function Ideal(q: seq<Json>, thread: Key, op: QueueOp): seq<Json> {
    match op
    case Enq(t, entry, max) => if t == thread then Newest(q + [entry], max) else q
    case Deq(t) => if t == thread && q != [] then q[1..] else q
    case _ => q
  }

  function RunIdeal(q: seq<Json>, thread: Key, ops: seq<QueueOp>): seq<Json>
    decreases |ops|
  {
    if ops == [] then q else RunIdeal(Ideal(q, thread, ops[0]), thread, ops[1..])
  }

  /** Rows with consecutive numbers and no expiry stand for the sequence of their values. */
  predicate Stores(rows: seq<ListRow>, q: seq<Json>) {
    && |rows| == |q|
    && (rows != [] ==> rows[0].idx >= 0)
    && (forall k :: 0 <= k < |rows| ==> rows[k] == ListRow(rows[0].idx + k, q[k], None))
  }

  predicate Numbered(rows: seq<ListRow>, first: int) {
    forall k :: 0 <= k < |rows| ==> rows[k].idx == first + k
  }

  /** Of consecutive numbers, the deletion keeps a suffix. */
  lemma {:induction false} AboveIsSuffix(rows: seq<ListRow>, first: int, cutoff: int)
    requires Numbered(rows, first)
    ensures var kept := cutoff + 1 - first;
            Above(rows, cutoff) == if kept <= 0 then rows else if kept <= |rows| then rows[kept..] else []
    decreases |rows|
  {
    if rows != [] {
      assert Numbered(rows[1..], first + 1);
      AboveIsSuffix(rows[1..], first + 1, cutoff);
      if cutoff < first {
        assert Above(rows[1..], cutoff) == rows[1..];
        assert rows == [rows[0]] + rows[1..];
      } else if cutoff - first < |rows| {
        assert rows[1..][cutoff - first..] == rows[cutoff + 1 - first..];
      }
    }
  }

  lemma {:induction false} AppendRefines(rows: seq<ListRow>, q: seq<Json>, entry: Json, max: int)
    requires Stores(rows, q)
    ensures Stores(Append(rows, entry, None, max), Newest(q + [entry], max))
  {
    var longer := rows + [ListRow(NextIdx(rows), entry, None)];
    assert Stores(longer, q + [entry]);
    if max != 0 && NextIdx(rows) - max >= 0 {
      AboveIsSuffix(longer, longer[0].idx, NextIdx(rows) - max);
    }
  }

  lemma {:induction false} CleaningKeeps(rows: seq<ListRow>, q: seq<Json>, now: int)
    requires Stores(rows, q)
    ensures DropExpiredRows(rows, now) == rows
  {
    if rows != [] {
      if |rows| > 1 {
        assert rows[1].idx == rows[0].idx + 1;
      }
      CleaningKeeps(rows[1..], q[1..], now);
    }
  }

  lemma {:induction false} StoredIsShown(rows: seq<ListRow>, q: seq<Json>, now: int)
    requires Stores(rows, q)
    ensures ShownValues(rows, now) == q
  {
    if rows != [] {
      if |rows| > 1 {
        assert rows[1].idx == rows[0].idx + 1;
      }
      StoredIsShown(rows[1..], q[1..], now);
    }
  }

  lemma {:induction false} StepRefines(lists: ListTable, q: seq<Json>, thread: Key, op: QueueOp)
    requires Stores(RowsOf(lists, QueueKey(thread)), q) && KeepsOff(op)
    ensures Stores(RowsOf(QueueStep(lists, op), QueueKey(thread)), Ideal(q, thread, op))
  {
    var rows := RowsOf(lists, QueueKey(thread));
    match op
    case Enq(t, entry, max) =>
      KeysDiffer(t, thread);
      AppendRefines(rows, q, entry, max);
    case Deq(t) =>
      KeysDiffer(t, thread);
      if t == thread && q != [] && |q| > 1 {
        assert rows[1].idx == rows[0].idx + 1;
      }
    case AppendOther(key, _, _, _) => assert QUEUE_PREFIX <= QueueKey(thread);
    case Clean(now) => CleaningKeeps(rows, q, now);
  }

  lemma {:induction false} KeysDiffer(a: Key, b: Key)
    ensures QueueKey(a) == QueueKey(b) <==> a == b
  {
    assert QueueKey(a)[|QUEUE_PREFIX|..] == a && QueueKey(b)[|QUEUE_PREFIX|..] == b;
  }

  lemma {:induction false} QueueRefinesFrom(lists: ListTable, q: seq<Json>, thread: Key, ops: seq<QueueOp>)
    requires Stores(RowsOf(lists, QueueKey(thread)), q)
    requires AllKeepOff(ops)
    ensures Stores(RowsOf(RunQueues(lists, ops), QueueKey(thread)), RunIdeal(q, thread, ops))
    decreases |ops|
  {
    if ops != [] {
      StepRefines(lists, q, thread, ops[0]);
      QueueRefinesFrom(QueueStep(lists, ops[0]), Ideal(q, thread, ops[0]), thread, ops[1..]);
    }
  }

  /** After any calls, the rows of every thread's queue are numbered without a gap and hold the ideal queue. */
  lemma {:induction false} QueueRefinesSequence(thread: Key, ops: seq<QueueOp>)
    requires AllKeepOff(ops)
    ensures Stores(RowsOf(RunQueues(map[], ops), QueueKey(thread)), RunIdeal([], thread, ops))
  {
    QueueRefinesFrom(map[], [], thread, ops);
  }

  // ----- what an enqueue answers -----

  /** Calls on other queues and lists. */
  predicate Elsewhere(op: QueueOp, thread: Key) {
    match op
    case Enq(t, _, _) => t != thread
    case Deq(t) => t != thread
    case _ => true
  }

  lemma {:induction false} ElsewhereKeeps(q: seq<Json>, thread: Key, ops: seq<QueueOp>)
    requires forall k :: 0 <= k < |ops| ==> Elsewhere(ops[k], thread)
    ensures RunIdeal(q, thread, ops) == q
    decreases |ops|
  {
    if ops != [] {
      assert Elsewhere(ops[0], thread);
      ElsewhereKeeps(q, thread, ops[1..]);
    }
  }

  /** With no other call on the queue during the suspension, the depth counts the bounded queue with the entry. */
  lemma {:induction false} EnqueueCountsOwn(q: seq<Json>, thread: Key, entry: Json, max: int, between: seq<QueueOp>)
    requires forall k :: 0 <= k < |between| ==> Elsewhere(between[k], thread)
    ensures |RunIdeal(q, thread, [Enq(thread, entry, max)] + between)| == |Newest(q + [entry], max)| ==
            if max == 0 || |q| + 1 <= max then |q| + 1 else if max < 0 then 0 else max
  {
    var ops := [Enq(thread, entry, max)] + between;
    assert ops[1..] == between;
    ElsewhereKeeps(Newest(q + [entry], max), thread, between);
  }

  /** Calls whose enqueues and dequeues are for these threads only. */
  ghost predicate OnlyOn(between: seq<QueueOp>, threads: set<Key>) {
    forall k :: 0 <= k < |between| ==>
      KeepsOff(between[k]) && (between[k].Enq? || between[k].Deq? ==> between[k].thread in threads)
  }

  /** One call that changes the length of a queue that an entry was just put into. */
  function Disturbing(thread: Key, entry: Json, max: int): QueueOp {
    if max < 0 then Enq(thread, entry, 0) else Deq(thread)
  }

  lemma {:induction false} DisturbedCount(q: seq<Json>, thread: Key, entry: Json, max: int)
    ensures |RunIdeal(q, thread, [Enq(thread, entry, max)] + [Disturbing(thread, entry, max)])| !=
            |Newest(q + [entry], max)|
  {
    var op := Disturbing(thread, entry, max);
    var ops := [Enq(thread, entry, max)] + [op];
    assert ops[1..] == [op] && [op][1..] == [];
    var bounded := Newest(q + [entry], max);
    assert RunIdeal(q, thread, ops) == RunIdeal(bounded, thread, [op]) == Ideal(bounded, thread, op);
  }

  /**
    Whatever calls on the queues of these threads run during the suspension, the depth counts the bounded queue
    with the own entry: exactly if the enqueue's thread is not one of them.
   */
  lemma {:induction false} EnqueueCountsOwnIff(q: seq<Json>, thread: Key, entry: Json, max: int, threads: set<Key>)
    ensures (forall between :: OnlyOn(between, threads) ==>
              |RunIdeal(q, thread, [Enq(thread, entry, max)] + between)| == |Newest(q + [entry], max)|) <==>
            thread !in threads
  {
    if thread in threads {
      assert OnlyOn([Disturbing(thread, entry, max)], threads);
      DisturbedCount(q, thread, entry, max);
    } else {
      forall between | OnlyOn(between, threads)
        ensures |RunIdeal(q, thread, [Enq(thread, entry, max)] + between)| == |Newest(q + [entry], max)|
      {
        EnqueueCountsOwn(q, thread, entry, max, between);
      }
    }
  }

  /** Only enqueues without a bound. */
  ghost predicate Unbounded(ops: seq<QueueOp>) {
    forall k :: 0 <= k < |ops| && ops[k].Enq? ==> ops[k].maxSize == 0
  }

  /** The entries put into the thread's queue. */
  function Added(thread: Key, ops: seq<QueueOp>): seq<Json> {
    if ops == [] then [] else
    var last, before := ops[|ops| - 1], Added(thread, ops[..|ops| - 1]);
    if last.Enq? && last.thread == thread then before + [last.entry] else before
  }

  /** The dequeues of the thread's queue. */
  function Dequeues(thread: Key, ops: seq<QueueOp>): nat {
    if ops == [] then 0 else
    var last, before := ops[|ops| - 1], Dequeues(thread, ops[..|ops| - 1]);
    if last.Deq? && last.thread == thread then before + 1 else before
  }

  lemma {:induction false} RunIdealSnoc(q: seq<Json>, thread: Key, ops: seq<QueueOp>, op: QueueOp)
    ensures RunIdeal(q, thread, ops + [op]) == Ideal(RunIdeal(q, thread, ops), thread, op)
    decreases |ops|
  {
    if ops == [] {
      assert (ops + [op])[1..] == [] && (ops + [op])[0] == op;
      assert RunIdeal(Ideal(q, thread, op), thread, []) == Ideal(q, thread, op);
    } else {
      assert (ops + [op])[1..] == ops[1..] + [op];
      RunIdealSnoc(Ideal(q, thread, ops[0]), thread, ops[1..], op);
    }
  }

  lemma {:induction false} AddBehind(q: seq<Json>, n: nat, added: seq<Json>, op: QueueOp)
    ensures op.Enq? && n <= |q| ==> q[n..] + added + [op.entry] == q[n..] + (added + [op.entry])
    ensures n < |q| ==> q[n..] + added != [] && (q[n..] + added)[1..] == q[n + 1..] + added
    ensures n == |q| ==> q[n..] + added == added
  {
  }

  /** Dequeues take the entries that were there first; once those are gone, only added ones are left. */
  lemma {:induction false} OldEntriesGoFirst(q: seq<Json>, thread: Key, ops: seq<QueueOp>)
    requires Unbounded(ops)
    ensures var n, after := Dequeues(thread, ops), RunIdeal(q, thread, ops);
            if n <= |q| then after == q[n..] + Added(thread, ops) else |after| <= |Added(thread, ops)|
  {
    if ops == [] {
      assert q[0..] + [] == q;
    } else {
      var before, last := ops[..|ops| - 1], ops[|ops| - 1];
      assert ops == before + [last];
      OldEntriesGoFirst(q, thread, before);
      RunIdealSnoc(q, thread, before, last);
      AddBehind(q, Dequeues(thread, before), Added(thread, before), last);
    }
  }

  /**
    Without bounds, the depth an enqueue answers counts its own entry, beyond those added after it, exactly if
    the thread's dequeues during the suspension are no more than the entries it found.
   */
  lemma {:induction false} OwnEntryCountedIff(q: seq<Json>, thread: Key, entry: Json, between: seq<QueueOp>)
    requires Unbounded(between)
    ensures |RunIdeal(q, thread, [Enq(thread, entry, 0)] + between)| > |Added(thread, between)| <==>
            Dequeues(thread, between) <= |q|
  {
    var ops := [Enq(thread, entry, 0)] + between;
    assert ops[1..] == between;
    OldEntriesGoFirst(q + [entry], thread, between);
  }

  /** A dequeue during the suspension can take the entry, so that its own enqueue answers 0. */
  lemma {:induction false} EnqueueMayAnswerZero(thread: Key, entry: Json)
    ensures RunIdeal([], thread, [Enq(thread, entry, 0), Deq(thread)]) == []
  {
    var ops := [Enq(thread, entry, 0), Deq(thread)];
    assert ops[1..] == [Deq(thread)] && ops[1..][1..] == [];
    assert Ideal([], thread, ops[0]) == [entry];
    assert RunIdeal([entry], thread, ops[1..]) == RunIdeal([], thread, ops[1..][1..]);
  }
}
