/** The exact life of an inbound message under resets: when it is tried again, and when it is given up. */
module RetrySchedule {
  import opened Numbers
  import opened Wrappers
  import opened InboundLifecycle

  /** Whether a message not handled before may be handled: at its own time, later the n-th time 5 * 2^(n-1) s on. */
  predicate TimeHasCome(due: Option<int>, resets: seq<int>, now: int) {
    if resets == [] then due == None || due.value <= now
    else resets[|resets| - 1] + 5 * Pow2(|resets| - 1) <= now
  }

  /** Claimed by a container that is gone, though its time has come: no more than six such times count. */
  predicate Counts(id: Id, due: Option<int>, resets: seq<int>, op: Op) {
    op.DoReset? && id in op.claims && |resets| <= 5 && TimeHasCome(due, resets, op.now)
  }

  /** The times of the resets that count, in a run without acknowledgement of the message. */
  function ResetTimes(id: Id, due: Option<int>, ops: seq<Op>): (times: seq<int>)
    ensures |times| <= 6
  {
    if ops == [] then [] else
    var before, last := ResetTimes(id, due, ops[..|ops| - 1]), ops[|ops| - 1];
    if Counts(id, due, before, last) then before + [last.now] else before
  }

  predicate Unacknowledged(ops: seq<Op>, id: Id) {
    forall k :: 0 <= k < |ops| ==> !Acknowledges(ops[k], id)
  }

  /** The row after these resets. */
  predicate Scheduled(r: Row, id: Id, seqNo: int, due: Option<int>, trigger: bool, resets: seq<int>) {
    && r.id == id && r.seqNo == seqNo && r.trigger == trigger
    && (|resets| <= 5 ==> r.status == Pending && r.tries == |resets|)
    && (|resets| == 6 ==> r.status == Failed && r.tries == 5)
    && (resets == [] ==> r.processAfter == due)
    && (1 <= |resets| <= 5 ==> r.processAfter == Some(resets[|resets| - 1] + 5 * Pow2(|resets| - 1)))
  }

  lemma {:induction false} StepScheduled(r: Row, op: Op, seqNo: int, due: Option<int>, trigger: bool, resets: seq<int>)
    requires Scheduled(r, r.id, seqNo, due, trigger, resets) && |resets| <= 6 && !Acknowledges(op, r.id)
    ensures Scheduled(RowStep(r, op), r.id, seqNo, due, trigger,
                      if Counts(r.id, due, resets, op) then resets + [op.now] else resets)
  {
  }

  // ----- one row's run -----

  function RowRun(r: Row, ops: seq<Op>): Row {
    if ops == [] then r else RowStep(RowRun(r, ops[..|ops| - 1]), ops[|ops| - 1])
  }

  lemma {:induction false} RunSnoc(q: Queue, ops: seq<Op>, op: Op)
    ensures Run(q, ops + [op]) == Apply(Run(q, ops), op)
  {
    RunConcat(q, ops, [op]);
    RunOne(Run(q, ops), op);
  }

  lemma {:induction false} RowsRunAlone(q: Queue, ops: seq<Op>, k: nat)
    requires k < |q|
    ensures k < |Run(q, ops)| && Run(q, ops)[k] == RowRun(q[k], ops)
  {
    if ops != [] {
      var before, last := ops[..|ops| - 1], ops[|ops| - 1];
      assert ops == before + [last];
      RowsRunAlone(q, before, k);
      RunSnoc(q, before, last);
      ApplyIsRowStep(Run(q, before), last, k);
    }
  }

  lemma {:induction false} RowRunScheduled(r: Row, ops: seq<Op>)
    requires r.status == Pending && r.tries == 0 && Unacknowledged(ops, r.id)
    ensures Scheduled(RowRun(r, ops), r.id, r.seqNo, r.processAfter, r.trigger, ResetTimes(r.id, r.processAfter, ops))
  {
    if ops != [] {
      var before, last := ops[..|ops| - 1], ops[|ops| - 1];
      assert Unacknowledged(before, r.id) && !Acknowledges(last, r.id);
      RowRunScheduled(r, before);
      StepScheduled(RowRun(r, before), last, r.seqNo, r.processAfter, r.trigger,
                    ResetTimes(r.id, r.processAfter, before));
    }
  }

  lemma {:induction false} RowRunCompleted(r: Row, ops: seq<Op>)
    requires r.status != Completed
    ensures RowRun(r, ops).id == r.id
    ensures RowRun(r, ops).status == Completed <==> !Unacknowledged(ops, r.id)
  {
    if ops != [] {
      var before, last := ops[..|ops| - 1], ops[|ops| - 1];
      assert Unacknowledged(ops, r.id) <==> Unacknowledged(before, r.id) && !Acknowledges(last, r.id);
      RowRunCompleted(r, before);
    }
  }

  // ----- whole runs -----

  /**
    The exact life of a message that is not acknowledged: after k <= 5 resets that found it claimed and its time
    come it is pending with k tries, and for k > 0 waits 5 * 2^(k-1) seconds from the last of them; the sixth one
    gives it up, and nothing else does.
   */
  lemma {:induction false} RetriesExactly(q: Queue, id: Id, due: Option<int>, trigger: bool, ops: seq<Op>)
    requires !HasId(q, id) && Unacknowledged(ops, id)
    ensures |Run(Insert(q, id, due, trigger), ops)| > |q|
    ensures Scheduled(Run(Insert(q, id, due, trigger), ops)[|q|], id, NextEvenSeq(q), due, trigger,
                      ResetTimes(id, due, ops))
  {
    RowsRunAlone(Insert(q, id, due, trigger), ops, |q|);
    RowRunScheduled(Row(id, NextEvenSeq(q), Pending, 0, due, trigger), ops);
  }

  /** With acknowledgements in the run: the message is completed exactly if one of them names it. */
  lemma {:induction false} CompletedIff(q: Queue, id: Id, due: Option<int>, trigger: bool, ops: seq<Op>)
    requires !HasId(q, id)
    ensures |Run(Insert(q, id, due, trigger), ops)| > |q|
    ensures Run(Insert(q, id, due, trigger), ops)[|q|].status == Completed <==> !Unacknowledged(ops, id)
  {
    RowsRunAlone(Insert(q, id, due, trigger), ops, |q|);
    RowRunCompleted(Row(id, NextEvenSeq(q), Pending, 0, due, trigger), ops);
  }

  /** Such a message wakes a container exactly if it triggers, fewer than six resets counted and its time has come. */
  lemma {:induction false} WakesIff(q: Queue, id: Id, due: Option<int>, trigger: bool, ops: seq<Op>, now: int)
    requires !HasId(q, id) && Unacknowledged(ops, id)
    ensures |Run(Insert(q, id, due, trigger), ops)| > |q|
    ensures var resets := ResetTimes(id, due, ops);
            Due(Run(Insert(q, id, due, trigger), ops)[|q|], now) <==>
            trigger && |resets| <= 5 && TimeHasCome(due, resets, now)
  {
    RetriesExactly(q, id, due, trigger, ops);
  }
}
