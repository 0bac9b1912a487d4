/** What holds of whole runs of the store: cancellation wins, rows are handed out
    once and not before their time, outcomes are the last ones given, and
    deduplication slots are unique. */
module StoreTheorems {
  import opened Types
  import opened Store
  import opened Claims
  import opened StoreRuns

  // ---- cancellation wins --------------------------------------------------

  /** The calls that take a cancelled workflow out of its cancellation: a
      resume, a re-enqueue, a requeue or other non-final status write, the
      parking of a workflow recovered too often, a fork written over its id,
      or its deletion. */
  ghost predicate Lifts(db: Db, op: Op, id: Id) {
    match op
    case ChangeOp(i, c) => i == id && id in db.workflows && LiftsRow(db.workflows[id], c)
    case ForkOp(p, _) => p.newId == id
    case DeleteOp(ids, children) => id in DeleteTargets(db, ids, children)
    case _ => false
  }

  predicate LiftsRow(r: Row, c: Change) {
    || c.ToResumed? || c.ToQueue?
    || (c.ToStatus? && c.status != Cancelled && !IsCompletion(c.status))
    || (c.ToBumped? && r.recoveryAttempts + 1 > c.max)
  }

  lemma CancelledStays(db: Db, op: Op, id: Id)
    requires Keyed(db) && IsCancelled(db, id) && !Lifts(db, op, id)
    ensures IsCancelled(Apply(db, op), id)
  {
    if !ChangesRows(op) {
      OthersKeepRows(db, op);
    } else if op.DequeueOp? {
      DequeueKeepsOthers(db, op.req, op.now, op.latest, id);
    }
  }

  /** In every run, a workflow cancelled before call `i` that is found
      completed before call `j` was lifted by some call in between. */
  lemma {:induction false} CancellationWins(db: Db, ops: seq<Op>, id: Id, i: nat, j: nat)
    requires Keyed(db) && i <= j <= |ops|
    requires IsCancelled(Before(db, ops, i), id)
    requires var w := Before(db, ops, j).workflows; id in w && IsCompletion(w[id].status)
    ensures exists k :: i <= k < j && Lifts(Before(db, ops, k), ops[k], id)
    decreases j - i
  {
    assert i < j;
    if !Lifts(Before(db, ops, i), ops[i], id) {
      KeyedRun(db, ops[..i]);
      CancelledStays(Before(db, ops, i), ops[i], id);
      BeforeStep(db, ops, i);
      CancellationWins(db, ops, id, i + 1, j);
    }
  }

  // ---- rows are handed out once -------------------------------------------

  ghost predicate Hands(db: Db, op: Op, id: Id) {
    op.DequeueOp? && id in ClaimedIds(db, op.req, op.now, op.latest)
  }

  /** The calls that put a row (back) on a queue. */
  ghost predicate Requeues(db: Db, op: Op, id: Id) {
    match op
    case ChangeOp(i, c) => i == id && (c.ToQueue? || (c.ToStatus? && c.status == Enqueued))
    case TransitionDelayedOp(now) => id in db.workflows && Due(db.workflows[id], now)
    case InsertOp(row) => row.id == id && id !in db.workflows
    case ForkOp(p, _) => p.newId == id
    case _ => false
  }

  ghost predicate IsEnqueued(db: Db, id: Id) {
    id in db.workflows && db.workflows[id].status == Enqueued
  }

  lemma OnlyRequeueEnqueues(db: Db, op: Op, id: Id)
    requires Keyed(db) && !IsEnqueued(db, id) && !Requeues(db, op, id)
    ensures !IsEnqueued(Apply(db, op), id)
  {
  }

  lemma {:induction false} EnqueuedAgain(db: Db, ops: seq<Op>, id: Id, i: nat, j: nat)
    requires Keyed(db) && i <= j <= |ops|
    requires !IsEnqueued(Before(db, ops, i), id) && IsEnqueued(Before(db, ops, j), id)
    ensures exists k :: i <= k < j && Requeues(Before(db, ops, k), ops[k], id)
    decreases j - i
  {
    if !Requeues(Before(db, ops, i), ops[i], id) {
      KeyedRun(db, ops[..i]);
      OnlyRequeueEnqueues(Before(db, ops, i), ops[i], id);
      BeforeStep(db, ops, i);
      EnqueuedAgain(db, ops, id, i + 1, j);
    }
  }

  /** No row is handed to two callers unless it was put back in between. */
  lemma HandedOnce(db: Db, ops: seq<Op>, id: Id, i: nat, j: nat)
    requires Keyed(db) && i < j < |ops|
    requires Hands(Before(db, ops, i), ops[i], id) && Hands(Before(db, ops, j), ops[j], id)
    ensures exists k :: i < k < j && Requeues(Before(db, ops, k), ops[k], id)
  {
    KeyedRun(db, ops[..i]);
    KeyedRun(db, ops[..j]);
    ClaimedWereEnqueued(Before(db, ops, i), ops[i].req, ops[i].now, ops[i].latest, id);
    ClaimedWereEnqueued(Before(db, ops, j), ops[j].req, ops[j].now, ops[j].latest, id);
    BeforeStep(db, ops, i);
    EnqueuedAgain(db, ops, id, i + 1, j);
  }

  // ---- delayed rows ----------------------------------------------------------------

  ghost predicate IsDelayed(db: Db, id: Id) {
    id in db.workflows && db.workflows[id].status == Delayed
  }

  predicate RowEndsDelay(r: Row, c: Change) {
    match c
    case ToStatus(status, _, _, _) => status != Delayed
    case ToDelay(_) => false
    case ToBumped(max) => r.recoveryAttempts >= max
    case _ => true
  }

  /** The calls that end a delay: the promotion, once the row's time has come; a
      cancellation, a resume, a re-enqueue, another status; being parked, deleted or
      replaced. */
  ghost predicate EndsDelay(db: Db, op: Op, id: Id)
    requires id in db.workflows
  {
    match op
    case TransitionDelayedOp(now) => db.workflows[id].delayUntilMs.Some? && db.workflows[id].delayUntilMs.value <= now
    case ChangeOp(i, c) => i == id && RowEndsDelay(db.workflows[id], c)
    case DeleteOp(ids, children) => id in DeleteTargets(db, ids, children)
    case ForkOp(p, _) => p.newId == id && p.originalId in db.workflows
    case _ => false
  }

  lemma DelayEndsIff(db: Db, op: Op, id: Id)
    requires Keyed(db) && IsDelayed(db, id)
    ensures !IsDelayed(Apply(db, op), id) <==> EndsDelay(db, op, id)
  {
    if !ChangesRows(op) {
      OthersKeepRows(db, op);
    } else if op.DequeueOp? {
      DequeueKeepsOthers(db, op.req, op.now, op.latest, id);
    } else if op.ChangeOp? {
      assert Apply(db, op) == Update(db, op.id, op.change);
      ChangeEndsDelayIff(db, op.id, op.change, id);
    }
  }

  lemma ChangeEndsDelayIff(db: Db, changed: Id, c: Change, id: Id)
    requires IsDelayed(db, id)
    ensures !IsDelayed(Update(db, changed, c), id) <==> changed == id && RowEndsDelay(db.workflows[id], c)
  {
  }

  /** In every run: a row that is delayed at one moment and no longer at a later one
      has been released by a call in between, and if that was the promotion, then not
      before the time it was then delayed until. */
  lemma {:induction false} DelayedUntilReleased(db: Db, ops: seq<Op>, id: Id, i: nat, j: nat) returns (k: nat)
    requires Keyed(db) && i <= j <= |ops| && IsDelayed(Before(db, ops, i), id) && !IsDelayed(Before(db, ops, j), id)
    ensures i <= k < j && IsDelayed(Before(db, ops, k), id) && EndsDelay(Before(db, ops, k), ops[k], id)
    decreases j - i
  {
    KeyedRun(db, ops[..i]);
    BeforeStep(db, ops, i);
    DelayEndsIff(Before(db, ops, i), ops[i], id);
    k := i;
    if !EndsDelay(Before(db, ops, i), ops[i], id) { k := DelayedUntilReleased(db, ops, id, i + 1, j); }
  }

  // ---- where a workflow's outcome comes from -------------------------------------------

  datatype Result = Returned(v: Value) | Failed(error: string)

  predicate HoldsResult(r: Row, x: Result) {
    match x
    case Returned(v) => r.output == Some(v)
    case Failed(e) => r.error == Some(e)
  }

  /** The call gives the workflow the outcome: a status write that carries it and is
      not refused, or the insertion of a new row that has it. */
  ghost predicate Gives(db: Db, op: Op, id: Id, x: Result) {
    match op
    case ChangeOp(i, ToStatus(status, output, error, _)) =>
      && i == id && id in db.workflows
      && !((status == Success || status == Error) && db.workflows[id].status == Cancelled)
      && (if x.Returned? then output == Some(x.v) else error == Some(x.error))
    case InsertOp(row) => row.id == id && Creates(db, row) && HoldsResult(row, x)
    case _ => false
  }

  predicate SameKind(x: Result, y: Result) {
    x.Returned? <==> y.Returned?
  }

  ghost predicate HasResult(db: Db, id: Id, x: Result) {
    id in db.workflows && HoldsResult(db.workflows[id], x)
  }

  /** A row that holds an outcome after a call was given it or held it before, and in
      the second case the call gave it no other. */
  lemma ResultStep(db: Db, op: Op, id: Id, x: Result, y: Result)
    requires Keyed(db) && HasResult(Apply(db, op), id, x)
    ensures Gives(db, op, id, x) || HasResult(db, id, x)
    ensures SameKind(x, y) && Gives(db, op, id, y) ==> x == y
  {
    if !ChangesRows(op) {
      OthersKeepRows(db, op);
    } else if op.DequeueOp? && id in db.workflows {
      DequeueStarts(db, op.req, op.now, op.latest, id);
    } else if op.ChangeOp? {
      assert Apply(db, op) == Update(db, op.id, op.change);
      ResultOfChange(db, op.id, op.change, id, x, y);
    }
  }

  lemma ResultOfChange(db: Db, changed: Id, c: Change, id: Id, x: Result, y: Result)
    requires HasResult(Update(db, changed, c), id, x)
    ensures Gives(db, ChangeOp(changed, c), id, x) || HasResult(db, id, x)
    ensures SameKind(x, y) && Gives(db, ChangeOp(changed, c), id, y) ==> x == y
  {
  }

  /** The call gives the workflow no outcome of this kind. */
  ghost predicate GivesNone(db: Db, op: Op, id: Id, x: Result) {
    forall y :: SameKind(x, y) ==> !Gives(db, op, id, y)
  }

  lemma NoOtherGiven(db: Db, op: Op, id: Id, x: Result)
    requires Keyed(db) && HasResult(Apply(db, op), id, x) && !Gives(db, op, id, x)
    ensures GivesNone(db, op, id, x)
  {
    forall y | SameKind(x, y) ensures !Gives(db, op, id, y) { ResultStep(db, op, id, x, y); }
  }

  lemma ResultBefore(db: Db, ops: seq<Op>, id: Id, x: Result, j: nat)
    requires Keyed(db) && j < |ops| && HasResult(Before(db, ops, j + 1), id, x)
    ensures || Gives(Before(db, ops, j), ops[j], id, x)
            || (HasResult(Before(db, ops, j), id, x) && GivesNone(Before(db, ops, j), ops[j], id, x))
  {
    var prev, op := Before(db, ops, j), ops[j];
    KeyedRun(db, ops[..j]);
    BeforeStep(db, ops, j);
    if !Gives(prev, op, id, x) {
      ResultStep(prev, op, id, x, x);
      NoOtherGiven(prev, op, id, x);
    }
  }

  ghost predicate HasResultAt(db: Db, ops: seq<Op>, id: Id, x: Result, j: nat) {
    j <= |ops| && HasResult(Before(db, ops, j), id, x)
  }

  ghost predicate GivesAt(db: Db, ops: seq<Op>, id: Id, x: Result, k: nat) {
    k < |ops| && Gives(Before(db, ops, k), ops[k], id, x)
  }

  /** Something that holds after `j` calls was brought about by one of them and not
      touched since, or held from the beginning. */
  lemma {:induction false} LastCause(holds: nat -> bool, gives: nat -> bool, j: nat) returns (k: int)
    requires holds(j) && forall m: nat :: m < j && holds(m + 1) ==> gives(m) || holds(m)
    ensures -1 <= k < j && (if k >= 0 then gives(k) else holds(0))
    ensures forall m: nat :: k < m <= j ==> holds(m)
    ensures forall m: nat :: k < m < j ==> !gives(m)
  {
    if j == 0 { return -1; }
    if gives(j - 1) { return j - 1; }
    assert holds(j - 1 + 1);
    k := LastCause(holds, gives, j - 1);
  }

  /** In every run: the output, or the error, a workflow is found with is the one the
      last call that gave it one gave it, or it had it all along. */
  lemma ResultIsLastGiven(db: Db, ops: seq<Op>, id: Id, x: Result, j: nat) returns (k: int)
    requires Keyed(db) && HasResultAt(db, ops, id, x, j)
    ensures -1 <= k < j && (if k >= 0 then GivesAt(db, ops, id, x, k) else HasResultAt(db, ops, id, x, 0))
    ensures forall m: nat, y :: k < m < j && SameKind(x, y) ==> !GivesAt(db, ops, id, y, m)
  {
    forall m: nat | m < j && HasResultAt(db, ops, id, x, m + 1)
      ensures GivesAt(db, ops, id, x, m) || HasResultAt(db, ops, id, x, m)
    {
      ResultBefore(db, ops, id, x, m);
    }
    var holds: nat -> bool := (m: nat) => HasResultAt(db, ops, id, x, m);
    var gives: nat -> bool := (m: nat) => GivesAt(db, ops, id, x, m);
    k := LastCause(holds, gives, j);
    forall m: nat, y | k < m < j && SameKind(x, y) ensures !GivesAt(db, ops, id, y, m) {
      assert holds(m + 1) && !gives(m);
      ResultBefore(db, ops, id, x, m);
    }
  }

  // ---- the deduplication slot --------------------------------------------

  predicate SameSlot(a: Row, b: Row) {
    a.queueName.Some? && a.dedupId.Some? && HoldsSlot(b, a.queueName.value, a.dedupId.value)
  }

  /** At most one row holds a (queue, deduplication id), and no finished one
      holds any. */
  ghost predicate SlotsUnique(db: Db) {
    && (forall a, b :: a in db.workflows && b in db.workflows && a != b ==> !SameSlot(db.workflows[a], db.workflows[b]))
    && (forall a :: a in db.workflows && IsTerminal(db.workflows[a].status) ==> db.workflows[a].dedupId == None)
  }

  /** New rows start unfinished, and a row is moved to another queue only while
      it holds no deduplication id. */
  ghost predicate KeepsSlots(db: Db, op: Op) {
    match op
    case InsertOp(row) => !IsTerminal(row.status)
    case ChangeOp(id, c) => c.ToQueue? && id in db.workflows ==> db.workflows[id].dedupId == None
    case _ => true
  }

  /** Every row keeps its slot or gives it up, and no finished row has one. */
  ghost predicate SlotsOnlyFreed(db: Db, db': Db) {
    forall a :: a in db'.workflows ==> SlotKeptOrFreed(db, db', a)
  }

  ghost predicate SlotKeptOrFreed(db: Db, db': Db, a: Id)
    requires a in db'.workflows
  {
    var r := db'.workflows[a];
    && (r.dedupId == None
        || (a in db.workflows && r.dedupId == db.workflows[a].dedupId && r.queueName == db.workflows[a].queueName))
    && (IsTerminal(r.status) ==> r.dedupId == None)
  }

  lemma FreedSlotsUnique(db: Db, db': Db)
    requires SlotsUnique(db) && SlotsOnlyFreed(db, db')
    ensures SlotsUnique(db')
  {
    forall a, b | a in db'.workflows && b in db'.workflows && a != b
      ensures !SameSlot(db'.workflows[a], db'.workflows[b])
    {
      assert SlotKeptOrFreed(db, db', a) && SlotKeptOrFreed(db, db', b);
      assert a in db.workflows && b in db.workflows ==> !SameSlot(db.workflows[a], db.workflows[b]);
    }
  }

  lemma DequeueFreesNoSlots(db: Db, req: DequeueRequest, now: int, latest: Option<string>)
    requires Keyed(db) && SlotsUnique(db)
    ensures SlotsOnlyFreed(db, Dequeue(db, req, now, latest))
  {
  }

  lemma SlotsUniqueStep(db: Db, op: Op)
    requires Keyed(db) && SlotsUnique(db) && KeepsSlots(db, op)
    ensures SlotsUnique(Apply(db, op))
  {
    var db' := Apply(db, op);
    if !ChangesRows(op) {
      OthersKeepRows(db, op);
      assert db'.workflows == db.workflows;
    } else if op.DequeueOp? {
      DequeueFreesNoSlots(db, op.req, op.now, op.latest);
      FreedSlotsUnique(db, db');
    } else if op.InsertOp? {
      InsertKeepsSlots(db, op.row);
    } else {
      RowCallsOnlyFreeSlots(db, op);
      FreedSlotsUnique(db, db');
    }
  }

  lemma RowCallsOnlyFreeSlots(db: Db, op: Op)
    requires SlotsUnique(db) && KeepsSlots(db, op) && ChangesRows(op) && !op.DequeueOp? && !op.InsertOp?
    ensures SlotsOnlyFreed(db, Apply(db, op))
  {
    if op.ChangeOp? {
      assert Apply(db, op) == Update(db, op.id, op.change);
      UpdateOnlyFreesSlots(db, op.id, op.change);
    }
  }

  lemma UpdateOnlyFreesSlots(db: Db, id: Id, c: Change)
    requires SlotsUnique(db)
    requires c.ToQueue? && id in db.workflows ==> db.workflows[id].dedupId == None
    ensures SlotsOnlyFreed(db, Update(db, id, c))
  {
  }

  lemma InsertKeepsSlots(db: Db, row: Row)
    requires Keyed(db) && SlotsUnique(db) && !IsTerminal(row.status)
    ensures SlotsUnique(Insert(db, row))
  {
    var db' := Insert(db, row);
    if Creates(db, row) {
      forall a, b | a in db'.workflows && b in db'.workflows && a != b
        ensures !SameSlot(db'.workflows[a], db'.workflows[b])
      {
        if a != row.id && b != row.id {
          assert a in db.workflows && b in db.workflows;
        }
      }
    }
  }

  lemma {:induction false} DeduplicationSlot(db: Db, ops: seq<Op>)
    requires Keyed(db) && SlotsUnique(db)
    requires forall k :: 0 <= k < |ops| ==> KeepsSlots(Before(db, ops, k), ops[k])
    ensures SlotsUnique(After(db, ops))
  {
    if ops != [] {
      var n := |ops| - 1;
      var init := ops[..n];
      forall k | 0 <= k < |init| ensures KeepsSlots(Before(db, init, k), init[k]) {
        assert init[..k] == ops[..k];
        assert KeepsSlots(Before(db, ops, k), ops[k]);
      }
      DeduplicationSlot(db, init);
      KeyedRun(db, init);
      assert KeepsSlots(Before(db, ops, n), ops[n]);
      SlotsUniqueStep(After(db, init), ops[n]);
    }
  }

  ghost predicate HoldsNoSlot(db: Db, id: Id) {
    id in db.workflows && db.workflows[id].dedupId == None
  }

  /** The engine re-enqueues a workflow only after resuming it. From a
      successful resume on, the row holds no deduplication id for as long as it
      is not deleted, so that re-enqueue is one `KeepsSlots` allows. */
  lemma ResumedHoldsNoSlot(db: Db, ops: seq<Op>, id: Id, i: nat, j: nat)
    requires Keyed(db) && i < j <= |ops|
    requires ops[i] == ChangeOp(id, ToResumed) && Changes(Before(db, ops, i), id, ToResumed)
    requires forall k :: i < k < j ==> !Deletes(Before(db, ops, k), ops[k], id)
    ensures HoldsNoSlot(Before(db, ops, j), id)
  {
    BeforeStep(db, ops, i);
    UnslottedRun(db, ops, id, i + 1, j);
  }

  ghost predicate Deletes(db: Db, op: Op, id: Id) {
    op.DeleteOp? && id in DeleteTargets(db, op.ids, op.children)
  }

  lemma {:induction false} UnslottedRun(db: Db, ops: seq<Op>, id: Id, i: nat, j: nat)
    requires Keyed(db) && i <= j <= |ops| && HoldsNoSlot(Before(db, ops, i), id)
    requires forall k :: i <= k < j ==> !Deletes(Before(db, ops, k), ops[k], id)
    ensures HoldsNoSlot(Before(db, ops, j), id)
    decreases j - i
  {
    if i < j {
      UnslottedStays(Before(db, ops, i), ops[i], id);
      BeforeStep(db, ops, i);
      UnslottedRun(db, ops, id, i + 1, j);
    }
  }

  lemma UnslottedStays(db: Db, op: Op, id: Id)
    requires HoldsNoSlot(db, id) && !Deletes(db, op, id)
    ensures HoldsNoSlot(Apply(db, op), id)
  {
    if !ChangesRows(op) {
      OthersKeepRows(db, op);
    }
  }

  /** Re-enqueueing keeps the slots unique exactly when the row holds no
      deduplication id or nobody else holds it on the new queue. */
  lemma EnqueueExistingKeepsSlots(db: Db, id: Id, queue: string)
    requires Keyed(db) && SlotsUnique(db) && id in db.workflows
    ensures SlotsUnique(Update(db, id, ToQueue(queue))) <==>
            (db.workflows[id].dedupId == None
             || forall a :: a in db.workflows && a != id ==> !HoldsSlot(db.workflows[a], queue, db.workflows[id].dedupId.value))
  {
    var db' := Update(db, id, ToQueue(queue));
    if db.workflows[id].dedupId.Some? {
      var d := db.workflows[id].dedupId.value;
      assert HoldsSlot(db'.workflows[id], queue, d);
      if a :| a in db.workflows && a != id && HoldsSlot(db.workflows[a], queue, d) {
        assert SameSlot(db'.workflows[id], db'.workflows[a]);
      }
    }
  }

  /** The premise of `ResumedHoldsNoSlot` is needed: when the resumed workflow
      is deleted and its id inserted again with a deduplication id that is
      taken on the queue it then goes to, two rows hold that slot. */
  lemma DeleteBetweenResumeAndEnqueueBreaksSlots(db: Db, a: Id, v: Row, queue: string, dedup: string)
    requires Keyed(db) && SlotsUnique(db) && Changes(db, v.id, ToResumed)
    requires a in db.workflows && a != v.id && HoldsSlot(db.workflows[a], queue, dedup)
    requires v.dedupId == Some(dedup) && Creates(Delete(Update(db, v.id, ToResumed), {v.id}), v)
    ensures !SlotsUnique(Update(Insert(Delete(Update(db, v.id, ToResumed), {v.id}), v), v.id, ToQueue(queue)))
  {
    var db2 := Delete(Update(db, v.id, ToResumed), {v.id});
    var db4 := Update(Insert(db2, v), v.id, ToQueue(queue));
    assert db4.workflows[a] == db.workflows[a];
    assert SameSlot(db4.workflows[a], db4.workflows[v.id]);
  }
}
