/** Runs of the store: provider calls of any number of processes, in the order
    in which they take the provider's lock. */
module StoreRuns {
  import opened Types
  import opened Store
  import opened Claims

  /** One provider call. Clock readings and random ids are its arguments. */
  datatype Op =
    | InsertOp(row: Row)
    | ChangeOp(id: Id, change: Change)
    | TransitionDelayedOp(now: int)
    | DequeueOp(req: DequeueRequest, now: int, latest: Option<string>)
    | RecordOp(id: Id, seqNo: int, step: StepRow)
    | InsertNoteOp(id: Id, topic: string, value: Value, key: Option<string>, randomId: string, now: int)
    | ConsumeOp(id: Id, topic: string, seqNo: int, name: string)
    | UpsertEventOp(id: Id, name: string, value: Value)
    | WriteStreamOp(id: Id, name: string, entry: Option<Value>)
    | DeleteOp(ids: seq<Id>, children: bool)
    | ForkOp(params: ForkParams, createdAt: int)
    | VersionOp(name: string, now: int, create: bool)

  ghost function Apply(db: Db, op: Op): Db {
    match op
    case InsertOp(row) => Insert(db, row)
    case ChangeOp(id, change) => Update(db, id, change)
    case TransitionDelayedOp(now) => TransitionDelayed(db, now)
    case DequeueOp(req, now, latest) => Dequeue(db, req, now, latest)
    case RecordOp(id, seqNo, step) => RecordRow(db, id, seqNo, step)
    case InsertNoteOp(id, topic, value, key, randomId, now) => InsertNote(db, id, topic, value, key, randomId, now)
    case ConsumeOp(id, topic, seqNo, name) => Consume(db, id, topic, seqNo, name)
    case UpsertEventOp(id, name, value) => UpsertEvent(db, id, name, value)
    case WriteStreamOp(id, name, entry) => WriteStream(db, id, name, entry)
    case DeleteOp(ids, children) => Delete(db, DeleteTargets(db, ids, children))
    case ForkOp(params, createdAt) => Fork(db, params, createdAt)
    case VersionOp(name, now, create) => StampVersion(db, name, now, create)
  }

  /** The store after a run of calls. */
  ghost function After(db: Db, ops: seq<Op>): Db {
    if ops == [] then db else Apply(After(db, ops[..|ops| - 1]), ops[|ops| - 1])
  }

  /** The store just before call `k` of a run. */
  ghost function Before(db: Db, ops: seq<Op>, k: nat): Db
    requires k <= |ops|
  {
    After(db, ops[..k])
  }

  lemma BeforeStep(db: Db, ops: seq<Op>, k: nat)
    requires k < |ops|
    ensures Before(db, ops, k + 1) == Apply(Before(db, ops, k), ops[k])
  {
    assert ops[..k + 1][..k] == ops[..k];
  }

  // ---- which calls change which rows --------------------------------------

  /** The calls that may change workflow rows. */
  predicate ChangesRows(op: Op) {
    op.InsertOp? || op.ChangeOp? || op.TransitionDelayedOp? || op.DequeueOp? || op.DeleteOp? || op.ForkOp?
  }

  lemma OthersKeepRows(db: Db, op: Op)
    requires !ChangesRows(op)
    ensures Apply(db, op).workflows == db.workflows
  {
  }

  // ---- rows stay under their own id --------------------------------------

  lemma KeyedStep(db: Db, op: Op)
    requires Keyed(db)
    ensures Keyed(Apply(db, op))
  {
  }

  lemma {:induction false} KeyedRun(db: Db, ops: seq<Op>)
    requires Keyed(db)
    ensures Keyed(After(db, ops))
  {
    if ops != [] {
      KeyedRun(db, ops[..|ops| - 1]);
      KeyedStep(After(db, ops[..|ops| - 1]), ops[|ops| - 1]);
    }
  }
}
