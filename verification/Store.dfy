/** The state provider as a value: what the store holds, and what each provider
    call makes of it. Every call is one atomic step, as it is under the
    provider's single lock. */
module Store {
  import opened Types
  import opened ClaimOrder
  import opened Lineage

  datatype Db = Db(
    workflows: map<Id, Row>,
    steps: map<(Id, int), StepRow>,
    notes: seq<Note>,
    events: map<(Id, string), Value>,
    streams: map<(Id, string), seq<Option<Value>>>,
    versions: map<string, int>)

  const Empty := Db(map[], map[], [], map[], map[], map[])

  /** Rows are stored under their own id. */
  ghost predicate Keyed(db: Db) {
    forall id :: id in db.workflows ==> db.workflows[id].id == id
  }

  function Put(db: Db, id: Id, r: Row): Db {
    db.(workflows := db.workflows[id := r])
  }

  // ---- workflow rows ------------------------------------------------------

  predicate HoldsSlot(r: Row, queue: string, dedup: string) {
    r.queueName == Some(queue) && r.dedupId == Some(dedup)
  }

  /** Another workflow already holds the row's (queue, deduplication id). */
  predicate Deduplicated(db: Db, row: Row) {
    row.queueName.Some? && row.dedupId.Some? &&
    exists id :: id in db.workflows && db.workflows[id].id != row.id
                 && HoldsSlot(db.workflows[id], row.queueName.value, row.dedupId.value)
  }

  /** Does inserting `row` create it (rather than be refused or find it there)? */
  predicate Creates(db: Db, row: Row) {
    !Deduplicated(db, row) && row.id !in db.workflows
  }

  function Insert(db: Db, row: Row): Db {
    if Creates(db, row) then Put(db, row.id, row) else db
  }

  /** The calls that rewrite one existing row. */
  datatype Change =
    | ToStatus(status: Status, output: Option<Value>, error: Option<string>, now: int)
    | ToCancelled(now: int)
    | ToResumed
    | ToQueue(queue: string)
    | ToDelay(until: int)
    | ToBumped(max: int)

  /** What a call makes of the row, or `None` when it leaves it as it is. */
  function Changed(r: Row, c: Change): Option<Row> {
    match c
    case ToStatus(status, output, error, now) =>
      // A completion never overwrites a cancellation.
      if IsCompletion(status) && r.status == Cancelled then None
      else
        var r1 := r.(status := status,
                     output := if output.Some? then output else r.output,
                     error := if error.Some? then error else r.error);
        Some(if IsTerminal(status) then r1.(completedAtMs := Some(now), dedupId := None) else r1)
    case ToCancelled(now) =>
      if IsTerminal(r.status) then None
      else Some(r.(status := Cancelled, completedAtMs := Some(now), startedAtMs := None, queueName := None,
                   dedupId := None))
    case ToResumed =>
      if IsTerminal(r.status) && r.status != Cancelled then None
      else Some(r.(status := Pending, recoveryAttempts := 0, deadlineMs := None, dedupId := None,
                   startedAtMs := None, completedAtMs := None))
    case ToQueue(queue) =>
      Some(r.(status := Enqueued, queueName := Some(queue), executorId := "", startedAtMs := None))
    case ToDelay(until) =>
      if r.status == Delayed then Some(r.(delayUntilMs := Some(until))) else None
    case ToBumped(max) =>
      var r1 := r.(recoveryAttempts := r.recoveryAttempts + 1);
      Some(if r1.recoveryAttempts > max then r1.(status := MaxRecoveryAttemptsExceeded, dedupId := None) else r1)
  }

  predicate IsCancelled(db: Db, id: Id) {
    id in db.workflows && db.workflows[id].status == Cancelled
  }

  /** Is there a row for the call to rewrite, and does it rewrite it? */
  predicate Changes(db: Db, id: Id, c: Change) {
    id in db.workflows && Changed(db.workflows[id], c).Some?
  }

  function Update(db: Db, id: Id, c: Change): Db {
    if Changes(db, id, c) then Put(db, id, Changed(db.workflows[id], c).value) else db
  }

  predicate Due(r: Row, now: int) {
    r.status == Delayed && r.delayUntilMs.Some? && r.delayUntilMs.value <= now
  }

  function Released(r: Row, now: int): Row {
    if Due(r, now) then r.(status := Enqueued, delayUntilMs := None) else r
  }

  function TransitionDelayed(db: Db, now: int): Db {
    db.(workflows := map id | id in db.workflows :: Released(db.workflows[id], now))
  }

  // ---- claiming work ------------------------------------------------------

  /** `None` scopes to the whole queue, a key to that partition of it. */
  predicate InScope(r: Row, queue: string, scope: Option<string>) {
    r.queueName == Some(queue) && (scope.None? || r.partitionKey == scope)
  }

  /** A start the rate limiter governs, after `cutoff`. */
  predicate CountsAsStart(r: Row, queue: string, scope: Option<string>, cutoff: int) {
    && InScope(r, queue, scope) && r.rateLimited && r.status != Enqueued && r.status != Delayed
    && r.startedAtMs.Some? && r.startedAtMs.value > cutoff
  }

  function RecentStarts(db: Db, queue: string, scope: Option<string>, cutoff: int): set<Id> {
    set id | id in db.workflows && CountsAsStart(db.workflows[id], queue, scope, cutoff)
  }

  function PendingIn(db: Db, queue: string, scope: Option<string>): set<Id> {
    set id | id in db.workflows && InScope(db.workflows[id], queue, scope) && db.workflows[id].status == Pending
  }

  /** How many rows a request may claim. */
  function Budget(db: Db, req: DequeueRequest, now: int): int {
    var afterRate :=
      if req.rateLimitMax.Some? && req.rateLimitPeriodMs.Some?
      then Min(req.maxTasks,
               Max(req.rateLimitMax.value
                   - |RecentStarts(db, req.queueName, req.partitionKey, now - req.rateLimitPeriodMs.value)|, 0))
      else req.maxTasks;
    if req.globalConcurrency.Some?
    then Min(afterRate, Max(req.globalConcurrency.value - |PendingIn(db, req.queueName, req.partitionKey)|, 0))
    else afterRate
  }

  /** `latest` is a registered version of greatest timestamp, or absent when
      none is registered. */
  predicate IsLatestVersion(db: Db, latest: Option<string>) {
    if latest.None? then db.versions == map[]
    else latest.value in db.versions && forall v :: v in db.versions ==> db.versions[v] <= db.versions[latest.value]
  }

  predicate Eligible(r: Row, req: DequeueRequest, latest: Option<string>) {
    && InScope(r, req.queueName, req.partitionKey)
    && r.status == Enqueued
    && (r.appVersion == req.appVersion || (r.appVersion == "" && (latest.None? || latest.value == req.appVersion)))
  }

  function EligibleIds(db: Db, req: DequeueRequest, latest: Option<string>): set<Id> {
    set id | id in db.workflows && Eligible(db.workflows[id], req, latest)
  }

  function KeyOf(r: Row): Key {
    Key(r.priority, Millis(r.createdAt), r.id)
  }

  function Candidates(db: Db, req: DequeueRequest, latest: Option<string>): set<Key> {
    set id | id in db.workflows && Eligible(db.workflows[id], req, latest) :: KeyOf(db.workflows[id])
  }

  /** The keys a request claims, in the order it hands them out. */
  ghost function Claimed(db: Db, req: DequeueRequest, now: int, latest: Option<string>): seq<Key> {
    if Budget(db, req, now) <= 0 then [] else Smallest(Candidates(db, req, latest), Budget(db, req, now))
  }

  ghost function ClaimedIds(db: Db, req: DequeueRequest, now: int, latest: Option<string>): set<Id> {
    var c := Claimed(db, req, now, latest);
    set i | 0 <= i < |c| :: c[i].id
  }

  function ClaimedRow(r: Row, req: DequeueRequest, now: int): Row {
    r.(status := Pending, executorId := req.executorId, appVersion := req.appVersion, startedAtMs := Some(now),
       rateLimited := req.rateLimitMax.Some?,
       deadlineMs := if r.deadlineMs.None? && r.timeoutMs.Some? then Some(now + r.timeoutMs.value) else r.deadlineMs)
  }

  function ClaimAll(db: Db, ids: set<Id>, req: DequeueRequest, now: int): Db {
    db.(workflows := map id | id in db.workflows ::
          if id in ids then ClaimedRow(db.workflows[id], req, now) else db.workflows[id])
  }

  ghost function Dequeue(db: Db, req: DequeueRequest, now: int, latest: Option<string>): Db {
    ClaimAll(db, ClaimedIds(db, req, now, latest), req, now)
  }

  // ---- the operation log --------------------------------------------------

  /** Rows of the log are written once: a second write keeps the first. */
  function RecordRow(db: Db, id: Id, seqNo: int, row: StepRow): Db {
    if (id, seqNo) in db.steps then db else db.(steps := db.steps[(id, seqNo) := row])
  }

  function StepRowFor(name: string, value: Value, error: Option<string>): StepRow {
    StepRow(name, if error.Some? then None else Some(value), error, None)
  }

  function PatchRow(marker: string): StepRow {
    StepRow(marker, None, None, None)
  }

  // ---- messages, events, streams -----------------------------------------

  /** The primary key a keyed send derives. */
  function KeyedUuid(key: string, dest: Id): string {
    key + "::" + dest
  }

  predicate UuidUsed(notes: seq<Note>, uuid: string) {
    exists i :: 0 <= i < |notes| && notes[i].uuid == uuid
  }

  /** `randomId` is the random id an unkeyed send gets. */
  function NoteUuid(dest: Id, key: Option<string>, randomId: string): string {
    if key.Some? then KeyedUuid(key.value, dest) else randomId
  }

  predicate Sends(db: Db, dest: Id, key: Option<string>) {
    dest in db.workflows && (key.Some? ==> !UuidUsed(db.notes, KeyedUuid(key.value, dest)))
  }

  function InsertNote(db: Db, dest: Id, topic: string, message: Value, key: Option<string>, randomId: string, now: int): Db {
    if Sends(db, dest, key)
    then db.(notes := db.notes + [Note(NoteUuid(dest, key, randomId), dest, topic, message, false, now)])
    else db
  }

  predicate Waiting(n: Note, id: Id, topic: string) {
    !n.consumed && n.dest == id && n.topic == topic
  }

  /** The first of the oldest messages waiting among the first `n`. */
  function OldestAmong(notes: seq<Note>, id: Id, topic: string, n: nat): (r: Option<nat>)
    requires n <= |notes|
    ensures r.Some? ==> r.value < n && Waiting(notes[r.value], id, topic)
  {
    if n == 0 then None
    else
      var best := OldestAmong(notes, id, topic, n - 1);
      if Waiting(notes[n - 1], id, topic)
         && (best.None? || notes[n - 1].createdAtMs < notes[best.value].createdAtMs)
      then Some(n - 1) else best
  }

  function Oldest(notes: seq<Note>, id: Id, topic: string): Option<nat> {
    OldestAmong(notes, id, topic, |notes|)
  }

  /** Claim the oldest waiting message and checkpoint it, in one step. */
  function Consume(db: Db, id: Id, topic: string, seqNo: int, name: string): Db {
    match Oldest(db.notes, id, topic)
    case None => db
    case Some(i) =>
      var db1 := db.(notes := db.notes[i := db.notes[i].(consumed := true)]);
      RecordRow(db1, id, seqNo, StepRow(name, Some(db.notes[i].message), None, None))
  }

  function UpsertEvent(db: Db, id: Id, key: string, value: Value): Db {
    db.(events := db.events[(id, key) := value])
  }

  function StreamOf(db: Db, id: Id, key: string): seq<Option<Value>> {
    if (id, key) in db.streams then db.streams[(id, key)] else []
  }

  predicate StreamClosed(db: Db, id: Id, key: string) {
    exists i :: 0 <= i < |StreamOf(db, id, key)| && StreamOf(db, id, key)[i].None?
  }

  /** `None` is the close sentinel; a sealed stream refuses every write. */
  function WriteStream(db: Db, id: Id, key: string, value: Option<Value>): Db {
    if StreamClosed(db, id, key) then db
    else db.(streams := db.streams[(id, key) := StreamOf(db, id, key) + [value]])
  }

  // ---- deleting and forking ----------------------------------------------

  function KeepNotes(notes: seq<Note>, gone: set<Id>): (r: seq<Note>)
  {
    if notes == [] then []
    else if notes[0].dest in gone then KeepNotes(notes[1..], gone)
    else [notes[0]] + KeepNotes(notes[1..], gone)
  }

  /** Events are left behind. */
  function Delete(db: Db, gone: set<Id>): Db {
    db.(workflows := db.workflows - gone,
        steps := map k | k in db.steps && k.0 !in gone :: db.steps[k],
        streams := map k | k in db.streams && k.0 !in gone :: db.streams[k],
        notes := KeepNotes(db.notes, gone))
  }

  ghost function DeleteTargets(db: Db, ids: seq<Id>, children: bool): set<Id> {
    var roots := Elements(ids);
    if children then Descendants(db.workflows, roots) else roots
  }

  datatype ForkParams = ForkParams(originalId: Id, newId: Id, startStep: int, appVersion: Option<string>,
                                   queueName: string, partitionKey: Option<string>)

  function ForkedRow(original: Row, p: ForkParams, createdAt: int): Row {
    NewRow(p.newId, original.name, original.input, Enqueued, "",
           if p.appVersion.Some? then p.appVersion.value else original.appVersion, createdAt)
    .(forkedFrom := Some(p.originalId), queueName := Some(p.queueName), partitionKey := p.partitionKey)
  }

  /** The checkpoints a fork copies: the original's below the start step. */
  function Copied(steps: map<(Id, int), StepRow>, p: ForkParams): map<(Id, int), StepRow> {
    map k | k in steps && k.0 == p.originalId && k.1 < p.startStep :: (p.newId, k.1) := steps[k]
  }

  function Fork(db: Db, p: ForkParams, createdAt: int): Db {
    if p.originalId !in db.workflows then db
    else db.(workflows := db.workflows[p.newId := ForkedRow(db.workflows[p.originalId], p, createdAt)],
             steps := db.steps + Copied(db.steps, p))
  }

  // ---- versions -----------------------------------------------------------

  /** Register a version (kept if known), or mark a known one as the latest. */
  function StampVersion(db: Db, v: string, now: int, create: bool): Db {
    if create == (v in db.versions) then db else db.(versions := db.versions[v := now])
  }
}
