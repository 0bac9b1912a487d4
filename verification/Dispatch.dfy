/** The dispatchers of one queue: any number of processes, each with one
    dispatch loop and the tasks it has spawned, over one store. */
module Dispatch {
  import opened Types
  import opened ClaimOrder
  import opened Store
  import opened Claims
  import opened StoreRuns

  datatype QueueConfig = QueueConfig(
    name: string,
    partitioned: bool,
    workerConcurrency: Option<nat>,
    globalConcurrency: Option<int>,
    maxTasksPerIteration: nat,
    rateLimitMax: Option<int>,
    rateLimitPeriodMs: Option<int>)

  /** Where a process's dispatch loop stands in its turn for one partition. */
  datatype Phase =
    | Idle
    | Loaded(pkey: Option<string>, maxTasks: int)      // read the counter, about to claim
    | Spawning(pkey: Option<string>, left: seq<Id>)    // claimed, about to spawn or release each

  /** A task holds a slot of the counter it was spawned under. */
  datatype Task = Task(id: Id, slot: string)

  datatype Process = Process(executorId: string, appVersion: string, counters: map<string, int>, tasks: seq<Task>, phase: Phase)

  datatype Cluster = Cluster(db: Db, procs: map<int, Process>)

  /** The counter a partition's runs are counted under. */
  function Slot(pkey: Option<string>): string {
    if pkey.Some? then pkey.value else ""
  }

  function Running(p: Process, slot: string): int {
    if slot in p.counters then p.counters[slot] else 0
  }

  /** How many rows the loop asks for, given the count it loaded. */
  function Ask(q: QueueConfig, local: int): int {
    Min(if q.workerConcurrency.Some? then Max(q.workerConcurrency.value - local, 0) else q.maxTasksPerIteration,
        q.maxTasksPerIteration)
  }

  function Request(q: QueueConfig, p: Process, pkey: Option<string>, maxTasks: int): DequeueRequest {
    DequeueRequest(q.name, p.executorId, p.appVersion, pkey, maxTasks, q.globalConcurrency, q.rateLimitMax, q.rateLimitPeriodMs)
  }

  datatype Event =
    | Load(pid: int, pkey: Option<string>)                   // read the counter for a partition
    | Claim(pid: int, now: int, latest: Option<string>)      // one dequeue call
    | ClaimFails(pid: int)                                   // the dequeue call errs
    | Spawn(pid: int)                                        // start the next claimed workflow
    | Release(pid: int, now: int)                            // no handler for it: put it back
    | Finish(pid: int, task: nat)                            // a task ends and drops its guard
    | Join(pid: int, executorId: string, appVersion: string) // a process starts
    | Die(pid: int)                                          // a process is lost with its tasks
    | Call(op: Op)                                           // any other provider call

  /** The calls of everyone else: anything but another claim for this queue, as
      long as it does not make a row of this queue pending that was not. Only a
      resume, a status rewrite or an import could. */
  predicate Outside(q: QueueConfig, db: Db, op: Op) {
    match op
    case InsertOp(row) => row.queueName == Some(q.name) && row.status == Pending ==> !Creates(db, row)
    case ChangeOp(id, c) =>
      c.ToResumed? || (c.ToStatus? && c.status == Pending) ==>
        (Changes(db, id, c) && db.workflows[id].queueName == Some(q.name) ==> db.workflows[id].status == Pending)
    case DequeueOp(req, _, _) => req.queueName != q.name
    case _ => true
  }

  predicate Enabled(q: QueueConfig, s: Cluster, e: Event) {
    match e
    case Load(pid, pkey) => pid in s.procs && s.procs[pid].phase.Idle? && (q.partitioned <==> pkey.Some?)
    case Claim(pid, _, _) => pid in s.procs && s.procs[pid].phase.Loaded?
    case ClaimFails(pid) => pid in s.procs && s.procs[pid].phase.Loaded?
    case Spawn(pid) => pid in s.procs && s.procs[pid].phase.Spawning? && s.procs[pid].phase.left != []
    case Release(pid, _) => pid in s.procs && s.procs[pid].phase.Spawning? && s.procs[pid].phase.left != []
    case Finish(pid, task) => pid in s.procs && task < |s.procs[pid].tasks|
    case Join(pid, _, _) => pid !in s.procs
    case Die(pid) => pid in s.procs
    case Call(op) => Outside(q, s.db, op)
  }

  function Rest(pkey: Option<string>, left: seq<Id>): Phase {
    if left == [] then Idle else Spawning(pkey, left)
  }

  ghost function IdsOf(c: seq<Key>): seq<Id> {
    seq(|c|, i requires 0 <= i < |c| => c[i].id)
  }

  ghost function Do(q: QueueConfig, s: Cluster, e: Event): Cluster
    requires Enabled(q, s, e)
  {
    match e
    case Load(pid, pkey) =>
      var p := s.procs[pid];
      var ask := Ask(q, Running(p, Slot(pkey)));
      if ask <= 0 then s else s.(procs := s.procs[pid := p.(phase := Loaded(pkey, ask))])
    case Claim(pid, now, latest) =>
      var p := s.procs[pid];
      var req := Request(q, p, p.phase.pkey, p.phase.maxTasks);
      Cluster(Dequeue(s.db, req, now, latest),
              s.procs[pid := p.(phase := Rest(p.phase.pkey, IdsOf(Claimed(s.db, req, now, latest))))])
    case ClaimFails(pid) =>
      s.(procs := s.procs[pid := s.procs[pid].(phase := Idle)])
    case Spawn(pid) =>
      var p := s.procs[pid];
      var slot := Slot(p.phase.pkey);
      s.(procs := s.procs[pid := p.(counters := p.counters[slot := Running(p, slot) + 1],
                                    tasks := p.tasks + [Task(p.phase.left[0], slot)],
                                    phase := Rest(p.phase.pkey, p.phase.left[1..]))])
    case Release(pid, now) =>
      var p := s.procs[pid];
      Cluster(Update(s.db, p.phase.left[0], ToStatus(Enqueued, None, None, now)),
              s.procs[pid := p.(phase := Rest(p.phase.pkey, p.phase.left[1..]))])
    case Finish(pid, task) =>
      var p := s.procs[pid];
      var slot := p.tasks[task].slot;
      s.(procs := s.procs[pid := p.(counters := p.counters[slot := Running(p, slot) - 1],
                                    tasks := p.tasks[..task] + p.tasks[task + 1..])])
    case Join(pid, executorId, appVersion) =>
      s.(procs := s.procs[pid := Process(executorId, appVersion, map[], [], Idle)])
    case Die(pid) =>
      s.(procs := s.procs - {pid})
    case Call(op) =>
      s.(db := Apply(s.db, op))
  }

  // ---- the per-process cap -------------------------------------------------

  /** How many tasks hold a slot's guard. */
  function Guards(tasks: seq<Task>, slot: string): nat {
    if tasks == [] then 0
    else Guards(tasks[..|tasks| - 1], slot) + (if tasks[|tasks| - 1].slot == slot then 1 else 0)
  }

  lemma {:induction false} GuardsSplit(a: seq<Task>, b: seq<Task>, slot: string)
    ensures Guards(a + b, slot) == Guards(a, slot) + Guards(b, slot)
  {
    if b == [] { assert a + b == a; }
    else {
      assert (a + b)[..|a + b| - 1] == a + b[..|b| - 1];
      GuardsSplit(a, b[..|b| - 1], slot);
    }
  }

  /** Slots the loop may still take in the turn it is in. */
  function Reserved(p: Process, slot: string): int {
    match p.phase
    case Idle => 0
    case Loaded(pkey, maxTasks) => if slot == Slot(pkey) then maxTasks else 0
    case Spawning(pkey, left) => if slot == Slot(pkey) then |left| else 0
  }

  ghost predicate WorkerOk(q: QueueConfig, p: Process) {
    forall slot :: SlotOk(q, p, slot)
  }

  /** The counter counts the guards, and together with what the loop may still
      spawn it stays within the worker cap. */
  ghost predicate SlotOk(q: QueueConfig, p: Process, slot: string) {
    && Running(p, slot) == Guards(p.tasks, slot)
    && (q.workerConcurrency.Some? ==> Running(p, slot) + Reserved(p, slot) <= q.workerConcurrency.value)
    && Reserved(p, slot) >= 0
  }

  lemma SpawnKeepsWorker(q: QueueConfig, s: Cluster, pid: int)
    requires Enabled(q, s, Spawn(pid)) && WorkerOk(q, s.procs[pid])
    ensures WorkerOk(q, Do(q, s, Spawn(pid)).procs[pid])
  {
    var p, p' := s.procs[pid], Do(q, s, Spawn(pid)).procs[pid];
    forall slot ensures SlotOk(q, p', slot) {
      assert SlotOk(q, p, slot);
      assert p'.tasks[..|p'.tasks| - 1] == p.tasks;
    }
  }

  lemma FinishKeepsWorker(q: QueueConfig, s: Cluster, pid: int, task: nat)
    requires Enabled(q, s, Finish(pid, task)) && WorkerOk(q, s.procs[pid])
    ensures WorkerOk(q, Do(q, s, Finish(pid, task)).procs[pid])
  {
    var p, p' := s.procs[pid], Do(q, s, Finish(pid, task)).procs[pid];
    var before, one, behind := p.tasks[..task], [p.tasks[task]], p.tasks[task + 1..];
    assert p.tasks == before + (one + behind);
    forall slot ensures SlotOk(q, p', slot) {
      assert SlotOk(q, p, slot);
      GuardsSplit(before, one + behind, slot);
      GuardsSplit(one, behind, slot);
      GuardsSplit(before, behind, slot);
      assert one[..0] == [];
    }
  }

  lemma LoadKeepsWorker(q: QueueConfig, s: Cluster, pid: int, pkey: Option<string>)
    requires Enabled(q, s, Load(pid, pkey)) && WorkerOk(q, s.procs[pid])
    ensures WorkerOk(q, Do(q, s, Load(pid, pkey)).procs[pid])
  {
    var p, p' := s.procs[pid], Do(q, s, Load(pid, pkey)).procs[pid];
    forall slot ensures SlotOk(q, p', slot) {
      assert SlotOk(q, p, slot);
    }
  }

  lemma ClaimKeepsWorker(q: QueueConfig, s: Cluster, pid: int, now: int, latest: Option<string>)
    requires Keyed(s.db) && Enabled(q, s, Claim(pid, now, latest)) && WorkerOk(q, s.procs[pid])
    ensures WorkerOk(q, Do(q, s, Claim(pid, now, latest)).procs[pid])
  {
    var p, p' := s.procs[pid], Do(q, s, Claim(pid, now, latest)).procs[pid];
    ClaimCorrectness(s.db, Request(q, p, p.phase.pkey, p.phase.maxTasks), now, latest);
    forall slot ensures SlotOk(q, p', slot) {
      assert SlotOk(q, p, slot) && SlotOk(q, p, Slot(p.phase.pkey));
    }
  }

  lemma OtherEventsKeepWorker(q: QueueConfig, s: Cluster, e: Event, pid: int)
    requires Enabled(q, s, e) && (e.ClaimFails? || e.Release?) && e.pid == pid && WorkerOk(q, s.procs[pid])
    ensures WorkerOk(q, Do(q, s, e).procs[pid])
  {
    var p, p' := s.procs[pid], Do(q, s, e).procs[pid];
    forall slot ensures SlotOk(q, p', slot) {
      assert SlotOk(q, p, slot);
    }
  }

  ghost predicate WorkersOk(q: QueueConfig, s: Cluster) {
    forall pid :: pid in s.procs ==> WorkerOk(q, s.procs[pid])
  }

  lemma WorkersStep(q: QueueConfig, s: Cluster, e: Event)
    requires Keyed(s.db) && Enabled(q, s, e) && WorkersOk(q, s)
    ensures WorkersOk(q, Do(q, s, e))
  {
    var s' := Do(q, s, e);
    forall pid | pid in s'.procs ensures WorkerOk(q, s'.procs[pid]) {
      if e.Join? && pid == e.pid {
        assert forall slot :: SlotOk(q, s'.procs[pid], slot);
      } else if e.Call? || pid != e.pid {
        assert s'.procs[pid] == s.procs[pid];
      } else {
        match e
        case Load(_, pkey) => LoadKeepsWorker(q, s, pid, pkey);
        case Claim(_, now, latest) => ClaimKeepsWorker(q, s, pid, now, latest);
        case Spawn(_) => SpawnKeepsWorker(q, s, pid);
        case Finish(_, task) => FinishKeepsWorker(q, s, pid, task);
        case _ => OtherEventsKeepWorker(q, s, e, pid);
      }
    }
  }

  // ---- the queue-wide cap ---------------------------------------------------

  /** The scopes the queue's cap is per: the queue, or each partition of it. */
  predicate IsScope(q: QueueConfig, scope: Option<string>) {
    q.partitioned <==> scope.Some?
  }

  ghost predicate GlobalOk(q: QueueConfig, db: Db) {
    q.globalConcurrency.Some? ==>
      forall scope :: IsScope(q, scope) ==> |PendingIn(db, q.name, scope)| <= Max(q.globalConcurrency.value, 0)
  }

  lemma OutsideAddsNoPending(q: QueueConfig, db: Db, op: Op, scope: Option<string>)
    requires Keyed(db) && Outside(q, db, op)
    ensures PendingIn(Apply(db, op), q.name, scope) <= PendingIn(db, q.name, scope)
  {
    if !ChangesRows(op) {
      OthersKeepRows(db, op);
    } else if op.DequeueOp? {
      var req := op.req;
      forall id | id in PendingIn(Apply(db, op), q.name, scope) ensures id in PendingIn(db, q.name, scope) {
        if id in ClaimedIds(db, req, op.now, op.latest) { ClaimedWereEnqueued(db, req, op.now, op.latest, id); }
      }
    } else if op.ChangeOp? {
      assert Apply(db, op) == Update(db, op.id, op.change);
      ChangeAddsNoPending(q, db, op.id, op.change, scope);
    }
  }

  /** The premise on other calls is exact: apart from claims, a call is admitted if
      and only if it makes no further row of the queue pending. */
  lemma OutsideExactly(q: QueueConfig, db: Db, op: Op)
    requires Keyed(db) && !op.DequeueOp?
    ensures Outside(q, db, op) <==> PendingIn(Apply(db, op), q.name, None) <= PendingIn(db, q.name, None)
  {
    if Outside(q, db, op) {
      OutsideAddsNoPending(q, db, op, None);
    } else {
      var id := if op.InsertOp? then op.row.id else op.id;
      assert id in PendingIn(Apply(db, op), q.name, None) && id !in PendingIn(db, q.name, None);
    }
  }

  lemma ChangeAddsNoPending(q: QueueConfig, db: Db, id: Id, c: Change, scope: Option<string>)
    requires Outside(q, db, ChangeOp(id, c))
    ensures PendingIn(Update(db, id, c), q.name, scope) <= PendingIn(db, q.name, scope)
  {
  }

  /** A claim for one scope makes pending at most the rows it claims there, and
      none elsewhere. */
  lemma ClaimAddsPending(q: QueueConfig, db: Db, req: DequeueRequest, now: int, latest: Option<string>, scope: Option<string>)
    requires Keyed(db) && req.queueName == q.name && IsScope(q, scope) && IsScope(q, req.partitionKey)
    ensures PendingIn(Dequeue(db, req, now, latest), q.name, scope)
         <= PendingIn(db, q.name, scope) + (if req.partitionKey == scope then ClaimedIds(db, req, now, latest) else {})
  {
    forall id | id in PendingIn(Dequeue(db, req, now, latest), q.name, scope) && id !in PendingIn(db, q.name, scope)
      ensures req.partitionKey == scope && id in ClaimedIds(db, req, now, latest)
    {
      if id in ClaimedIds(db, req, now, latest) { ClaimedWereEnqueued(db, req, now, latest, id); }
    }
  }

  lemma ClaimKeepsGlobal(q: QueueConfig, db: Db, req: DequeueRequest, now: int, latest: Option<string>, scope: Option<string>)
    requires Keyed(db) && req.queueName == q.name && IsScope(q, scope) && IsScope(q, req.partitionKey)
    requires q.globalConcurrency.Some? && req.globalConcurrency == q.globalConcurrency
    requires |PendingIn(db, q.name, scope)| <= Max(q.globalConcurrency.value, 0)
    ensures |PendingIn(Dequeue(db, req, now, latest), q.name, scope)| <= Max(q.globalConcurrency.value, 0)
  {
    ClaimAddsPending(q, db, req, now, latest, scope);
    ClaimCorrectness(db, req, now, latest);
    var earlier, claimed := PendingIn(db, q.name, scope), ClaimedIds(db, req, now, latest);
    var later := PendingIn(Dequeue(db, req, now, latest), q.name, scope);
    if req.partitionKey == scope { CardOfUnion(later, earlier, claimed); }
    else { CardOfUnion(later, earlier, {}); }
  }

  lemma CardOfUnion(c: set<Id>, a: set<Id>, b: set<Id>)
    requires c <= a + b
    ensures |c| <= |a| + |b|
  {
    assert a + b == c + (a + b - c);
    assert a + b == a + (b - a);
    assert b == (b - a) + (b * a);
  }

  /** The phases hold requests of the queue's own kind. */
  ghost predicate PhasesOk(q: QueueConfig, s: Cluster) {
    forall pid :: pid in s.procs ==> (s.procs[pid].phase.Idle? || IsScope(q, s.procs[pid].phase.pkey))
  }

  lemma GlobalStep(q: QueueConfig, s: Cluster, e: Event)
    requires Keyed(s.db) && Enabled(q, s, e) && PhasesOk(q, s) && GlobalOk(q, s.db)
    ensures GlobalOk(q, Do(q, s, e).db)
  {
    var s' := Do(q, s, e);
    if q.globalConcurrency.Some? {
      forall scope | IsScope(q, scope)
        ensures |PendingIn(s'.db, q.name, scope)| <= Max(q.globalConcurrency.value, 0)
      {
        match e
        case Claim(pid, now, latest) =>
          var p := s.procs[pid];
          ClaimKeepsGlobal(q, s.db, Request(q, p, p.phase.pkey, p.phase.maxTasks), now, latest, scope);
        case Release(pid, now) =>
          ChangeAddsNoPending(q, s.db, s.procs[pid].phase.left[0], ToStatus(Enqueued, None, None, now), scope);
          CardOfUnion(PendingIn(s'.db, q.name, scope), PendingIn(s.db, q.name, scope), {});
        case Call(op) =>
          OutsideAddsNoPending(q, s.db, op, scope);
          CardOfUnion(PendingIn(s'.db, q.name, scope), PendingIn(s.db, q.name, scope), {});
        case _ =>
          assert s'.db == s.db;
      }
    }
  }

  // ---- over all runs -----------------------------------------------------------

  ghost predicate Inv(q: QueueConfig, s: Cluster) {
    Keyed(s.db) && WorkersOk(q, s) && PhasesOk(q, s) && GlobalOk(q, s.db)
  }

  lemma PhasesStep(q: QueueConfig, s: Cluster, e: Event)
    requires Keyed(s.db) && Enabled(q, s, e) && PhasesOk(q, s)
    ensures PhasesOk(q, Do(q, s, e))
  {
  }

  lemma KeyedEvent(q: QueueConfig, s: Cluster, e: Event)
    requires Keyed(s.db) && Enabled(q, s, e)
    ensures Keyed(Do(q, s, e).db)
  {
    if e.Call? { KeyedStep(s.db, e.op); }
  }

  /** A run of the cluster: each event enabled where it happens. */
  ghost predicate Runs(q: QueueConfig, s: Cluster, es: seq<Event>)
    decreases |es|, 0
  {
    es == [] || (Runs(q, s, es[..|es| - 1]) && Enabled(q, Final(q, s, es[..|es| - 1]), es[|es| - 1]))
  }

  ghost function Final(q: QueueConfig, s: Cluster, es: seq<Event>): Cluster
    requires Runs(q, s, es)
    decreases |es|, 1
  {
    if es == [] then s else Do(q, Final(q, s, es[..|es| - 1]), es[|es| - 1])
  }

  lemma {:induction false} InvRun(q: QueueConfig, s: Cluster, es: seq<Event>)
    requires Inv(q, s) && Runs(q, s, es)
    ensures Inv(q, Final(q, s, es))
  {
    if es != [] {
      var init, e := es[..|es| - 1], es[|es| - 1];
      InvRun(q, s, init);
      var m := Final(q, s, init);
      WorkersStep(q, m, e);
      PhasesStep(q, m, e);
      GlobalStep(q, m, e);
      KeyedEvent(q, m, e);
    }
  }

  /** In every interleaving of claims, spawns, releases, finishing tasks, lost
      and new processes and everybody else's calls, starting from a store in
      which the queue has nothing pending and no process runs: per scope at most
      `globalConcurrency` rows are pending, and no process's counter for a
      partition exceeds `workerConcurrency` or differs from the number of tasks
      it has running there. */
  lemma ConcurrencyCaps(q: QueueConfig, db: Db, es: seq<Event>, pid: int, pkey: Option<string>)
    requires Keyed(db) && Runs(q, Cluster(db, map[]), es)
    requires forall scope :: IsScope(q, scope) ==> PendingIn(db, q.name, scope) == {}
    ensures var s := Final(q, Cluster(db, map[]), es);
            && (q.globalConcurrency.Some? && IsScope(q, pkey) ==>
                  |PendingIn(s.db, q.name, pkey)| <= Max(q.globalConcurrency.value, 0))
            && (pid in s.procs ==>
                  var p, slot := s.procs[pid], Slot(pkey);
                  && Running(p, slot) == Guards(p.tasks, slot)
                  && (q.workerConcurrency.Some? ==> Running(p, slot) <= q.workerConcurrency.value))
  {
    InvRun(q, Cluster(db, map[]), es);
    var s := Final(q, Cluster(db, map[]), es);
    if pid in s.procs { assert SlotOk(q, s.procs[pid], Slot(pkey)); }
  }

  // ---- the caps are used ----------------------------------------------------------

  /** The process may start one more run under the slot, after `n`. */
  predicate HasRoom(q: QueueConfig, p: Process, slot: string, n: nat) {
    && n < q.maxTasksPerIteration
    && (q.workerConcurrency.Some? ==> Guards(p.tasks, slot) + n < q.workerConcurrency.value)
  }

  /** A turn begins unless the process has no room at all. */
  lemma TurnBeginsIff(q: QueueConfig, s: Cluster, pid: int, pkey: Option<string>)
    requires Enabled(q, s, Load(pid, pkey)) && WorkerOk(q, s.procs[pid])
    ensures Do(q, s, Load(pid, pkey)).procs[pid].phase.Loaded? <==> HasRoom(q, s.procs[pid], Slot(pkey), 0)
    ensures Do(q, s, Load(pid, pkey)).db == s.db
  {
    assert SlotOk(q, s.procs[pid], Slot(pkey));
  }

  /** And it takes all it may: if a claimable row of the partition is left after the
      claim, then one row more would have been beyond what the process has room for,
      the rate limit, or the concurrency limit of the queue. */
  lemma TurnTakesAll(q: QueueConfig, s: Cluster, pid: int, pkey: Option<string>, now: int, latest: Option<string>, id: Id)
    requires Keyed(s.db) && Enabled(q, s, Load(pid, pkey)) && WorkerOk(q, s.procs[pid])
    requires HasRoom(q, s.procs[pid], Slot(pkey), 0)
    ensures var p, s1 := s.procs[pid], Do(q, s, Load(pid, pkey));
            Enabled(q, s1, Claim(pid, now, latest))
            && var s2 := Do(q, s1, Claim(pid, now, latest));
               var left := if s2.procs[pid].phase.Idle? then [] else s2.procs[pid].phase.left;
               var one := DequeueRequest(q.name, p.executorId, p.appVersion, pkey, |left| + 1, q.globalConcurrency,
                                         q.rateLimitMax, q.rateLimitPeriodMs);
               id in s2.db.workflows && Claimable(s2.db.workflows[id], one, latest) ==>
                 !(HasRoom(q, p, Slot(pkey), |left|) && WithinLimits(s.db, one, now, |left| + 1))
  {
    var p, s1 := s.procs[pid], Do(q, s, Load(pid, pkey));
    assert SlotOk(q, p, Slot(pkey));
    var req := Request(q, p, pkey, s1.procs[pid].phase.maxTasks);
    if id in s.db.workflows { NoRoomForOneMore(s.db, req, now, latest, id); }
  }

  /** The same of the request itself. */
  lemma NoRoomForOneMore(db: Db, req: DequeueRequest, now: int, latest: Option<string>, id: Id)
    requires Keyed(db) && id in db.workflows
    ensures var n := |Claimed(db, req, now, latest)|;
            Claimable(Dequeue(db, req, now, latest).workflows[id], req.(maxTasks := n + 1), latest) ==>
              !(n + 1 <= req.maxTasks && WithinLimits(db, req.(maxTasks := n + 1), now, n + 1))
  {
    DequeueStarts(db, req, now, latest, id);
    if Claimable(Dequeue(db, req, now, latest).workflows[id], req, latest) { PassedOver(db, req, now, latest, id); }
    var n := |Claimed(db, req, now, latest)| + 1;
    if n <= req.maxTasks && WithinLimits(db, req.(maxTasks := n), now, n) { LimitsOfOneMore(db, req, now, n); }
  }

  lemma LimitsOfOneMore(db: Db, req: DequeueRequest, now: int, n: nat)
    requires n <= req.maxTasks && WithinLimits(db, req.(maxTasks := n), now, n)
    ensures WithinLimits(db, req, now, n)
  {
    if req.rateLimitPeriodMs.Some? {
      var period := req.rateLimitPeriodMs.value;
      assert StartsInPeriod(db, req, now, period) == StartsInPeriod(db, req.(maxTasks := n), now, period);
    }
    assert RunningNow(db, req) == RunningNow(db, req.(maxTasks := n));
  }

  /** What is claimed is of the queue and the partition, and pending with the
      process's own id and version. */
  lemma ClaimedForProcess(q: QueueConfig, s: Cluster, pid: int, now: int, latest: Option<string>, i: nat)
    requires Keyed(s.db) && Enabled(q, s, Claim(pid, now, latest))
    requires var phase := Do(q, s, Claim(pid, now, latest)).procs[pid].phase; phase.Spawning? && i < |phase.left|
    ensures var p, s' := s.procs[pid], Do(q, s, Claim(pid, now, latest)); var id := s'.procs[pid].phase.left[i];
            && id in s'.db.workflows && s'.procs[pid].phase.pkey == p.phase.pkey
            && var r := s'.db.workflows[id];
               && r.queueName == Some(q.name) && (p.phase.pkey.Some? ==> r.partitionKey == p.phase.pkey)
               && r.status == Pending && r.executorId == p.executorId && r.appVersion == p.appVersion
               && r.startedAtMs == Some(now)
  {
    var p := s.procs[pid];
    var req := Request(q, p, p.phase.pkey, p.phase.maxTasks);
    ClaimedInOrder(s.db, req, now, latest, i);
    var id := Claimed(s.db, req, now, latest)[i].id;
    assert id in ClaimedIds(s.db, req, now, latest);
    DequeueStarts(s.db, req, now, latest, id);
  }

  /** Of the rows claimed, the next is spawned as a task under its slot, or is put
      back on the queue with everything else as it was. */
  lemma ClaimedIsSpawnedOrReleased(q: QueueConfig, s: Cluster, pid: int, now: int)
    requires Enabled(q, s, Spawn(pid))
    ensures var p := s.procs[pid]; var id, rest := p.phase.left[0], p.phase.left[1..];
            var spawned, released := Do(q, s, Spawn(pid)), Do(q, s, Release(pid, now));
            && spawned.db == s.db && spawned.procs[pid].tasks == p.tasks + [Task(id, if p.phase.pkey.Some? then p.phase.pkey.value else "")]
            && spawned.procs[pid].phase == released.procs[pid].phase == (if rest == [] then Idle else Spawning(p.phase.pkey, rest))
            && released.procs[pid].tasks == p.tasks && released.procs[pid].counters == p.counters
            && (id in s.db.workflows ==>
                  released.db.workflows == s.db.workflows[id := s.db.workflows[id].(status := Enqueued)])
  {
  }

  /** A resume makes pending a row of the scope that was not, and no other. */
  lemma ResumedPending(q: QueueConfig, db: Db, id: Id, scope: Option<string>)
    requires Changes(db, id, ToResumed)
    ensures PendingIn(Update(db, id, ToResumed), q.name, scope)
         == PendingIn(db, q.name, scope) + (if InScope(db.workflows[id], q.name, scope) then {id} else {})
  {
  }

  /** What a resume does to a cap that holds: it still holds if and only if the
      row is not of this scope, was pending anyway, or the scope was not full. */
  lemma ResumeKeepsCapIff(q: QueueConfig, db: Db, id: Id, scope: Option<string>, cap: nat)
    requires Changes(db, id, ToResumed) && |PendingIn(db, q.name, scope)| <= cap
    ensures |PendingIn(Update(db, id, ToResumed), q.name, scope)| <= cap <==>
            !InScope(db.workflows[id], q.name, scope) || db.workflows[id].status == Pending
            || |PendingIn(db, q.name, scope)| < cap
  {
    ResumedPending(q, db, id, scope);
    var pending := PendingIn(db, q.name, scope);
    assert pending + {} == pending;
    if InScope(db.workflows[id], q.name, scope) && db.workflows[id].status == Pending { assert pending + {id} == pending; }
  }
}
