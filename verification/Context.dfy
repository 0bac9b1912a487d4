/** The context a workflow body works through: an object with a step counter,
    over the in-memory provider. */
module Context {
  import opened Types
  import opened Store
  import opened Replay
  import opened Execution
  import opened MemoryProvider
  import opened Rows

  /** How a call ends: it returns to the body, it meets a foreign row, or what it
      waits for never comes. */
  datatype Ret = Gives(r: Res) | Unexpected(found: string) | Suspended

  /** What reaches the store while a call waits. */
  datatype Arrival =
    | Message(dest: Id, topic: string, message: Value, key: Option<string>, randomId: string, at: int)
    | EventSet(id: Id, name: string, value: Value)

  /** One look at mailbox or event: what arrived before it, and the clock then. */
  datatype Look = Look(arrivals: seq<Arrival>, now: int)

  /** What the world gives an operation: the outcomes of a step's closure, one
      per attempt, a drawn value, the looks of a wait. */
  datatype Inputs = Inputs(attempts: seq<Res>, drawn: Value, now: int, looks: seq<Look>)

  // ---- what a call may do -----------------------------------------------------------

  /** Rows are only added, for `w`, under the call's own numbers. */
  ghost predicate AddsOnly(w: Id, k: int, width: nat, log: Log, log': Log) {
    && (forall x :: x in log ==> x in log' && log'[x] == log[x])
    && (forall x :: x in log' && x !in log ==> x.0 == w && k <= x.1 < k + width)
  }

  /** A recorded row is replayed and nothing happens; a foreign one is reported; a
      cancelled workflow starts nothing guarded; otherwise the work is done. */
  ghost predicate Performed(w: Id, op: Operation, k: int, db: Db, db': Db, ret: Ret) {
    && db'.workflows == db.workflows
    && if (w, k) in db.steps && !op.Patch? then
         && db' == db
         && ret == if db.steps[(w, k)].name == OpName(op) then Gives(Replayed(op, db.steps[(w, k)]))
                   else Unexpected(db.steps[(w, k)].name)
       else if Guarded(op) && IsCancelled(db, w) then db' == db && ret == Gives(Err(Cancellation(w)))
       else Worked(w, op, k, db.steps, db'.steps, ret)
  }

  /** Fresh work: what is returned is, to the view, what the row now recorded
      replays to. */
  ghost predicate Worked(w: Id, op: Operation, k: int, log: Log, log': Log, ret: Ret) {
    && AddsOnly(w, k, if Waits(op) then 2 else 1, log, log')
    && match ret
       case Gives(r) =>
         && (w, k) in log' && (op.Patch? || log'[(w, k)].name == OpName(op))
         && View(r) == View(Replayed(op, log'[(w, k)]))
       case Unexpected(found) => Waits(op) && (w, k + 1) in log
       case Suspended => (op.Step? || Waits(op)) && (w, k) !in log'
  }

  // ---- retries --------------------------------------------------------------------------

  datatype RetryPolicy = RetryPolicy(maxRetries: nat, retryIf: Fault -> bool)

  predicate Retryable(policy: RetryPolicy, r: Res) {
    r.Err? && policy.retryIf(r.e)
  }

  /** Attempt `n` is the one that counts: those before it failed with errors to be
      retried, and it does not, or it is the last one the budget allows. */
  ghost predicate Final(policy: RetryPolicy, attempts: seq<Res>, n: nat) {
    && n < |attempts| && n <= policy.maxRetries
    && (forall i :: 0 <= i < n ==> attempts[i].Err? && policy.retryIf(attempts[i].e))
    && (attempts[n].Err? && policy.retryIf(attempts[n].e) ==> n == policy.maxRetries)
  }

  /** All attempts so far failed with errors to be retried, and there is one more. */
  ghost predicate NoneFinal(policy: RetryPolicy, attempts: seq<Res>) {
    |attempts| <= policy.maxRetries && forall i :: 0 <= i < |attempts| ==> attempts[i].Err? && policy.retryIf(attempts[i].e)
  }

  /** Attempt after attempt until one is not to be retried; `n` is that one. */
  method RunWithRetries(policy: RetryPolicy, attempts: seq<Res>) returns (n: nat)
    ensures if n < |attempts| then Final(policy, attempts, n) else n == |attempts| && NoneFinal(policy, attempts)
  {
    n := 0;
    while n < |attempts|
      invariant n <= |attempts| && n <= policy.maxRetries
      invariant forall i :: 0 <= i < n ==> attempts[i].Err? && policy.retryIf(attempts[i].e)
    {
      if !Retryable(policy, attempts[n]) || n == policy.maxRetries { return; }
      n := n + 1;
    }
  }

  /** A step on a free number returns what its final attempt returned, and records
      it. */
  ghost predicate Stepped(w: Id, op: Operation, k: int, policy: RetryPolicy, attempts: seq<Res>, log': Log, ret: Ret) {
    match ret
    case Gives(r) =>
      && (w, k) in log' && Named(log'[(w, k)], op) && HoldsOutcome(log'[(w, k)], r)
      && exists n: nat :: Final(policy, attempts, n) && r == attempts[n]
    case Suspended => NoneFinal(policy, attempts) && (w, k) !in log'
    case Unexpected(_) => false
  }

  /** A clock reading, a random value or a wake-up time on a free number. */
  ghost predicate Drawn(w: Id, op: Operation, k: int, v: Value, log': Log, ret: Ret) {
    && (w, k) in log' && Named(log'[(w, k)], op) && HoldsOutput(log'[(w, k)], v)
    && ret == Gives(Ok(if op.Sleep? then Null else v))
  }

  // ---- what arrives during a wait ---------------------------------------------------------------

  function Arrive(db: Db, a: Arrival): Db {
    match a
    case Message(dest, topic, message, key, randomId, at) => InsertNote(db, dest, topic, message, key, randomId, at)
    case EventSet(id, key, value) => UpsertEvent(db, id, key, value)
  }

  function Arrived(db: Db, arrivals: seq<Arrival>): Db {
    if arrivals == [] then db else Arrive(Arrived(db, arrivals[..|arrivals| - 1]), arrivals[|arrivals| - 1])
  }

  /** The store as the first `n` looks have left it, checkpoints apart. */
  function ArrivedBy(db: Db, looks: seq<Look>, n: nat): Db
    requires n <= |looks|
  {
    if n == 0 then db else Arrived(ArrivedBy(db, looks, n - 1), looks[n - 1].arrivals)
  }

  /** What arrives does not depend on the checkpoints. */
  lemma {:induction false} ArrivedAnyLog(db: Db, log: Log, arrivals: seq<Arrival>)
    ensures Arrived(db.(steps := log), arrivals) == Arrived(db, arrivals).(steps := log)
    ensures Arrived(db, arrivals).steps == db.steps && Arrived(db, arrivals).workflows == db.workflows
  {
    if arrivals != [] { ArrivedAnyLog(db, log, arrivals[..|arrivals| - 1]); }
  }

  /** A look finds `v`: the next message, or the event's value. */
  ghost predicate Finds(db: Db, w: Id, op: Operation, v: Value) {
    match op
    case Recv(topic, _) => NextMessage(db.notes, w, topic, v)
    case GetEvent(target, key, _) => (target, key) in db.events && db.events[(target, key)] == v
    case _ => false
  }

  ghost predicate FindsNothing(db: Db, w: Id, op: Operation) {
    match op
    case Recv(topic, _) => forall i :: 0 <= i < |db.notes| && db.notes[i].dest == w && db.notes[i].topic == topic ==> db.notes[i].consumed
    case GetEvent(target, key, _) => (target, key) !in db.events
    case _ => true
  }

  lemma LookedUp(db: Db, w: Id, topic: string)
    ensures match Oldest(db.notes, w, topic)
            case None => FindsNothing(db, w, Recv(topic, 0))
            case Some(i) => i < |db.notes| && NextMessage(db.notes, w, topic, db.notes[i].message)
  {
    match Oldest(db.notes, w, topic)
    case None =>
      forall i | 0 <= i < |db.notes| && Store.Waiting(db.notes[i], w, topic) ensures false {
        PicksAnOldest(db.notes, w, topic, |db.notes|, i);
      }
    case Some(i) => SearchFindsOldest(db.notes, w, topic, i);
  }

  /** Look `j` finds nothing. */
  ghost predicate EmptyLook(w: Id, op: Operation, db: Db, looks: seq<Look>, j: nat) {
    j < |looks| && FindsNothing(ArrivedBy(db, looks, j + 1), w, op)
  }

  /** Look `j` is before the deadline recorded after number `k`. */
  predicate EarlyLook(w: Id, k: int, log: Log, looks: seq<Look>, j: nat) {
    j < |looks| && (w, k + 1) in log && looks[j].now < Instant(log[(w, k + 1)])
  }

  /** A deadline not recorded before is the time of the first look plus the timeout. */
  predicate NewDeadline(w: Id, op: Operation, k: int, log: Log, log': Log, looks: seq<Look>) {
    (w, k + 1) !in log && (w, k + 1) in log' ==>
      && looks != [] && log'[(w, k + 1)].name == "DBOS.sleep"
      && HoldsOutput(log'[(w, k + 1)], Num(looks[0].now + TimeoutFor(op)))
  }

  /** How a wait of a free number ends: look `at` finds what it returns, and no
      earlier one found anything; or look `at` is past the deadline, and none found
      anything. */
  ghost predicate Waited(w: Id, op: Operation, k: int, db: Db, log': Log, looks: seq<Look>, ret: Ret, at: nat) {
    && (forall j: nat :: j < at ==> EmptyLook(w, op, db, looks, j) && EarlyLook(w, k, log', looks, j))
    && NewDeadline(w, op, k, db.steps, log', looks)
    && match ret
       case Gives(r) =>
         && at < |looks| && r.Msg? && (w, k) in log' && Named(log'[(w, k)], op)
         && if r.m.Some? then Finds(ArrivedBy(db, looks, at + 1), w, op, r.m.value) && HoldsOutput(log'[(w, k)], r.m.value)
            else && EmptyLook(w, op, db, looks, at) && HoldsOutput(log'[(w, k)], Null)
                 && (w, k + 1) in log' && looks[at].now >= Instant(log'[(w, k + 1)])
       case Suspended => at == |looks|
       case Unexpected(_) => true
  }

  /** A known deadline is the one recorded after the wait's own number. */
  predicate DeadlineIs(w: Id, k: int, log: Log, deadline: Option<int>) {
    deadline.Some? ==> (w, k + 1) in log && deadline.value == Instant(log[(w, k + 1)])
  }

  /** What a look that found `v` leaves behind, or one that found nothing. */
  ghost predicate Looked(w: Id, op: Operation, k: int, db: Db, db': Db, found: Option<Value>) {
    if found.None? then db' == db && FindsNothing(db, w, op)
    else
      && Finds(db, w, op, found.value) && db'.workflows == db.workflows && AddsOnly(w, k, 1, db.steps, db'.steps)
      && (w, k) in db'.steps && Named(db'.steps[(w, k)], op) && HoldsOutput(db'.steps[(w, k)], found.value)
  }

  /** What a check of the deadline, at `now`, comes to: a foreign row where the
      deadline should be, a timeout, or (`None`) some more waiting. */
  ghost predicate Checked(w: Id, op: Operation, k: int, now: int, db: Db, db': Db, ret: Option<Ret>, deadline: int) {
    && db' == db.(steps := db'.steps) && AddsOnly(w, k, 2, db.steps, db'.steps)
    && ((w, k + 1) !in db.steps ==>
          (w, k + 1) in db'.steps && db'.steps[(w, k + 1)].name == "DBOS.sleep"
          && HoldsOutput(db'.steps[(w, k + 1)], Num(now + TimeoutFor(op))))
    && if ret.None? then (w, k) !in db'.steps && now < deadline && DeadlineIs(w, k, db'.steps, Some(deadline))
       else if ret.value.Unexpected? then (w, k + 1) in db.steps && db' == db
       else
         && ret.value == Gives(Msg(None)) && DeadlineIs(w, k, db'.steps, Some(deadline)) && now >= deadline
         && (w, k) in db'.steps && HoldsOutput(db'.steps[(w, k)], Null) && Named(db'.steps[(w, k)], op)
  }

  /** The store before look `i`: nothing but what arrived and maybe the deadline is
      new since `db`. */
  ghost predicate Between(w: Id, op: Operation, k: int, db: Db, now: Db, looks: seq<Look>, i: nat, deadline: Option<int>) {
    && i <= |looks| && (w, k) !in now.steps && AddsOnly(w, k, 2, db.steps, now.steps)
    && now == ArrivedBy(db, looks, i).(steps := now.steps) && now.workflows == db.workflows
    && DeadlineIs(w, k, now.steps, deadline) && (deadline.None? ==> i == 0 && now.steps == db.steps)
    && NewDeadline(w, op, k, db.steps, now.steps, looks)
    && forall j: nat :: j < i ==> EmptyLook(w, op, db, looks, j) && EarlyLook(w, k, now.steps, looks, j)
  }

  /** What a look sees depends on what arrived, not on the checkpoints. */
  lemma SameLook(w: Id, op: Operation, db: Db, log: Log)
    ensures FindsNothing(db.(steps := log), w, op) <==> FindsNothing(db, w, op)
    ensures forall v :: Finds(db.(steps := log), w, op, v) <==> Finds(db, w, op, v)
  {
  }

  lemma FoundAtLook(w: Id, op: Operation, k: int, db: Db, now: Db, db': Db, looks: seq<Look>, i: nat, fixed: Option<int>, v: Value)
    requires Waits(op) && i < |looks| && Between(w, op, k, db, now, looks, i, fixed)
    requires Looked(w, op, k, Arrived(now, looks[i].arrivals), db', Some(v))
    ensures Worked(w, op, k, db.steps, db'.steps, Gives(Msg(Some(v)))) && db'.workflows == db.workflows
    ensures Waited(w, op, k, db, db'.steps, looks, Gives(Msg(Some(v))), i)
  {
    ArrivedAnyLog(ArrivedBy(db, looks, i), now.steps, looks[i].arrivals);
    ArrivedAnyLog(now, now.steps, looks[i].arrivals);
    SameLook(w, op, ArrivedBy(db, looks, i + 1), now.steps);
    DeadlinesAfter(w, op, k, db, now, db', looks, i, fixed);
  }

  lemma NothingAtLook(w: Id, op: Operation, k: int, db: Db, now: Db, looks: seq<Look>, i: nat, fixed: Option<int>)
    requires i < |looks| && Between(w, op, k, db, now, looks, i, fixed)
    requires FindsNothing(Arrived(now, looks[i].arrivals), w, op)
    ensures EmptyLook(w, op, db, looks, i)
    ensures Arrived(now, looks[i].arrivals) == ArrivedBy(db, looks, i + 1).(steps := now.steps)
    ensures Arrived(now, looks[i].arrivals).workflows == db.workflows
  {
    ArrivedAnyLog(ArrivedBy(db, looks, i), now.steps, looks[i].arrivals);
    ArrivedAnyLog(now, now.steps, looks[i].arrivals);
    SameLook(w, op, ArrivedBy(db, looks, i + 1), now.steps);
  }

  /** The deadlines after a check: an old one is still there. */
  lemma DeadlinesAfter(w: Id, op: Operation, k: int, db: Db, now: Db, db': Db, looks: seq<Look>, i: nat, fixed: Option<int>)
    requires i < |looks| && Between(w, op, k, db, now, looks, i, fixed) && AddsOnly(w, k, 2, now.steps, db'.steps)
    requires (w, k + 1) !in now.steps && (w, k + 1) in db'.steps ==>
               db'.steps[(w, k + 1)].name == "DBOS.sleep"
               && HoldsOutput(db'.steps[(w, k + 1)], Num(looks[i].now + TimeoutFor(op)))
    ensures NewDeadline(w, op, k, db.steps, db'.steps, looks)
    ensures forall j: nat :: j < i ==> EarlyLook(w, k, db'.steps, looks, j)
    ensures AddsOnly(w, k, 2, db.steps, db'.steps)
  {
    forall j: nat | j < i ensures EarlyLook(w, k, db'.steps, looks, j) { assert EarlyLook(w, k, now.steps, looks, j); }
  }

  lemma CheckedAtLook(w: Id, op: Operation, k: int, db: Db, now: Db, db': Db, looks: seq<Look>, i: nat, fixed: Option<int>,
                      ret: Option<Ret>, deadline: int)
    requires Waits(op) && i < |looks| && Between(w, op, k, db, now, looks, i, fixed)
    requires FindsNothing(Arrived(now, looks[i].arrivals), w, op)
    requires Checked(w, op, k, looks[i].now, Arrived(now, looks[i].arrivals), db', ret, deadline)
    requires ret.Some? && ret.value.Unexpected? ==> fixed.None?
    ensures ret.None? ==> Between(w, op, k, db, db', looks, i + 1, Some(deadline))
    ensures ret.Some? ==> Worked(w, op, k, db.steps, db'.steps, ret.value) && db'.workflows == db.workflows
                          && Waited(w, op, k, db, db'.steps, looks, ret.value, i)
  {
    NothingAtLook(w, op, k, db, now, looks, i, fixed);
    DeadlinesAfter(w, op, k, db, now, db', looks, i, fixed);
  }

  /** The new rows have numbers from `k` up to, not including, `next`. */
  ghost predicate NewBelow(w: Id, k: int, next: int, log: Log, log': Log) {
    forall x :: (w, x) in log' && (w, x) !in log ==> k <= x < next
  }

  lemma StillBelow(w: Id, log: Log, now: Log, log': Log, k: int, next: int)
    requires 0 <= k <= next && NewBelow(w, 0, k, log, now) && NewBelow(w, k, next, now, log')
    ensures NewBelow(w, 0, next, log, log')
  {
  }

  // ---- any operation on a free number -----------------------------------------------------------

  ghost predicate Fresh(w: Id, op: Operation, k: int, policy: RetryPolicy, inputs: Inputs, db: Db, log': Log, ret: Ret) {
    match op
    case Step(_) => Stepped(w, op, k, policy, inputs.attempts, log', ret)
    case Draw(_) => Drawn(w, op, k, inputs.drawn, log', ret)
    case Sleep(ms) => Drawn(w, op, k, Num(inputs.now + ms), log', ret)
    case Patch(name) => ret == Gives(Flag(true)) && (w, k) in log' && log'[(w, k)] == StepRow("DBOS.patch-" + name, None, None, None)
    case _ => exists at: nat :: Waited(w, op, k, db, log', inputs.looks, ret, at)
  }

  /** What the body observes of it, by the inputs alone (a wait apart, which
      depends on what the store held). */
  ghost predicate ObservedFrom(op: Operation, policy: RetryPolicy, inputs: Inputs, o: Obs) {
    match op
    case Step(_) =>
      exists n: nat :: Final(policy, inputs.attempts, n)
                       && o == if inputs.attempts[n].Ok? then Returned(inputs.attempts[n].v) else Failed
    case Draw(_) => o == Returned(inputs.drawn)
    case Sleep(_) => o == Returned(Null)
    case Patch(_) => o == Branch(true)
    case _ => o == Nothing || o.Got?
  }

  /** Observation `n`, at a number that was free at first, follows from input `n`. */
  ghost predicate Follows(w: Id, body: Body, policy: RetryPolicy, inputs: seq<Inputs>, log: Log, obs: seq<Obs>, n: nat)
  {
    && n < |obs| && n < |inputs| && body(obs[..n]).Do?
    && ((w, SlotAfter(body, obs[..n])) !in log ==> ObservedFrom(body(obs[..n]).op, policy, inputs[n], obs[n]))
  }

  ghost predicate AllFollow(w: Id, body: Body, policy: RetryPolicy, inputs: seq<Inputs>, log: Log, obs: seq<Obs>) {
    forall n :: 0 <= n < |obs| ==> Follows(w, body, policy, inputs, log, obs, n)
  }

  lemma OneMoreFollows(w: Id, body: Body, policy: RetryPolicy, inputs: seq<Inputs>, log: Log, now: Log, obs: seq<Obs>, obs': seq<Obs>)
    requires AllFollow(w, body, policy, inputs, log, obs) && |obs| < |inputs| && |obs'| == |obs| + 1 && obs <= obs'
    requires body(obs).Do? && NewBelow(w, 0, SlotAfter(body, obs), log, now)
    requires (w, SlotAfter(body, obs)) !in now ==> ObservedFrom(body(obs).op, policy, inputs[|obs|], obs'[|obs|])
    ensures AllFollow(w, body, policy, inputs, log, obs')
  {
    forall n: nat | n < |obs'| ensures Follows(w, body, policy, inputs, log, obs', n) {
      assert obs'[..n] == obs[..n];
      if n < |obs| { assert Follows(w, body, policy, inputs, log, obs, n); } else { assert obs[..n] == obs; }
    }
  }

  lemma FreshObserved(w: Id, op: Operation, k: int, policy: RetryPolicy, inputs: Inputs, db: Db, log': Log, r: Res)
    requires Fresh(w, op, k, policy, inputs, db, log', Gives(r))
    requires forall i :: 0 <= i < |inputs.attempts| ==> inputs.attempts[i].Ok? || inputs.attempts[i].Err?
    ensures ObservedFrom(op, policy, inputs, View(r))
  {
  }

  // ---- following a recorded path -------------------------------------------------------------

  /** Observations on a grown log continue, or are continued by, a path of the
      old one; before its end, the next row is an old row. */
  lemma OnRecordedPath(w: Id, body: Body, log: Log, log': Log, h: seq<Obs>, obs: seq<Obs>)
    requires Path(w, body, log, h) && Grows(w, log, log') && Path(w, body, log', obs)
    ensures |obs| <= |h| ==> obs <= h
    ensures |obs| >= |h| ==> h <= obs
    ensures |obs| < |h| ==> body(obs).Do? && (w, SlotAfter(body, obs)) in log
  {
    PathGrows(w, body, log, log', h);
    if |obs| <= |h| {
      PathsAgree(w, body, log', obs, h);
      if |obs| < |h| { PathStep(w, body, log, h, |obs|); }
    } else {
      PathsAgree(w, body, log', h, obs);
    }
  }

  /** So a workflow that finished once finishes the same way whenever it is
      executed again. */
  lemma SameResult(w: Id, body: Body, log: Log, log': Log, obs: seq<Obs>, obs': seq<Obs>)
    requires Path(w, body, log, obs) && Grows(w, log, log') && Path(w, body, log', obs')
    requires body(obs).Return? && body(obs').Return?
    ensures obs == obs'
  {
    OnRecordedPath(w, body, log, log', obs, obs');
    PathGrows(w, body, log, log', obs);
    OnRecordedPath(w, body, log', log', obs', obs);
  }

  // ---- the context ------------------------------------------------------------------------

  class DurableContext {
    const provider: InMemoryProvider
    const workflowId: Id
    var next: int

    constructor (provider: InMemoryProvider, workflowId: Id)
      ensures this.provider == provider && this.workflowId == workflowId && next == 0
    {
      this.provider, this.workflowId, next := provider, workflowId, 0;
    }

    /** Serve a recorded row, or refuse fresh work on a cancelled workflow. */
    method ReplayOrGuard(k: int, op: Operation) returns (r: Option<Ret>)
      requires !op.Patch?
      ensures r.Some? ==> Performed(workflowId, op, k, provider.State(), provider.State(), r.value)
      ensures r.None? <==> (workflowId, k) !in provider.steps
                           && !(Guarded(op) && IsCancelled(provider.State(), workflowId))
    {
      var row := provider.GetStepResult(workflowId, k);
      if row.Some? {
        if row.value.name != OpName(op) { return Some(Unexpected(row.value.name)); }
        return Some(Gives(Replayed(op, row.value)));
      }
      if Guarded(op) && workflowId in provider.workflows && provider.workflows[workflowId].status == Cancelled {
        return Some(Gives(Err(Cancellation(workflowId))));
      }
      r := None;
    }

    /** Run a closure once it is known not to be recorded, and checkpoint what
        came out: the stored outcome on success, the own error on failure. */
    method Step(op: Operation, policy: RetryPolicy, attempts: seq<Res>) returns (ret: Ret)
      requires op.Step? && forall i :: 0 <= i < |attempts| ==> attempts[i].Ok? || attempts[i].Err?
      modifies this, provider
      ensures next == old(next) + 1
      ensures Performed(workflowId, op, old(next), old(provider.State()), provider.State(), ret)
      ensures (workflowId, old(next)) !in old(provider.steps) && !IsCancelled(old(provider.State()), workflowId) ==>
                Stepped(workflowId, op, old(next), policy, attempts, provider.steps, ret)
    {
      var k := next;
      next := next + 1;
      var early := ReplayOrGuard(k, op);
      if early.Some? { return early.value; }
      var n := RunWithRetries(policy, attempts);
      if n == |attempts| { return Suspended; }
      var out := attempts[n];
      var row := provider.RecordStepRow(workflowId, k, RowOf(op, out));
      var canonical := Replayed(op, row);
      ret := Gives(if out.Err? && canonical.Err? then out else canonical);
    }

    /** Record a clock reading, a random value or a wake-up time, or replay it. */
    method DurableValue(op: Operation, v: Value) returns (ret: Ret)
      requires op.Draw? || op.Sleep?
      modifies this, provider
      ensures next == old(next) + 1
      ensures Performed(workflowId, op, old(next), old(provider.State()), provider.State(), ret)
      ensures (workflowId, old(next)) !in old(provider.steps) ==> Drawn(workflowId, op, old(next), v, provider.steps, ret)
    {
      var k := next;
      next := next + 1;
      var early := ReplayOrGuard(k, op);
      if early.Some? { return early.value; }
      var row := provider.RecordStepRow(workflowId, k, StepRowFor(OpName(op), v, None));
      ret := Gives(Replayed(op, row));
    }

    /** The marker takes a number only on the new path. */
    method CallPatch(op: Operation) returns (patched: bool)
      requires op.Patch?
      modifies this, provider
      ensures next == old(next) + Width(op, Branch(patched))
      ensures Performed(workflowId, op, old(next), old(provider.State()), provider.State(), Gives(Flag(patched)))
      ensures (workflowId, old(next)) in old(provider.steps) ==> provider.State() == old(provider.State())
      ensures patched == ((workflowId, old(next)) in old(provider.steps) ==>
                            old(provider.steps)[(workflowId, old(next))].name == "DBOS.patch-" + op.name)
      ensures next == old(next) + if patched then 1 else 0
      ensures (workflowId, old(next)) !in old(provider.steps) ==>
                (workflowId, old(next)) in provider.steps
                && provider.steps[(workflowId, old(next))] == StepRow("DBOS.patch-" + op.name, None, None, None)
    {
      var row := provider.GetStepResult(workflowId, next);
      if row.None? {
        var _ := provider.RecordStepRow(workflowId, next, PatchRow(OpName(op)));
        patched := true;
      } else {
        patched := row.value.name == OpName(op);
      }
      if patched { next := next + 1; }
    }

    /** What the others sent meanwhile. */
    method Deliver(arrivals: seq<Arrival>)
      modifies provider
      ensures provider.State() == Arrived(old(provider.State()), arrivals)
    {
      for i := 0 to |arrivals|
        invariant provider.State() == Arrived(old(provider.State()), arrivals[..i])
      {
        assert arrivals[..i + 1][..i] == arrivals[..i];
        match arrivals[i]
        case Message(dest, topic, message, key, randomId, at) =>
          var _ := provider.InsertNotification(dest, topic, message, key, randomId, at);
        case EventSet(id, key, value) => provider.SetEvent(id, key, value);
      }
      assert arrivals[..|arrivals|] == arrivals;
    }

    /** The deadline of a wait: fixed when first needed, read back thereafter. */
    method DurableWakeAt(k: int, timeoutMs: int, now: int) returns (found: Option<string>, until: int)
      modifies provider
      ensures AddsOnly(workflowId, k, 1, old(provider.steps), provider.steps)
      ensures found.Some? ==> (workflowId, k) in old(provider.steps) && provider.State() == old(provider.State())
      ensures found.None? ==> (workflowId, k) in provider.steps && until == Instant(provider.steps[(workflowId, k)])
      ensures (workflowId, k) !in old(provider.steps) ==>
                (workflowId, k) in provider.steps && provider.steps[(workflowId, k)].name == "DBOS.sleep"
                && HoldsOutput(provider.steps[(workflowId, k)], Num(now + timeoutMs)) && until == now + timeoutMs
      ensures provider.State() == old(provider.State()).(steps := provider.steps)
    {
      var row := provider.GetStepResult(workflowId, k);
      if row.Some? {
        if row.value.name != "DBOS.sleep" || row.value.error.Some? { return Some(row.value.name), 0; }
        return None, Instant(row.value);
      }
      var stored := provider.RecordStepRow(workflowId, k, StepRowFor("DBOS.sleep", Num(now + timeoutMs), None));
      found, until := None, Instant(stored);
    }

    /** Nothing came: fix the deadline, the first time, and see whether it passed. */
    method CheckDeadline(op: Operation, k: int, now: int, fixed: Option<int>) returns (ret: Option<Ret>, deadline: int)
      requires Waits(op) && (workflowId, k) !in provider.steps && DeadlineIs(workflowId, k, provider.steps, fixed)
      modifies provider
      ensures Checked(workflowId, op, k, now, old(provider.State()), provider.State(), ret, deadline)
      ensures ret.Some? && ret.value.Unexpected? ==> fixed.None?
    {
      if fixed.Some? {
        deadline := fixed.value;
      } else {
        var found: Option<string>;
        found, deadline := DurableWakeAt(k + 1, TimeoutOf(op), now);
        if found.Some? { return Some(Unexpected(found.value)), 0; }
      }
      if now < deadline { return None, deadline; }
      var _ := provider.RecordStepRow(workflowId, k, StepRowFor(OpName(op), Null, None));
      ret := Some(Gives(Msg(None)));
    }

    /** Look into the mailbox. */
    method PollMailbox(op: Operation, k: int) returns (found: Option<Value>)
      requires op.Recv? && (workflowId, k) !in provider.steps
      modifies provider
      ensures Looked(workflowId, op, k, old(provider.State()), provider.State(), found)
      ensures provider.State() == Consume(old(provider.State()), workflowId, op.topic, k, "DBOS.recv")
    {
      LookedUp(provider.State(), workflowId, op.topic);
      found := provider.ConsumeNotification(workflowId, op.topic, k, "DBOS.recv");
    }

    /** Look at the event. */
    method PollEvent(op: Operation, k: int) returns (found: Option<Value>)
      requires op.GetEvent? && (workflowId, k) !in provider.steps
      modifies provider
      ensures Looked(workflowId, op, k, old(provider.State()), provider.State(), found)
    {
      if (op.target, op.key) !in provider.events { return None; }
      var v := provider.events[(op.target, op.key)];
      var _ := provider.RecordStepRow(workflowId, k, StepRowFor("DBOS.getEvent", v, None));
      found := Some(v);
    }

    /** One look, after what arrived meanwhile. */
    method PollOnce(op: Operation, k: int, arrivals: seq<Arrival>) returns (found: Option<Value>)
      requires Waits(op) && (workflowId, k) !in provider.steps
      modifies provider
      ensures Looked(workflowId, op, k, Arrived(old(provider.State()), arrivals), provider.State(), found)
    {
      Deliver(arrivals);
      ArrivedAnyLog(old(provider.State()), old(provider.steps), arrivals);
      if op.Recv? { found := PollMailbox(op, k); } else { found := PollEvent(op, k); }
    }

    /** `recv` and `get_event`: take what is there, or poll until something comes
        or the deadline passes. */
    method Wait(op: Operation, looks: seq<Look>) returns (ret: Ret, ghost at: nat)
      requires Waits(op)
      modifies this, provider
      ensures next == old(next) + 2
      ensures Performed(workflowId, op, old(next), old(provider.State()), provider.State(), ret)
      ensures (workflowId, old(next)) !in old(provider.steps) && !IsCancelled(old(provider.State()), workflowId) ==>
                Waited(workflowId, op, old(next), old(provider.State()), provider.steps, looks, ret, at)
    {
      var k := next;
      next, at := next + 2, 0;
      var early := ReplayOrGuard(k, op);
      if early.Some? { return early.value, 0; }
      ret, at := PollLoop(op, k, looks);
    }

    method PollLoop(op: Operation, k: int, looks: seq<Look>) returns (ret: Ret, ghost at: nat)
      requires Waits(op) && (workflowId, k) !in provider.steps
      modifies provider
      ensures Worked(workflowId, op, k, old(provider.steps), provider.steps, ret)
      ensures Waited(workflowId, op, k, old(provider.State()), provider.steps, looks, ret, at)
      ensures provider.workflows == old(provider.workflows)
    {
      var deadline: Option<int> := None;
      ghost var db := provider.State();
      for i := 0 to |looks|
        invariant Between(workflowId, op, k, db, provider.State(), looks, i, deadline)
      {
        ret, deadline := OneLook(op, k, looks, i, deadline, db);
        if !ret.Suspended? { return ret, i; }
      }
      ret, at := Suspended, |looks|;
    }

    /** One turn of the loop: `Suspended` if it goes on. */
    method OneLook(op: Operation, k: int, looks: seq<Look>, i: nat, fixed: Option<int>, ghost db: Db)
      returns (ret: Ret, deadline: Option<int>)
      requires Waits(op) && i < |looks| && Between(workflowId, op, k, db, provider.State(), looks, i, fixed)
      modifies provider
      ensures ret.Suspended? ==>
                deadline.Some? && Between(workflowId, op, k, db, provider.State(), looks, i + 1, deadline)
      ensures !ret.Suspended? ==>
                Worked(workflowId, op, k, db.steps, provider.steps, ret)
                && Waited(workflowId, op, k, db, provider.steps, looks, ret, i)
                && provider.workflows == db.workflows
    {
      deadline := fixed;
      ghost var now := provider.State();
      ArrivedAnyLog(now, now.steps, looks[i].arrivals);
      var found := PollOnce(op, k, looks[i].arrivals);
      if found.Some? {
        FoundAtLook(workflowId, op, k, db, now, provider.State(), looks, i, fixed, found.value);
        return Gives(Msg(found)), deadline;
      }
      var ended, until := CheckDeadline(op, k, looks[i].now, fixed);
      CheckedAtLook(workflowId, op, k, db, now, provider.State(), looks, i, fixed, ended, until);
      if ended.Some? { return ended.value, deadline; }
      ret, deadline := Suspended, Some(until);
    }

    /** Any operation. */
    method Perform(op: Operation, policy: RetryPolicy, inputs: Inputs) returns (ret: Ret)
      requires forall i :: 0 <= i < |inputs.attempts| ==> inputs.attempts[i].Ok? || inputs.attempts[i].Err?
      modifies this, provider
      ensures next >= old(next) && (ret.Gives? ==> next == old(next) + Width(op, View(ret.r)))
      ensures Performed(workflowId, op, old(next), old(provider.State()), provider.State(), ret)
      ensures (workflowId, old(next)) in old(provider.steps) ==> provider.State() == old(provider.State())
      ensures (workflowId, old(next)) !in old(provider.steps) && !IsCancelled(old(provider.State()), workflowId) ==>
                Fresh(workflowId, op, old(next), policy, inputs, old(provider.State()), provider.steps, ret)
    {
      match op
      case Step(_) => ret := Step(op, policy, inputs.attempts);
      case Draw(_) => ret := DurableValue(op, inputs.drawn);
      case Sleep(ms) => ret := DurableValue(op, Num(inputs.now + ms));
      case Recv(_, _) => ghost var at; ret, at := Wait(op, inputs.looks);
      case GetEvent(_, _, _) => ghost var at; ret, at := Wait(op, inputs.looks);
      case Patch(_) =>
        var patched := CallPatch(op);
        ret := Gives(Flag(patched));
    }

    /** The body's next operation: its result extends the path. */
    method NextOperation(body: Body, obs: seq<Obs>, policy: RetryPolicy, inputs: Inputs) returns (obs': seq<Obs>)
      requires Path(workflowId, body, provider.steps, obs) && next == SlotAfter(body, obs) && body(obs).Do?
      requires !IsCancelled(provider.State(), workflowId)
      requires forall i :: 0 <= i < |inputs.attempts| ==> inputs.attempts[i].Ok? || inputs.attempts[i].Err?
      modifies this, provider
      ensures Path(workflowId, body, provider.steps, obs') && obs <= obs' && |obs'| <= |obs| + 1
      ensures next >= SlotAfter(body, obs') && (|obs| < |obs'| ==> next == SlotAfter(body, obs'))
      ensures Grows(workflowId, old(provider.steps), provider.steps) && provider.workflows == old(provider.workflows)
      ensures (workflowId, old(next)) in old(provider.steps) ==> provider.State() == old(provider.State())
      ensures old(next) <= next
      ensures |obs| < |obs'| ==> NewBelow(workflowId, old(next), next, old(provider.steps), provider.steps)
      ensures |obs| < |obs'| && (workflowId, old(next)) !in old(provider.steps) ==>
                ObservedFrom(body(obs).op, policy, inputs, obs'[|obs|])
    {
      var ret := Perform(body(obs).op, policy, inputs);
      PathGrows(workflowId, body, old(provider.steps), provider.steps, obs);
      if !ret.Gives? { return obs; }
      if (workflowId, old(next)) !in old(provider.steps) {
        FreshObserved(workflowId, body(obs).op, old(next), policy, inputs, old(provider.State()), provider.steps, ret.r);
      }
      PathExtends(workflowId, body, provider.steps, obs, View(ret.r));
      obs' := obs + [View(ret.r)];
    }

    /** The same, with what the new observation follows from. */
    method NextMove(body: Body, obs: seq<Obs>, policy: RetryPolicy, inputs: seq<Inputs>, ghost log: Log) returns (obs': seq<Obs>)
      requires Path(workflowId, body, provider.steps, obs) && next == SlotAfter(body, obs) && body(obs).Do?
      requires !IsCancelled(provider.State(), workflowId) && |obs| < |inputs|
      requires forall i, j :: 0 <= i < |inputs| && 0 <= j < |inputs[i].attempts| ==>
                 inputs[i].attempts[j].Ok? || inputs[i].attempts[j].Err?
      requires AllFollow(workflowId, body, policy, inputs, log, obs) && Grows(workflowId, log, provider.steps)
      requires NewBelow(workflowId, 0, next, log, provider.steps)
      modifies this, provider
      ensures obs' == obs || (|obs'| == |obs| + 1 && obs <= obs' && next == SlotAfter(body, obs'))
      ensures Path(workflowId, body, provider.steps, obs')
      ensures Grows(workflowId, log, provider.steps) && provider.workflows == old(provider.workflows)
      ensures AllFollow(workflowId, body, policy, inputs, log, obs')
      ensures |obs| < |obs'| ==> NewBelow(workflowId, 0, next, log, provider.steps)
      ensures (workflowId, old(next)) in old(provider.steps) ==> provider.State() == old(provider.State())
    {
      obs' := NextOperation(body, obs, policy, inputs[|obs|]);
      if |obs| < |obs'| {
        OneMoreFollows(workflowId, body, policy, inputs, log, old(provider.steps), obs, obs');
        StillBelow(workflowId, log, old(provider.steps), provider.steps, old(next), next);
      } else {
        assert obs' == obs;
      }
    }

    /** Execute a body from the start, as far as the inputs go. `h` is any path the
        log already holds: the operations on it are replayed, with the same
        observations, and leave the store as it is. */
    method Execute(body: Body, policy: RetryPolicy, inputs: seq<Inputs>, ghost h: seq<Obs>)
      returns (result: Option<Value>, obs: seq<Obs>)
      requires next == 0 && !IsCancelled(provider.State(), workflowId) && Path(workflowId, body, provider.steps, h)
      requires forall i, j :: 0 <= i < |inputs| && 0 <= j < |inputs[i].attempts| ==>
                 inputs[i].attempts[j].Ok? || inputs[i].attempts[j].Err?
      modifies this, provider
      ensures Path(workflowId, body, provider.steps, obs)
      ensures result.Some? ==> body(obs) == Return(result.value)
      ensures Grows(workflowId, old(provider.steps), provider.steps)
      ensures |obs| < |h| ==> obs <= h && provider.State() == old(provider.State())
      ensures |obs| >= |h| ==> h <= obs
      ensures body(h).Return? ==> provider.State() == old(provider.State())
      ensures AllFollow(workflowId, body, policy, inputs, old(provider.steps), obs)
    {
      obs, result := [], None;
      for i := 0 to |inputs|
        invariant Path(workflowId, body, provider.steps, obs) && next == SlotAfter(body, obs)
        invariant provider.workflows == old(provider.workflows)
        invariant Grows(workflowId, old(provider.steps), provider.steps)
        invariant |obs| <= |h| ==> provider.State() == old(provider.State())
        invariant body(h).Return? ==> |obs| <= |h|
        invariant |obs| == i && NewBelow(workflowId, 0, next, old(provider.steps), provider.steps)
        invariant AllFollow(workflowId, body, policy, inputs, old(provider.steps), obs)
      {
        OnRecordedPath(workflowId, body, old(provider.steps), provider.steps, h, obs);
        if body(obs).Return? {
          return Some(body(obs).result), obs;
        }
        assert |obs| == |h| ==> obs == h;
        assert |obs| < |h| ==> (workflowId, next) in provider.steps;
        var obs' := NextMove(body, obs, policy, inputs, old(provider.steps));
        assert |obs| < |h| ==> provider.State() == old(provider.State());
        if obs' == obs { break; }
        obs := obs';
      }
      OnRecordedPath(workflowId, body, old(provider.steps), provider.steps, h, obs);
    }
  }
}
