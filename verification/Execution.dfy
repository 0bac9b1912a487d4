/** Executions of one workflow: any interleaving of their provider calls, of
    crashes and restarts, and of what everybody else does to the store. */
module Execution {
  import opened Types
  import opened Store
  import opened Replay

  /** Where an execution stands in its current operation. */
  datatype Pc =
    | Idle                             // between operations
    | Missed                           // no row: about to check for cancellation
    | Ready                            // free to do the work
    | Running                          // a step's closure has been started
    | Produced(r: Res)                 // work done, about to record its outcome
    | Polling(deadline: Option<int>)   // about to look for a message or event
    | Found(v: Value)                  // read an event, about to record it
    | NeedDeadline                     // found nothing: about to look up the deadline
    | FixDeadline                      // no deadline yet: about to record it
    | Waiting(until: int)              // deadline known, about to look at the clock
    | Ended(result: Value)
    | Diverged                         // a row of another operation under this number

  /** `next` is the context's step counter. */
  datatype Exec = Exec(hist: seq<Res>, next: int, pc: Pc)

  /** The store, the clock and the live executions; `started` and `lost` count,
      per step number, how often a step's closure was started and how often a
      crash came between that and its checkpoint. */
  datatype Sys = Sys(db: Db, clock: int, execs: map<int, Exec>, started: map<int, nat>, lost: map<int, nat>)

  /** `solo`: one execution at a time. */
  datatype Config = Config(w: Id, body: Body, solo: bool)

  datatype Event =
    | Start(e: int)
    | Crash(e: int)
    | Look(e: int)                 // read the log for the next operation
    | CheckStatus(e: int)
    | RunClosure(e: int)
    | ClosureEnds(e: int, r: Res)
    | Produce(e: int, v: Value)    // read the clock or draw a random value
    | Record(e: int)
    | Mark(e: int)                 // record a patch marker
    | Poll(e: int)
    | RecordFound(e: int)
    | ReadDeadline(e: int)
    | RecordDeadline(e: int)
    | Expire(e: int)
    | PollAgain(e: int)
    | Finish(e: int)
    | Others(db: Db, clock: int)   // other workflows, clients, operators, time

  function Views(h: seq<Res>): (v: seq<Obs>)
    ensures |v| == |h|
  {
    if h == [] then [] else Views(h[..|h| - 1]) + [View(h[|h| - 1])]
  }

  function NextAction(c: Config, x: Exec): Action {
    c.body(Views(x.hist))
  }

  predicate At(c: Config, s: Sys, e: int) {
    e in s.execs && NextAction(c, s.execs[e]).Do?
  }

  function OpOf(c: Config, s: Sys, e: int): Operation
    requires At(c, s, e)
  {
    NextAction(c, s.execs[e]).op
  }

  /** What the others leave alone: this workflow's log (only its own executions
      write it). */
  ghost predicate LogKept(w: Id, db: Db, db': Db) {
    forall k :: ((w, k) in db.steps <==> (w, k) in db'.steps)
                && ((w, k) in db.steps ==> db'.steps[(w, k)] == db.steps[(w, k)])
  }

  ghost predicate Enabled(c: Config, s: Sys, ev: Event) {
    match ev
    case Start(e) => e !in s.execs && (c.solo ==> s.execs == map[])
    case Crash(e) => e in s.execs
    case Look(e) => At(c, s, e) && s.execs[e].pc == Idle
    case CheckStatus(e) => At(c, s, e) && s.execs[e].pc == Missed
    case RunClosure(e) => At(c, s, e) && s.execs[e].pc == Ready && OpOf(c, s, e).Step?
    case ClosureEnds(e, r) => At(c, s, e) && s.execs[e].pc == Running && (r.Ok? || r.Err?)
    case Produce(e, v) => At(c, s, e) && s.execs[e].pc == Ready && (OpOf(c, s, e).Draw? || OpOf(c, s, e).Sleep?)
                          && (OpOf(c, s, e).Sleep? ==> v == Num(s.clock + OpOf(c, s, e).ms))
    case Record(e) => At(c, s, e) && s.execs[e].pc.Produced?
    case Mark(e) => At(c, s, e) && s.execs[e].pc == Ready && OpOf(c, s, e).Patch?
    case Poll(e) => At(c, s, e) && s.execs[e].pc.Polling?
    case RecordFound(e) => At(c, s, e) && s.execs[e].pc.Found?
    case ReadDeadline(e) => At(c, s, e) && s.execs[e].pc == NeedDeadline
    case RecordDeadline(e) => At(c, s, e) && s.execs[e].pc == FixDeadline
    case Expire(e) => At(c, s, e) && s.execs[e].pc.Waiting? && s.clock >= s.execs[e].pc.until
    case PollAgain(e) => At(c, s, e) && s.execs[e].pc.Waiting? && s.clock < s.execs[e].pc.until
    case Finish(e) => e in s.execs && s.execs[e].pc == Idle && NextAction(c, s.execs[e]).Return?
    case Others(db, clock) => LogKept(c.w, s.db, db)
  }

  function Count(m: map<int, nat>, k: int): nat {
    if k in m then m[k] else 0
  }

  function Bump(m: map<int, nat>, k: int): map<int, nat> {
    m[k := Count(m, k) + 1]
  }

  function SetPc(s: Sys, e: int, pc: Pc): Sys
    requires e in s.execs
  {
    s.(execs := s.execs[e := s.execs[e].(pc := pc)])
  }

  /** The operation returns `r` to the body, and the counter moves on. */
  function Complete(c: Config, s: Sys, e: int, r: Res): Sys
    requires At(c, s, e)
  {
    var x := s.execs[e];
    s.(execs := s.execs[e := Exec(x.hist + [r], x.next + Width(OpOf(c, s, e), View(r)), Idle)])
  }

  /** Record `row` unless one is there. */
  function Write(c: Config, s: Sys, k: int, row: StepRow): Sys {
    s.(db := RecordRow(s.db, c.w, k, row))
  }

  /** The row now stored under `k`. */
  function Stored(c: Config, s: Sys, k: int): StepRow
    requires (c.w, k) in s.db.steps
  {
    s.db.steps[(c.w, k)]
  }

  function Instant(row: StepRow): int {
    if row.output.Some? && row.output.value.Num? then row.output.value.n else 0
  }

  predicate IsStepBusy(c: Config, s: Sys, e: int) {
    At(c, s, e) && OpOf(c, s, e).Step? && (s.execs[e].pc == Running || s.execs[e].pc.Produced?)
  }

  /** Look the operation up in the log. */
  function DoLook(c: Config, s: Sys, e: int): Sys
    requires At(c, s, e)
  {
    var op, k := OpOf(c, s, e), s.execs[e].next;
    if (c.w, k) in s.db.steps then
      var row := Stored(c, s, k);
      if op.Patch? || row.name == OpName(op) then Complete(c, s, e, Replayed(op, row)) else SetPc(s, e, Diverged)
    else SetPc(s, e, if Guarded(op) then Missed else Ready)
  }

  /** The row an outcome is recorded as. */
  function RowOf(op: Operation, r: Res): (row: StepRow)
    ensures row.name == OpName(op)
  {
    if r.Ok? then StepRowFor(OpName(op), r.v, None)
    else StepRowFor(OpName(op), Null, Some(if r.Err? then TextOf(r.e) else ""))
  }

  /** Record the outcome of a step, a draw or a sleep. A success returns whatever
      the log then holds; a failure returns its own error unless the log holds a
      success. */
  function DoRecord(c: Config, s: Sys, e: int): Sys
    requires At(c, s, e) && s.execs[e].pc.Produced?
  {
    var op, k, r := OpOf(c, s, e), s.execs[e].next, s.execs[e].pc.r;
    var s1 := Write(c, s, k, RowOf(op, r));
    var canonical := Replayed(op, Stored(c, s1, k));
    Complete(c, s1, e, if r.Err? && canonical.Err? then r else canonical)
  }

  /** One look into the mailbox or at the event. */
  function DoPoll(c: Config, s: Sys, e: int): Sys
    requires At(c, s, e) && s.execs[e].pc.Polling?
  {
    var op, k, d := OpOf(c, s, e), s.execs[e].next, s.execs[e].pc.deadline;
    var nothing := SetPc(s, e, if d.Some? then Waiting(d.value) else NeedDeadline);
    match op
    case Recv(topic, _) =>
      if Oldest(s.db.notes, c.w, topic).None? then nothing
      else
        var s1 := s.(db := Consume(s.db, c.w, topic, k, OpName(op)));
        var row := Stored(c, s1, k);
        Complete(c, s1, e, Msg(Some(if row.output.Some? then row.output.value else Null)))
    case GetEvent(target, key, _) =>
      if (target, key) in s.db.events then SetPc(s, e, Found(s.db.events[(target, key)])) else nothing
    case _ => s
  }

  function DoRecordFound(c: Config, s: Sys, e: int): Sys
    requires At(c, s, e) && s.execs[e].pc.Found?
  {
    var op, k := OpOf(c, s, e), s.execs[e].next;
    var s1 := Write(c, s, k, StepRowFor(OpName(op), s.execs[e].pc.v, None));
    match OutcomeOf(Stored(c, s1, k))
    case Output(v) => Complete(c, s1, e, Msg(Some(v)))
    case Failure(m) => Complete(c, s1, e, Err(App(m)))
  }

  function DoReadDeadline(c: Config, s: Sys, e: int): Sys
    requires At(c, s, e)
  {
    var k := s.execs[e].next + 1;
    if (c.w, k) !in s.db.steps then SetPc(s, e, FixDeadline)
    else if Stored(c, s, k).name != "DBOS.sleep" || Stored(c, s, k).error.Some? then SetPc(s, e, Diverged)
    else SetPc(s, e, Waiting(Instant(Stored(c, s, k))))
  }

  function TimeoutOf(op: Operation): int {
    match op
    case Recv(_, t) => t
    case GetEvent(_, _, t) => t
    case _ => 0
  }

  function DeadlineWritten(c: Config, s: Sys, e: int): Sys
    requires At(c, s, e)
  {
    Write(c, s, s.execs[e].next + 1, StepRowFor("DBOS.sleep", Num(s.clock + TimeoutOf(OpOf(c, s, e))), None))
  }

  function DoRecordDeadline(c: Config, s: Sys, e: int): Sys
    requires At(c, s, e)
  {
    var s1 := DeadlineWritten(c, s, e);
    SetPc(s1, e, Waiting(Instant(Stored(c, s1, s.execs[e].next + 1))))
  }

  /** Record the marker; the new code is taken. */
  function DoMark(c: Config, s: Sys, e: int): Sys
    requires At(c, s, e)
  {
    Complete(c, Write(c, s, s.execs[e].next, PatchRow(OpName(OpOf(c, s, e)))), e, Flag(true))
  }

  /** Record that nothing came; whatever is stored meanwhile is not looked at. */
  function DoExpire(c: Config, s: Sys, e: int): Sys
    requires At(c, s, e)
  {
    Complete(c, Write(c, s, s.execs[e].next, StepRowFor(OpName(OpOf(c, s, e)), Null, None)), e, Msg(None))
  }

  ghost function Next(c: Config, s: Sys, ev: Event): Sys
    requires Enabled(c, s, ev)
  {
    match ev
    case Start(e) => s.(execs := s.execs[e := Exec([], 0, Idle)])
    case Crash(e) => s.(execs := s.execs - {e}, lost := if IsStepBusy(c, s, e) then Bump(s.lost, s.execs[e].next) else s.lost)
    case Look(e) => DoLook(c, s, e)
    case CheckStatus(e) =>
      if IsCancelled(s.db, c.w) then Complete(c, s, e, Err(Cancellation(c.w)))
      else SetPc(s, e, if OpOf(c, s, e).Step? then Ready else Polling(None))
    case RunClosure(e) => SetPc(s, e, Running).(started := Bump(s.started, s.execs[e].next))
    case ClosureEnds(e, r) => SetPc(s, e, Produced(r))
    case Produce(e, v) => SetPc(s, e, Produced(Ok(v)))
    case Record(e) => DoRecord(c, s, e)
    case Mark(e) => DoMark(c, s, e)
    case Poll(e) => DoPoll(c, s, e)
    case RecordFound(e) => DoRecordFound(c, s, e)
    case ReadDeadline(e) => DoReadDeadline(c, s, e)
    case RecordDeadline(e) => DoRecordDeadline(c, s, e)
    case Expire(e) => DoExpire(c, s, e)
    case PollAgain(e) => SetPc(s, e, Polling(Some(s.execs[e].pc.until)))
    case Finish(e) => SetPc(s, e, Ended(NextAction(c, s.execs[e]).result))
    case Others(db, clock) => s.(db := db, clock := clock)
  }

  // ---- the invariant ----------------------------------------------------------

  /** The row replays as nothing: it holds neither an error nor a value. */
  predicate IsNullRow(row: StepRow) {
    OutcomeOf(row) == Output(Null)
  }

  /** A wait that expires finds no value recorded under its number by an
      execution that was luckier. */
  predicate TimeoutFits(c: Config, s: Sys, ev: Event) {
    ev.Expire? && ev.e in s.execs && (c.w, s.execs[ev.e].next) in s.db.steps ==>
      IsNullRow(Stored(c, s, s.execs[ev.e].next))
  }

  predicate Busy(pc: Pc) {
    !pc.Idle? && !pc.Ended? && !pc.Diverged?
  }

  /** Only the matching kind of operation is ever at a given point. */
  predicate PcFits(op: Operation, pc: Pc) {
    match pc
    case Missed => Guarded(op)
    case Ready => !Waits(op)
    case Running => op.Step?
    case Produced(r) => (op.Step? && (r.Ok? || r.Err?)) || ((op.Draw? || op.Sleep?) && r.Ok?)
    case Polling(_) => Waits(op)
    case Found(_) => op.GetEvent?
    case NeedDeadline => Waits(op)
    case FixDeadline => Waits(op)
    case Waiting(_) => Waits(op)
    case _ => true
  }

  /** An execution has observed what the log dictates and has not diverged; what
      is recorded meanwhile at a patch point it is about to mark is the marker;
      and if it is alone, nothing is recorded under the number it is working on. */
  ghost predicate ExecOk(c: Config, log: Log, x: Exec) {
    && Path(c.w, c.body, log, Views(x.hist))
    && x.next == SlotAfter(c.body, Views(x.hist))
    && !x.pc.Diverged?
    && (x.pc.Ended? ==> c.body(Views(x.hist)) == Return(x.pc.result))
    && (Busy(x.pc) ==> c.body(Views(x.hist)).Do? && PcFits(c.body(Views(x.hist)).op, x.pc)
                       && (c.solo ==> (c.w, x.next) !in log)
                       && (c.body(Views(x.hist)).op.Patch? && (c.w, x.next) in log ==>
                             log[(c.w, x.next)].name == OpName(c.body(Views(x.hist)).op)))
  }

  ghost predicate Inv(c: Config, s: Sys) {
    && Written(c.w, c.body, s.db.steps)
    && (forall e :: e in s.execs ==> ExecOk(c, s.db.steps, s.execs[e]))
    && (c.solo ==> forall e, f :: e in s.execs && f in s.execs ==> e == f)
  }

  // ---- one step keeps it --------------------------------------------------------

  lemma ExecOkKept(c: Config, db: Db, db': Db, x: Exec)
    requires ExecOk(c, db.steps, x) && LogKept(c.w, db, db')
    ensures ExecOk(c, db'.steps, x)
  {
    PathGrows(c.w, c.body, db.steps, db'.steps, Views(x.hist));
  }

  /** One execution moves to `x`; the others are all right with the new log. */
  lemma Moves(c: Config, s: Sys, s': Sys, e: int, x: Exec)
    requires Inv(c, s) && e in s.execs && s'.execs == s.execs[e := x] && Written(c.w, c.body, s'.db.steps)
    requires OthersOk(c, s, e, s'.db.steps) && ExecOk(c, s'.db.steps, x)
    ensures Inv(c, s')
  {
  }

  ghost predicate OthersOk(c: Config, s: Sys, e: int, log: Log) {
    forall f :: f in s.execs && f != e ==> ExecOk(c, log, s.execs[f])
  }

  lemma ViewsAppend(h: seq<Res>, r: Res)
    ensures Views(h + [r]) == Views(h) + [View(r)]
  {
    assert (h + [r])[..|h|] == h;
  }

  ghost predicate OnPath(c: Config, log: Log, x: Exec) {
    Path(c.w, c.body, log, Views(x.hist)) && x.next == SlotAfter(c.body, Views(x.hist))
  }

  /** `r` is, to the view, what the row of the current operation replays to. */
  predicate Matches(c: Config, log: Log, op: Operation, k: int, r: Res) {
    && (c.w, k) in log
    && (op.Patch? || log[(c.w, k)].name == OpName(op))
    && View(r) == View(Replayed(op, log[(c.w, k)]))
  }

  lemma Completed(c: Config, s: Sys, log: Log, e: int, r: Res)
    requires At(c, s, e) && OnPath(c, log, s.execs[e]) && Matches(c, log, OpOf(c, s, e), s.execs[e].next, r)
    ensures ExecOk(c, log, Complete(c, s, e, r).execs[e])
  {
    var x := s.execs[e];
    PathExtends(c.w, c.body, log, Views(x.hist), View(r));
    ViewsAppend(x.hist, r);
  }

  /** The rows an operation at number `next` may write. */
  predicate MayWrite(op: Operation, next: int, k: int, row: StepRow) {
    || (k == next && row.name == OpName(op) && (Waits(op) ==> row.error.None?))
    || (Waits(op) && k == next + 1 && row.name == "DBOS.sleep" && row.error.None?)
  }

  /** Writing under a number of one's current operation keeps the log the body's. */
  lemma WriteKeepsWritten(c: Config, s: Sys, e: int, k: int, row: StepRow)
    requires Written(c.w, c.body, s.db.steps) && At(c, s, e) && OnPath(c, s.db.steps, s.execs[e])
    requires MayWrite(OpOf(c, s, e), s.execs[e].next, k, row)
    ensures var log := Write(c, s, k, row).db.steps;
            && Written(c.w, c.body, log) && Grows(c.w, s.db.steps, log) && (c.w, k) in log
            && OnPath(c, log, s.execs[e])
  {
    var log := RecordRow(s.db, c.w, k, row).steps;
    var h := Views(s.execs[e].hist);
    PathGrows(c.w, c.body, s.db.steps, log, h);
    if (c.w, k) !in s.db.steps {
      assert Writer(c.w, c.body, log, k, h);
      WrittenGrows(c.w, c.body, s.db.steps, log, k, h);
    }
  }

  /** A write of one execution does not disturb another. */
  lemma WriteKeepsOther(c: Config, s: Sys, e: int, k: int, row: StepRow, f: int)
    requires Inv(c, s) && At(c, s, e) && MayWrite(OpOf(c, s, e), s.execs[e].next, k, row) && f in s.execs && f != e
    ensures ExecOk(c, Write(c, s, k, row).db.steps, s.execs[f])
  {
    var x, y, log := s.execs[e], s.execs[f], s.db.steps;
    assert ExecOk(c, log, x) && ExecOk(c, log, y);
    PathGrows(c.w, c.body, log, Write(c, s, k, row).db.steps, Views(y.hist));
    if Busy(y.pc) && NextAction(c, y).op.Patch? && y.next == k && (c.w, k) !in log {
      PatchNumberIsMine(c.w, c.body, log, Views(y.hist), Views(x.hist));
    }
  }

  lemma WriteKeepsOthers(c: Config, s: Sys, e: int, k: int, row: StepRow)
    requires Inv(c, s) && At(c, s, e) && MayWrite(OpOf(c, s, e), s.execs[e].next, k, row)
    ensures OthersOk(c, s, e, Write(c, s, k, row).db.steps)
  {
    forall f | f in s.execs && f != e ensures ExecOk(c, Write(c, s, k, row).db.steps, s.execs[f]) {
      WriteKeepsOther(c, s, e, k, row, f);
    }
  }

  lemma LookKeeps(c: Config, s: Sys, e: int)
    requires Inv(c, s) && Enabled(c, s, Look(e))
    ensures Inv(c, DoLook(c, s, e))
  {
    var x := s.execs[e];
    var op := OpOf(c, s, e);
    if (c.w, x.next) in s.db.steps {
      if !op.Patch? { NextRowIsMine(c.w, c.body, s.db.steps, Views(x.hist)); }
      Completed(c, s, s.db.steps, e, Replayed(op, Stored(c, s, x.next)));
    }
    Moves(c, s, DoLook(c, s, e), e, DoLook(c, s, e).execs[e]);
  }

  /** Recording under one's own number and returning what, to the view, is then
      stored there, be it one's own row or a faster writer's. */
  lemma WriteCompletes(c: Config, s: Sys, e: int, row: StepRow, r: Res)
    requires Inv(c, s) && At(c, s, e) && MayWrite(OpOf(c, s, e), s.execs[e].next, s.execs[e].next, row)
    requires var s1 := Write(c, s, s.execs[e].next, row);
             View(r) == View(Replayed(OpOf(c, s, e), Stored(c, s1, s.execs[e].next)))
    ensures Inv(c, Complete(c, Write(c, s, s.execs[e].next, row), e, r))
  {
    var k := s.execs[e].next;
    assert ExecOk(c, s.db.steps, s.execs[e]);
    WriteKeepsWritten(c, s, e, k, row);
    WriteKeepsOthers(c, s, e, k, row);
    var s1 := Write(c, s, k, row);
    if !OpOf(c, s, e).Patch? { NextRowIsMine(c.w, c.body, s1.db.steps, Views(s.execs[e].hist)); }
    Completed(c, s1, s1.db.steps, e, r);
    Moves(c, s, Complete(c, s1, e, r), e, Complete(c, s1, e, r).execs[e]);
  }

  lemma RecordKeeps(c: Config, s: Sys, e: int)
    requires Inv(c, s) && Enabled(c, s, Record(e))
    ensures Inv(c, DoRecord(c, s, e))
  {
    var op, k, r := OpOf(c, s, e), s.execs[e].next, s.execs[e].pc.r;
    assert ExecOk(c, s.db.steps, s.execs[e]);
    var canonical := Replayed(op, Stored(c, Write(c, s, k, RowOf(op, r)), k));
    WriteCompletes(c, s, e, RowOf(op, r), if r.Err? && canonical.Err? then r else canonical);
  }

  /** What a wait finds recorded under its number, if anything, is no error. */
  lemma WaitRowHasNoError(c: Config, s: Sys, e: int)
    requires Inv(c, s) && At(c, s, e) && Waits(OpOf(c, s, e)) && (c.w, s.execs[e].next) in s.db.steps
    ensures Stored(c, s, s.execs[e].next).error.None?
  {
    assert ExecOk(c, s.db.steps, s.execs[e]);
    NextRowIsMine(c.w, c.body, s.db.steps, Views(s.execs[e].hist));
  }

  lemma ReceiveKeeps(c: Config, s: Sys, e: int)
    requires Inv(c, s) && Enabled(c, s, Poll(e)) && OpOf(c, s, e).Recv?
    requires Oldest(s.db.notes, c.w, OpOf(c, s, e).topic).Some?
    ensures Inv(c, DoPoll(c, s, e))
  {
    var op, k := OpOf(c, s, e), s.execs[e].next;
    var i := Oldest(s.db.notes, c.w, op.topic).value;
    var row := StepRow(OpName(op), Some(s.db.notes[i].message), None, None);
    var s0 := s.(db := s.db.(notes := s.db.notes[i := s.db.notes[i].(consumed := true)]));
    if (c.w, k) in s.db.steps { WaitRowHasNoError(c, s, e); }
    var stored := Stored(c, Write(c, s0, k, row), k);
    var r := Msg(Some(if stored.output.Some? then stored.output.value else Null));
    WriteCompletes(c, s0, e, row, r);
    assert DoPoll(c, s, e) == Complete(c, Write(c, s0, k, row), e, r);
  }

  lemma PollKeeps(c: Config, s: Sys, e: int)
    requires Inv(c, s) && Enabled(c, s, Poll(e))
    ensures Inv(c, DoPoll(c, s, e))
  {
    var op := OpOf(c, s, e);
    if op.Recv? && Oldest(s.db.notes, c.w, op.topic).Some? {
      ReceiveKeeps(c, s, e);
    } else {
      assert ExecOk(c, s.db.steps, s.execs[e]);
      Moves(c, s, DoPoll(c, s, e), e, DoPoll(c, s, e).execs[e]);
    }
  }

  lemma FoundKeeps(c: Config, s: Sys, e: int)
    requires Inv(c, s) && Enabled(c, s, RecordFound(e))
    ensures Inv(c, DoRecordFound(c, s, e))
  {
    var op, k := OpOf(c, s, e), s.execs[e].next;
    assert ExecOk(c, s.db.steps, s.execs[e]);
    var row := StepRowFor(OpName(op), s.execs[e].pc.v, None);
    match OutcomeOf(Stored(c, Write(c, s, k, row), k))
    case Output(v) => WriteCompletes(c, s, e, row, Msg(Some(v)));
    case Failure(m) => WriteCompletes(c, s, e, row, Err(App(m)));
  }

  lemma MarkKeeps(c: Config, s: Sys, e: int)
    requires Inv(c, s) && Enabled(c, s, Mark(e))
    ensures Inv(c, DoMark(c, s, e))
  {
    assert ExecOk(c, s.db.steps, s.execs[e]);
    WriteCompletes(c, s, e, PatchRow(OpName(OpOf(c, s, e))), Flag(true));
  }

  lemma ExpireKeeps(c: Config, s: Sys, e: int)
    requires Inv(c, s) && Enabled(c, s, Expire(e)) && TimeoutFits(c, s, Expire(e))
    ensures Inv(c, DoExpire(c, s, e))
  {
    assert ExecOk(c, s.db.steps, s.execs[e]);
    WriteCompletes(c, s, e, StepRowFor(OpName(OpOf(c, s, e)), Null, None), Msg(None));
  }

  /** Over a recorded value, a timeout leaves the log's path. */
  lemma LateTimeoutStrays(c: Config, s: Sys, e: int)
    requires Inv(c, s) && Enabled(c, s, Expire(e)) && !TimeoutFits(c, s, Expire(e))
    ensures !ExecOk(c, Next(c, s, Expire(e)).db.steps, Next(c, s, Expire(e)).execs[e])
  {
    var x := s.execs[e];
    assert ExecOk(c, s.db.steps, x);
    WaitRowHasNoError(c, s, e);
    ViewsAppend(x.hist, Msg(None));
    var h := Views(x.hist) + [Nothing];
    assert h[..|h| - 1] == Views(x.hist);
  }

  /** Of all events, only a timeout can break the agreement with the log, and it
      does so exactly if a value is recorded under its number. */
  lemma ExpireKeepsIff(c: Config, s: Sys, e: int)
    requires Inv(c, s) && Enabled(c, s, Expire(e))
    ensures Inv(c, Next(c, s, Expire(e))) <==> TimeoutFits(c, s, Expire(e))
  {
    if TimeoutFits(c, s, Expire(e)) { ExpireKeeps(c, s, e); } else { LateTimeoutStrays(c, s, e); }
  }

  /** The execution goes on with its operation, after a write or without one. */
  lemma GoesOn(c: Config, s: Sys, s1: Sys, e: int, pc: Pc)
    requires Inv(c, s) && At(c, s, e) && !OpOf(c, s, e).Patch? && s1.execs == s.execs
    requires Grows(c.w, s.db.steps, s1.db.steps) && Written(c.w, c.body, s1.db.steps) && OthersOk(c, s, e, s1.db.steps)
    requires Busy(pc) && PcFits(OpOf(c, s, e), pc)
    requires c.solo ==> (c.w, s.execs[e].next) !in s1.db.steps
    ensures Inv(c, SetPc(s1, e, pc))
  {
    var x := s.execs[e];
    PathGrows(c.w, c.body, s.db.steps, s1.db.steps, Views(x.hist));
    Moves(c, s, SetPc(s1, e, pc), e, x.(pc := pc));
  }

  /** Where reading the deadline leads, given that a row there is a deadline. */
  function AfterReading(c: Config, s: Sys, e: int): Pc
    requires e in s.execs
  {
    var k := s.execs[e].next + 1;
    if (c.w, k) in s.db.steps then Waiting(Instant(Stored(c, s, k))) else FixDeadline
  }

  lemma ReadsDeadline(c: Config, s: Sys, e: int)
    requires At(c, s, e)
    requires var k := s.execs[e].next + 1;
             (c.w, k) in s.db.steps ==> Stored(c, s, k).name == "DBOS.sleep" && Stored(c, s, k).error.None?
    ensures DoReadDeadline(c, s, e) == SetPc(s, e, AfterReading(c, s, e))
  {
  }

  lemma DeadlineIsMine(c: Config, s: Sys, e: int)
    requires At(c, s, e) && Waits(OpOf(c, s, e)) && OnPath(c, s.db.steps, s.execs[e]) && Written(c.w, c.body, s.db.steps)
    ensures var k := s.execs[e].next + 1;
            (c.w, k) in s.db.steps ==> Stored(c, s, k).name == "DBOS.sleep" && Stored(c, s, k).error.None?
  {
    var x := s.execs[e];
    if (c.w, x.next + 1) in s.db.steps { DeadlineRowIsMine(c.w, c.body, s.db.steps, Views(x.hist)); }
  }

  /** A recorded deadline is waited for, a missing one is to be fixed. */
  lemma DeadlineRead(c: Config, s: Sys, e: int)
    requires Inv(c, s) && Enabled(c, s, ReadDeadline(e))
    ensures DoReadDeadline(c, s, e) == SetPc(s, e, AfterReading(c, s, e))
  {
    assert ExecOk(c, s.db.steps, s.execs[e]);
    DeadlineIsMine(c, s, e);
    ReadsDeadline(c, s, e);
  }

  lemma ReadDeadlineKeeps(c: Config, s: Sys, e: int)
    requires Inv(c, s) && Enabled(c, s, ReadDeadline(e))
    ensures Inv(c, DoReadDeadline(c, s, e))
  {
    assert ExecOk(c, s.db.steps, s.execs[e]);
    DeadlineRead(c, s, e);
    GoesOn(c, s, s, e, AfterReading(c, s, e));
  }

  lemma DeadlineWrite(c: Config, s: Sys, e: int)
    requires Inv(c, s) && At(c, s, e) && Waits(OpOf(c, s, e))
    ensures var log := DeadlineWritten(c, s, e).db.steps;
            Written(c.w, c.body, log) && Grows(c.w, s.db.steps, log) && OthersOk(c, s, e, log)
  {
    assert ExecOk(c, s.db.steps, s.execs[e]);
    var row := StepRowFor("DBOS.sleep", Num(s.clock + TimeoutOf(OpOf(c, s, e))), None);
    WriteKeepsWritten(c, s, e, s.execs[e].next + 1, row);
    WriteKeepsOthers(c, s, e, s.execs[e].next + 1, row);
  }

  lemma RecordDeadlineKeeps(c: Config, s: Sys, e: int)
    requires Inv(c, s) && Enabled(c, s, RecordDeadline(e))
    ensures Inv(c, DoRecordDeadline(c, s, e))
  {
    assert ExecOk(c, s.db.steps, s.execs[e]);
    DeadlineWrite(c, s, e);
    var s1 := DeadlineWritten(c, s, e);
    GoesOn(c, s, s1, e, Waiting(Instant(Stored(c, s1, s.execs[e].next + 1))));
  }

  lemma LocalKeeps(c: Config, s: Sys, ev: Event)
    requires Inv(c, s) && Enabled(c, s, ev) && !IsCancelled(s.db, c.w)
    requires ev.CheckStatus? || ev.RunClosure? || ev.ClosureEnds? || ev.Produce? || ev.PollAgain? || ev.Finish?
    ensures Inv(c, Next(c, s, ev))
  {
    Moves(c, s, Next(c, s, ev), ev.e, Next(c, s, ev).execs[ev.e]);
  }

  lemma OthersKeep(c: Config, s: Sys, db: Db, clock: int)
    requires Inv(c, s) && Enabled(c, s, Others(db, clock))
    ensures Inv(c, Next(c, s, Others(db, clock)))
  {
    forall e | e in s.execs ensures ExecOk(c, db.steps, s.execs[e]) { ExecOkKept(c, s.db, db, s.execs[e]); }
    forall k | HasRow(c.w, db.steps, k) ensures exists h :: Writer(c.w, c.body, db.steps, k, h) {
      assert HasRow(c.w, s.db.steps, k);
      var h :| Writer(c.w, c.body, s.db.steps, k, h);
      PathGrows(c.w, c.body, s.db.steps, db.steps, h);
      assert Writer(c.w, c.body, db.steps, k, h);
    }
  }

  /** A lone execution never finds a value recorded under its number. */
  lemma SoloTimeoutFits(c: Config, s: Sys, ev: Event)
    requires Inv(c, s) && c.solo && Enabled(c, s, ev)
    ensures TimeoutFits(c, s, ev)
  {
    if ev.Expire? { assert ExecOk(c, s.db.steps, s.execs[ev.e]); }
  }

  /** Every step of every execution, a crash, a restart and whatever the others
      do keep it, as long as the workflow is not cancelled and, with several
      executions at once, no timeout comes too late. */
  lemma InvStep(c: Config, s: Sys, ev: Event)
    requires Inv(c, s) && Enabled(c, s, ev) && !IsCancelled(s.db, c.w) && (c.solo || TimeoutFits(c, s, ev))
    ensures Inv(c, Next(c, s, ev))
  {
    match ev
    case Start(_) =>
    case Crash(_) =>
    case Look(e) => LookKeeps(c, s, e);
    case Record(e) => RecordKeeps(c, s, e);
    case Poll(e) => PollKeeps(c, s, e);
    case RecordFound(e) => FoundKeeps(c, s, e);
    case Expire(e) => if c.solo { SoloTimeoutFits(c, s, ev); } ExpireKeeps(c, s, e);
    case Mark(e) => MarkKeeps(c, s, e);
    case ReadDeadline(e) => ReadDeadlineKeeps(c, s, e);
    case RecordDeadline(e) => RecordDeadlineKeeps(c, s, e);
    case Others(db, clock) => OthersKeep(c, s, db, clock);
    case _ => LocalKeeps(c, s, ev);
  }
}
