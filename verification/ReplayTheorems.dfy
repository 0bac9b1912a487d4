/** What holds of whole runs: every execution of a workflow observes the same
    thing at the same place, and recorded work is not done again. */
module ReplayTheorems {
  import opened Types
  import opened Store
  import opened Replay
  import opened Execution

  // ---- runs -------------------------------------------------------------------

  /** `ss` are the states a run passes through, `es` the events between them. */
  datatype Run = Run(ss: seq<Sys>, es: seq<Event>)

  ghost predicate StepsAt(c: Config, r: Run, i: nat)
    requires i < |r.es| && |r.ss| == |r.es| + 1
  {
    Enabled(c, r.ss[i], r.es[i]) && r.ss[i + 1] == Next(c, r.ss[i], r.es[i])
  }

  ghost predicate IsRun(c: Config, r: Run) {
    && |r.ss| == |r.es| + 1
    && (forall i: nat :: i < |r.es| ==> StepsAt(c, r, i))
  }

  ghost predicate NeverCancelled(c: Config, r: Run) {
    forall i :: 0 <= i < |r.ss| ==> !IsCancelled(r.ss[i].db, c.w)
  }

  /** No execution is alive yet, no closure has been counted, and the log, maybe
      empty, is one this body wrote. */
  ghost predicate Begins(c: Config, s: Sys) {
    s.execs == map[] && s.started == map[] && s.lost == map[] && Written(c.w, c.body, s.db.steps)
  }

  /** No wait times out over a value an execution that was luckier has recorded. */
  ghost predicate TimeoutsFit(c: Config, r: Run)
    requires IsRun(c, r)
  {
    forall i :: 0 <= i < |r.es| ==> TimeoutFits(c, r.ss[i], r.es[i])
  }

  /** One execution at a time, or any number of them without late timeouts. */
  ghost predicate GoodRun(c: Config, r: Run) {
    IsRun(c, r) && Begins(c, r.ss[0]) && NeverCancelled(c, r) && (c.solo || TimeoutsFit(c, r))
  }

  lemma {:induction false} InvHolds(c: Config, r: Run, i: nat)
    requires GoodRun(c, r) && i < |r.ss|
    ensures Inv(c, r.ss[i])
  {
    if i > 0 {
      InvHolds(c, r, i - 1);
      assert StepsAt(c, r, i - 1);
      InvStep(c, r.ss[i - 1], r.es[i - 1]);
    }
  }

  /** And the condition is exact: all executions stay with the log at all moments
      if and only if no timeout comes too late. */
  lemma StaysWithLogIff(c: Config, r: Run)
    requires IsRun(c, r) && Begins(c, r.ss[0]) && NeverCancelled(c, r)
    ensures (forall i :: 0 <= i < |r.ss| ==> Inv(c, r.ss[i])) <==> TimeoutsFit(c, r)
  {
    if TimeoutsFit(c, r) {
      forall i | 0 <= i < |r.ss| ensures Inv(c, r.ss[i]) { InvHolds(c, r, i); }
    }
    if forall i :: 0 <= i < |r.ss| ==> Inv(c, r.ss[i]) {
      forall i | 0 <= i < |r.es| ensures TimeoutFits(c, r.ss[i], r.es[i]) {
        assert StepsAt(c, r, i);
        if r.es[i].Expire? { ExpireKeepsIff(c, r.ss[i], r.es[i].e); }
      }
    }
  }

  lemma WriteGrows(c: Config, s: Sys, k: int, row: StepRow)
    ensures Grows(c.w, s.db.steps, Write(c, s, k, row).db.steps)
  {
  }

  lemma ConsumeGrows(c: Config, db: Db, topic: string, k: int, name: string)
    ensures Grows(c.w, db.steps, Consume(db, c.w, topic, k, name).steps)
  {
  }

  lemma LogGrowsStep(c: Config, s: Sys, ev: Event)
    requires Enabled(c, s, ev)
    ensures Grows(c.w, s.db.steps, Next(c, s, ev).db.steps)
  {
    if ev.Record? || ev.RecordFound? || ev.RecordDeadline? || ev.Mark? || ev.Expire? {
      forall k, row { WriteGrows(c, s, k, row); }
    } else if ev.Poll? {
      forall topic, k, name { ConsumeGrows(c, s.db, topic, k, name); }
    } else if !ev.Others? {
      assert Next(c, s, ev).db == s.db;
    }
  }

  lemma {:induction false} LogGrows(c: Config, r: Run, i: nat, j: nat)
    requires IsRun(c, r) && i <= j < |r.ss|
    ensures Grows(c.w, r.ss[i].db.steps, r.ss[j].db.steps)
    decreases j
  {
    if i < j {
      LogGrows(c, r, i, j - 1);
      assert StepsAt(c, r, j - 1);
      LogGrowsStep(c, r.ss[j - 1], r.es[j - 1]);
    }
  }

  // ---- every execution sees the same ---------------------------------------------

  /** At every position both have reached, the same operation was asked for, and
      it gave the same value or failed in both. */
  ghost predicate Agree(c: Config, x: Exec, y: Exec) {
    forall n :: 0 <= n < |x.hist| && n < |y.hist| ==>
      View(x.hist[n]) == View(y.hist[n]) && c.body(Views(x.hist)[..n]) == c.body(Views(y.hist)[..n])
  }

  lemma {:induction false} ViewsAt(h: seq<Res>, n: nat)
    requires n < |h|
    ensures Views(h)[n] == View(h[n])
  {
    if n < |h| - 1 { ViewsAt(h[..|h| - 1], n); }
  }

  lemma PrefixAgrees(c: Config, x: Exec, y: Exec)
    requires |x.hist| <= |y.hist| && Views(x.hist) == Views(y.hist)[..|x.hist|]
    ensures Agree(c, x, y) && Agree(c, y, x)
  {
    forall n | 0 <= n < |x.hist|
      ensures View(x.hist[n]) == View(y.hist[n]) && Views(x.hist)[..n] == Views(y.hist)[..n]
    {
      ViewsAt(x.hist, n);
      ViewsAt(y.hist, n);
    }
  }

  /** Two executions, of any two moments of a run: one's observations continue
      the other's. */
  lemma SameLogSameViews(c: Config, log: Log, x: Exec, y: Exec)
    requires ExecOk(c, log, x) && ExecOk(c, log, y)
    ensures Agree(c, x, y)
    ensures x.pc.Ended? && y.pc.Ended? ==> x.pc.result == y.pc.result
  {
    if |x.hist| <= |y.hist| {
      PathsAgree(c.w, c.body, log, Views(x.hist), Views(y.hist));
      PrefixAgrees(c, x, y);
      if |x.hist| < |y.hist| { PathStep(c.w, c.body, log, Views(y.hist), |x.hist|); }
      else { assert Views(y.hist)[..|x.hist|] == Views(y.hist); }
    } else {
      PathsAgree(c.w, c.body, log, Views(y.hist), Views(x.hist));
      PrefixAgrees(c, y, x);
      PathStep(c.w, c.body, log, Views(x.hist), |y.hist|);
    }
  }

  /** An execution seen at one moment is still on the log's path at a later one. */
  lemma StillOnPath(c: Config, r: Run, i: nat, j: nat, e: int)
    requires GoodRun(c, r) && i <= j < |r.ss| && e in r.ss[i].execs
    ensures var x := r.ss[i].execs[e];
            ExecOk(c, r.ss[j].db.steps, if Busy(x.pc) then x.(pc := Idle) else x)
  {
    InvHolds(c, r, i);
    LogGrows(c, r, i, j);
    PathGrows(c.w, c.body, r.ss[i].db.steps, r.ss[j].db.steps, Views(r.ss[i].execs[e].hist));
  }

  /** For every body, every pattern of crashes and restarts and every interleaving
      of any number of executions in which no timeout comes too late: no execution
      ever meets a foreign row; whichever executions one looks at, at whichever
      moments, they agree wherever both have been; and those that finish return
      the same. */
  lemma ExecutionsAgree(c: Config, r: Run, i: nat, j: nat, e: int, f: int)
    requires GoodRun(c, r) && i <= j < |r.ss| && e in r.ss[i].execs && f in r.ss[j].execs
    ensures !r.ss[i].execs[e].pc.Diverged?
    ensures Agree(c, r.ss[i].execs[e], r.ss[j].execs[f])
    ensures r.ss[i].execs[e].pc.Ended? && r.ss[j].execs[f].pc.Ended? ==>
              r.ss[i].execs[e].pc.result == r.ss[j].execs[f].pc.result
  {
    InvHolds(c, r, i);
    StillOnPath(c, r, i, j, e);
    StillOnPath(c, r, j, j, f);
    var x, y := r.ss[i].execs[e], r.ss[j].execs[f];
    SameLogSameViews(c, r.ss[j].db.steps, if Busy(x.pc) then x.(pc := Idle) else x,
                     if Busy(y.pc) then y.(pc := Idle) else y);
  }

  // ---- how often a closure runs -----------------------------------------------------

  /** A closure under number `k` has been started and not been lost. */
  ghost predicate Accounted(c: Config, s: Sys, k: int) {
    (c.w, k) in s.db.steps || exists e :: IsStepBusy(c, s, e) && s.execs[e].next == k
  }

  ghost predicate Bounded(c: Config, s: Sys, k: int) {
    Count(s.started, k) <= Count(s.lost, k) + (if Accounted(c, s, k) then 1 else 0)
  }

  /** A lone execution starts a closure only if its number is not yet recorded. */
  lemma StartsOnlyUnrecorded(c: Config, s: Sys, e: int)
    requires Inv(c, s) && c.solo && Enabled(c, s, RunClosure(e))
    ensures !Accounted(c, s, s.execs[e].next)
  {
  }

  /** Only these two events touch the counts. */
  lemma StartedStep(c: Config, s: Sys, ev: Event, k: int)
    requires Enabled(c, s, ev)
    ensures Count(Next(c, s, ev).started, k) ==
              Count(s.started, k) + (if ev.RunClosure? && s.execs[ev.e].next == k then 1 else 0)
  {
  }

  lemma LostStep(c: Config, s: Sys, ev: Event, k: int)
    requires Enabled(c, s, ev)
    ensures Count(Next(c, s, ev).lost, k) ==
              Count(s.lost, k) + (if ev.Crash? && IsStepBusy(c, s, ev.e) && s.execs[ev.e].next == k then 1 else 0)
  {
  }

  /** A started closure stays in flight until it is recorded or lost. */
  lemma BusyStep(c: Config, s: Sys, ev: Event, e: int)
    requires Inv(c, s) && c.solo && Enabled(c, s, ev) && IsStepBusy(c, s, e)
    ensures var s', k := Next(c, s, ev), s.execs[e].next;
            || (IsStepBusy(c, s', e) && s'.execs[e].next == k)
            || (c.w, k) in s'.db.steps
            || ev == Crash(e)
  {
  }

  /** What is accounted for stays so, a lost closure apart. */
  lemma AccountedStep(c: Config, s: Sys, ev: Event, k: int)
    requires Inv(c, s) && c.solo && Enabled(c, s, ev) && Accounted(c, s, k)
    ensures Accounted(c, Next(c, s, ev), k) || (ev.Crash? && IsStepBusy(c, s, ev.e) && s.execs[ev.e].next == k)
  {
    if (c.w, k) in s.db.steps {
      LogGrowsStep(c, s, ev);
    } else {
      var e :| IsStepBusy(c, s, e) && s.execs[e].next == k;
      BusyStep(c, s, ev, e);
    }
  }

  lemma BoundedStep(c: Config, s: Sys, ev: Event, k: int)
    requires Inv(c, s) && c.solo && Enabled(c, s, ev) && Bounded(c, s, k)
    ensures Bounded(c, Next(c, s, ev), k)
  {
    StartedStep(c, s, ev, k);
    LostStep(c, s, ev, k);
    if Accounted(c, s, k) { AccountedStep(c, s, ev, k); }
    if ev.RunClosure? {
      StartsOnlyUnrecorded(c, s, ev.e);
      assert IsStepBusy(c, Next(c, s, ev), ev.e);
    }
  }

  /** A closure runs at most once, plus once for every crash between its start
      and its checkpoint. */
  lemma {:induction false} ClosureRuns(c: Config, r: Run, i: nat, k: int)
    requires GoodRun(c, r) && c.solo && i < |r.ss|
    ensures Bounded(c, r.ss[i], k)
  {
    if i > 0 {
      ClosureRuns(c, r, i - 1, k);
      InvHolds(c, r, i - 1);
      assert StepsAt(c, r, i - 1);
      BoundedStep(c, r.ss[i - 1], r.es[i - 1], k);
    }
  }

  /** A closure whose outcome is recorded is never started again. */
  lemma {:induction false} RecordedNotRerun(c: Config, r: Run, i: nat, j: nat, k: int)
    requires GoodRun(c, r) && c.solo && i <= j < |r.ss| && (c.w, k) in r.ss[i].db.steps
    ensures Count(r.ss[j].started, k) == Count(r.ss[i].started, k)
    decreases j
  {
    if i < j {
      RecordedNotRerun(c, r, i, j - 1, k);
      LogGrows(c, r, i, j - 1);
      InvHolds(c, r, j - 1);
      assert StepsAt(c, r, j - 1);
      StartedStep(c, r.ss[j - 1], r.es[j - 1], k);
      if r.es[j - 1].RunClosure? { StartsOnlyUnrecorded(c, r.ss[j - 1], r.es[j - 1].e); }
    }
  }

  // ---- what is recorded was run -----------------------------------------------------------

  /** Row `k` is that of the step the body asks for after observing `h`. */
  ghost predicate StepRecorded(c: Config, log: Log, k: int, h: seq<Obs>) {
    Path(c.w, c.body, log, h) && c.body(h).Do? && c.body(h).op.Step? && SlotAfter(c.body, h) == k && (c.w, k) in log
  }

  /** Closures in flight, and those whose outcome was recorded since `log`, have
      been started. */
  ghost predicate RowsWereRun(c: Config, log: Log, s: Sys) {
    && (forall k, h :: StepRecorded(c, s.db.steps, k, h) && (c.w, k) !in log ==> Count(s.started, k) >= 1)
    && (forall e :: IsStepBusy(c, s, e) ==> Count(s.started, s.execs[e].next) >= 1)
  }

  /** Only starting or ending a closure leaves a step busy. */
  lemma BusyAfter(c: Config, s: Sys, ev: Event)
    requires Enabled(c, s, ev) && !ev.Others? && !ev.RunClosure? && !ev.ClosureEnds?
    ensures !IsStepBusy(c, Next(c, s, ev), ev.e)
  {
    if ev.Poll? { assert DoPoll(c, s, ev.e).execs[ev.e].pc != Running && !DoPoll(c, s, ev.e).execs[ev.e].pc.Produced?; }
  }

  lemma BusyBefore(c: Config, s: Sys, ev: Event, e: int)
    requires Enabled(c, s, ev) && IsStepBusy(c, Next(c, s, ev), e)
    ensures e in s.execs && s.execs[e].next == Next(c, s, ev).execs[e].next
    ensures ev == RunClosure(e) || IsStepBusy(c, s, e)
  {
    if ev.Others? || ev.e != e { OtherExecsStay(c, s, ev, e); }
    else if !ev.RunClosure? && !ev.ClosureEnds? { BusyAfter(c, s, ev); }
  }

  /** A path to a row that was there before is a path of the log before. */
  lemma PathToOldRow(w: Id, body: Body, log: Log, log': Log, k: int, h: seq<Obs>)
    requires Written(w, body, log) && Grows(w, log, log') && (w, k) in log
    requires Path(w, body, log', h) && SlotAfter(body, h) == k
    ensures Path(w, body, log, h)
  {
    assert HasRow(w, log, k);
    var g :| Writer(w, body, log, k, g);
    PathGrows(w, body, log, log', g);
    if |g| < |h| {
      PastWriter(w, body, log', h, k, g);
    } else {
      PathsAgree(w, body, log', h, g);
      PathPrefix(w, body, log, g, |h|);
    }
  }

  predicate WritesRow(ev: Event) {
    ev.Record? || ev.Poll? || ev.RecordFound? || ev.RecordDeadline? || ev.Mark? || ev.Expire?
  }

  lemma OnlyTheseWrite(c: Config, s: Sys, ev: Event, k: int)
    requires Enabled(c, s, ev) && !WritesRow(ev)
    ensures (c.w, k) in Next(c, s, ev).db.steps <==> (c.w, k) in s.db.steps
  {
  }

  lemma ConsumeAddsOne(c: Config, db: Db, topic: string, at: int, name: string, k: int)
    requires (c.w, k) !in db.steps && (c.w, k) in Consume(db, c.w, topic, at, name).steps
    ensures k == at
  {
  }

  lemma PollWrites(c: Config, s: Sys, e: int, k: int)
    requires At(c, s, e) && s.execs[e].pc.Polling?
    requires (c.w, k) !in s.db.steps && (c.w, k) in DoPoll(c, s, e).db.steps
    ensures k == s.execs[e].next
  {
    var op := OpOf(c, s, e);
    if op.Recv? { ConsumeAddsOne(c, s.db, op.topic, s.execs[e].next, OpName(op), k); }
  }

  lemma WriteAddsOne(c: Config, s: Sys, at: int, row: StepRow, k: int)
    requires (c.w, k) !in s.db.steps && (c.w, k) in Write(c, s, at, row).db.steps
    ensures k == at
  {
  }

  lemma RecordWrites(c: Config, s: Sys, ev: Event, k: int)
    requires Enabled(c, s, ev) && (ev.Record? || ev.RecordFound? || ev.Mark? || ev.Expire?)
    requires (c.w, k) !in s.db.steps && (c.w, k) in Next(c, s, ev).db.steps
    ensures k == s.execs[ev.e].next
  {
    var op, at := OpOf(c, s, ev.e), s.execs[ev.e].next;
    match ev
    case Record(e) => WriteAddsOne(c, s, at, RowOf(op, s.execs[e].pc.r), k);
    case RecordFound(e) => WriteAddsOne(c, s, at, StepRowFor(OpName(op), s.execs[e].pc.v, None), k);
    case Mark(_) => WriteAddsOne(c, s, at, PatchRow(OpName(op)), k);
    case Expire(_) => WriteAddsOne(c, s, at, StepRowFor(OpName(op), Null, None), k);
  }

  lemma DeadlineWrites(c: Config, s: Sys, e: int, k: int)
    requires At(c, s, e) && (c.w, k) !in s.db.steps && (c.w, k) in DoRecordDeadline(c, s, e).db.steps
    ensures k == s.execs[e].next + 1
  {
  }

  /** Each writes under its operation's numbers. */
  lemma WritesOwnNumber(c: Config, s: Sys, ev: Event, k: int)
    requires Enabled(c, s, ev) && WritesRow(ev) && PcFits(OpOf(c, s, ev.e), s.execs[ev.e].pc)
    requires (c.w, k) !in s.db.steps && (c.w, k) in Next(c, s, ev).db.steps
    ensures k == s.execs[ev.e].next || (Waits(OpOf(c, s, ev.e)) && k == s.execs[ev.e].next + 1)
  {
    match ev
    case Poll(e) => PollWrites(c, s, e, k);
    case RecordDeadline(e) => DeadlineWrites(c, s, e, k);
    case _ => RecordWrites(c, s, ev, k);
  }

  /** Who wrote a new row: the operation under whose number it is. */
  lemma WriterOfNewRow(c: Config, s: Sys, ev: Event, k: int)
    requires Enabled(c, s, ev) && (c.w, k) !in s.db.steps && (c.w, k) in Next(c, s, ev).db.steps
    requires forall e :: e in s.execs ==> ExecOk(c, s.db.steps, s.execs[e])
    ensures WritesRow(ev) && At(c, s, ev.e)
    ensures var op, next := OpOf(c, s, ev.e), s.execs[ev.e].next;
            && (k == next || (Waits(op) && k == next + 1))
            && (op.Patch? ==> ev.Mark? && k == next)
            && (op.Step? ==> IsStepBusy(c, s, ev.e))
  {
    if !WritesRow(ev) {
      OnlyTheseWrite(c, s, ev, k);
    } else {
      assert ExecOk(c, s.db.steps, s.execs[ev.e]);
      WritesOwnNumber(c, s, ev, k);
    }
  }

  /** The step whose number a new row has is the operation that wrote it. */
  lemma NewRowIsOfWriter(w: Id, body: Body, log: Log, log': Log, k: int, h: seq<Obs>, g: seq<Obs>)
    requires Grows(w, log, log') && (w, k) !in log && (w, k) in log'
    requires Path(w, body, log', h) && body(h).Do? && SlotAfter(body, h) == k
    requires Path(w, body, log, g) && body(g).Do?
    requires SlotAfter(body, g) == k || (Waits(body(g).op) && SlotAfter(body, g) + 1 == k)
    requires body(g).op.Patch? ==> log'[(w, k)].name == OpName(body(g).op)
    ensures h == g
  {
    PathGrows(w, body, log, log', g);
    if |h| < |g| {
      PathsAgree(w, body, log', h, g);
      PathStep(w, body, log, g, |h|);
    } else if |h| > |g| {
      PathsAgree(w, body, log', g, h);
      PathStep(w, body, log', h, |g|);
      SlotsIncrease(w, body, log', h, |g| + 1);
    } else {
      SameLength(w, body, log', h, g);
    }
  }

  lemma RowWasRun(c: Config, log: Log, s: Sys, ev: Event, k: int, h: seq<Obs>)
    requires Inv(c, s) && Enabled(c, s, ev) && RowsWereRun(c, log, s)
    requires StepRecorded(c, Next(c, s, ev).db.steps, k, h) && (c.w, k) !in log
    ensures Count(Next(c, s, ev).started, k) >= 1
  {
    StartedStep(c, s, ev, k);
    LogGrowsStep(c, s, ev);
    var log' := Next(c, s, ev).db.steps;
    if (c.w, k) in s.db.steps {
      PathToOldRow(c.w, c.body, s.db.steps, log', k, h);
      assert StepRecorded(c, s.db.steps, k, h);
    } else {
      WriterOfNewRow(c, s, ev, k);
      if ev.Mark? { assert log'[(c.w, k)] == PatchRow(OpName(OpOf(c, s, ev.e))); }
      NewRowIsOfWriter(c.w, c.body, s.db.steps, log', k, h, Views(s.execs[ev.e].hist));
    }
  }

  lemma RowsWereRunStep(c: Config, log: Log, s: Sys, ev: Event)
    requires Inv(c, s) && Enabled(c, s, ev) && RowsWereRun(c, log, s)
    ensures RowsWereRun(c, log, Next(c, s, ev))
  {
    var s' := Next(c, s, ev);
    forall k, h | StepRecorded(c, s'.db.steps, k, h) && (c.w, k) !in log ensures Count(s'.started, k) >= 1 {
      RowWasRun(c, log, s, ev, k, h);
    }
    forall e | IsStepBusy(c, s', e) ensures Count(s'.started, s'.execs[e].next) >= 1 {
      BusyBefore(c, s, ev, e);
      StartedStep(c, s, ev, s.execs[e].next);
    }
  }

  /** In every run, a step recorded since its beginning had its closure started. */
  lemma {:induction false} RecordedWasRun(c: Config, r: Run, i: nat)
    requires GoodRun(c, r) && i < |r.ss|
    ensures RowsWereRun(c, r.ss[0].db.steps, r.ss[i])
  {
    if i > 0 {
      RecordedWasRun(c, r, i - 1);
      InvHolds(c, r, i - 1);
      assert StepsAt(c, r, i - 1);
      RowsWereRunStep(c, r.ss[0].db.steps, r.ss[i - 1], r.es[i - 1]);
    }
  }

  // ---- timeouts ------------------------------------------------------------------------

  predicate KnowsDeadline(pc: Pc) {
    pc.Waiting? || (pc.Polling? && pc.deadline.Some?)
  }

  function DeadlineOf(pc: Pc): int
    requires KnowsDeadline(pc)
  {
    if pc.Waiting? then pc.until else pc.deadline.value
  }

  /** A deadline an execution knows is the one recorded after its wait's number. */
  ghost predicate DeadlineOk(c: Config, log: Log, x: Exec) {
    KnowsDeadline(x.pc) ==> (c.w, x.next + 1) in log && DeadlineOf(x.pc) == Instant(log[(c.w, x.next + 1)])
  }

  ghost predicate DeadlinesOk(c: Config, s: Sys) {
    forall e :: e in s.execs ==> DeadlineOk(c, s.db.steps, s.execs[e])
  }

  predicate SetsDeadline(ev: Event) {
    ev.ReadDeadline? || ev.RecordDeadline? || ev.PollAgain? || ev.Poll?
  }

  lemma ForgetsDeadline(c: Config, s: Sys, ev: Event)
    requires Enabled(c, s, ev) && !ev.Others? && !SetsDeadline(ev)
    ensures ev.e in Next(c, s, ev).execs ==> !KnowsDeadline(Next(c, s, ev).execs[ev.e].pc)
  {
  }

  lemma PollKeepsDeadline(c: Config, s: Sys, e: int)
    requires At(c, s, e) && s.execs[e].pc.Polling? && DeadlineOk(c, s.db.steps, s.execs[e])
    ensures e in DoPoll(c, s, e).execs && DeadlineOk(c, DoPoll(c, s, e).db.steps, DoPoll(c, s, e).execs[e])
  {
  }

  lemma TakesDeadline(c: Config, s: Sys, ev: Event)
    requires Enabled(c, s, ev) && SetsDeadline(ev) && DeadlineOk(c, s.db.steps, s.execs[ev.e])
    ensures ev.e in Next(c, s, ev).execs && DeadlineOk(c, Next(c, s, ev).db.steps, Next(c, s, ev).execs[ev.e])
  {
    match ev
    case Poll(e) => PollKeepsDeadline(c, s, e);
    case ReadDeadline(e) => assert DeadlineOk(c, s.db.steps, DoReadDeadline(c, s, e).execs[e]);
    case RecordDeadline(e) => assert DeadlineOk(c, DeadlineWritten(c, s, e).db.steps, DoRecordDeadline(c, s, e).execs[e]);
    case PollAgain(_) =>
  }

  lemma PollTouchesOne(c: Config, s: Sys, e: int, f: int)
    requires At(c, s, e) && s.execs[e].pc.Polling? && e != f
    ensures f in DoPoll(c, s, e).execs <==> f in s.execs
    ensures f in s.execs ==> DoPoll(c, s, e).execs[f] == s.execs[f]
  {
  }

  lemma RecordTouchesOne(c: Config, s: Sys, ev: Event, f: int)
    requires Enabled(c, s, ev) && (ev.Record? || ev.RecordFound? || ev.RecordDeadline? || ev.Look?) && ev.e != f
    ensures f in Next(c, s, ev).execs <==> f in s.execs
    ensures f in s.execs ==> Next(c, s, ev).execs[f] == s.execs[f]
  {
  }

  /** An event of one execution does not touch another. */
  lemma OtherExecsStay(c: Config, s: Sys, ev: Event, e: int)
    requires Enabled(c, s, ev) && (ev.Others? || ev.e != e)
    ensures e in Next(c, s, ev).execs <==> e in s.execs
    ensures e in s.execs ==> Next(c, s, ev).execs[e] == s.execs[e]
  {
    match ev
    case Poll(f) => PollTouchesOne(c, s, f, e);
    case Record(_) => RecordTouchesOne(c, s, ev, e);
    case RecordFound(_) => RecordTouchesOne(c, s, ev, e);
    case RecordDeadline(_) => RecordTouchesOne(c, s, ev, e);
    case Look(_) => RecordTouchesOne(c, s, ev, e);
    case _ =>
  }

  /** An execution that is busy after its event is at the same operation. */
  lemma StaysAt(c: Config, s: Sys, ev: Event)
    requires Enabled(c, s, ev) && !ev.Others? && ev.e in Next(c, s, ev).execs && Busy(Next(c, s, ev).execs[ev.e].pc)
    ensures ev.e in s.execs
    ensures var x, x' := s.execs[ev.e], Next(c, s, ev).execs[ev.e]; x'.hist == x.hist && x'.next == x.next
  {
  }

  lemma DeadlinesStep(c: Config, s: Sys, ev: Event)
    requires Enabled(c, s, ev) && DeadlinesOk(c, s)
    ensures DeadlinesOk(c, Next(c, s, ev))
  {
    var s' := Next(c, s, ev);
    LogGrowsStep(c, s, ev);
    forall e | e in s'.execs ensures DeadlineOk(c, s'.db.steps, s'.execs[e]) {
      if ev.Others? || ev.e != e { OtherExecsStay(c, s, ev, e); }
      else if SetsDeadline(ev) { TakesDeadline(c, s, ev); }
      else { ForgetsDeadline(c, s, ev); }
    }
  }

  lemma {:induction false} DeadlinesHold(c: Config, r: Run, i: nat)
    requires IsRun(c, r) && r.ss[0].execs == map[] && i < |r.ss|
    ensures DeadlinesOk(c, r.ss[i])
  {
    if i > 0 {
      DeadlinesHold(c, r, i - 1);
      assert StepsAt(c, r, i - 1);
      DeadlinesStep(c, r.ss[i - 1], r.es[i - 1]);
    }
  }

  /** In every run, crashes included: a wait times out only when the clock has
      reached the deadline recorded after its number, and that row is the one any
      earlier execution recorded there. */
  lemma TimeoutsKeepDeadline(c: Config, r: Run, j: nat, i: nat, e: int)
    requires IsRun(c, r) && r.ss[0].execs == map[] && j <= i < |r.es| && r.es[i] == Expire(e)
    ensures e in r.ss[i].execs
    ensures var k := (c.w, r.ss[i].execs[e].next + 1);
            && k in r.ss[i].db.steps && r.ss[i].clock >= Instant(r.ss[i].db.steps[k])
            && (k in r.ss[j].db.steps ==> r.ss[i].db.steps[k] == r.ss[j].db.steps[k])
  {
    DeadlinesHold(c, r, i);
    assert StepsAt(c, r, i);
    LogGrows(c, r, j, i);
    assert DeadlineOk(c, r.ss[i].db.steps, r.ss[i].execs[e]);
  }
}
