/** Where replay stops being exact, what the others may do meanwhile, and what a
    cancellation lets through. */
module ReplayLimits {
  import opened Types
  import opened Store
  import opened Replay
  import opened Execution
  import opened ReplayTheorems
  import StoreRuns

  // ---- live and replayed results --------------------------------------------------

  /** The event makes execution `e` return from its operation other than by
      reading the log or by refusing to start. */
  ghost predicate Returns(c: Config, s: Sys, ev: Event, e: int) {
    && Enabled(c, s, ev) && At(c, s, e)
    && (ev == Record(e) || ev == RecordFound(e) || ev == Expire(e) || ev == Mark(e)
        || (ev == Poll(e) && OpOf(c, s, e).Recv? && Oldest(s.db.notes, c.w, OpOf(c, s, e).topic).Some?))
  }

  /** What the operation returns to the body now. */
  ghost function LiveResult(c: Config, s: Sys, ev: Event, e: int): Res
    requires Returns(c, s, ev, e)
  {
    var h := Next(c, s, ev).execs[e].hist;
    h[|h| - 1]
  }

  /** What a later execution gets from the row. */
  ghost function LaterResult(c: Config, s: Sys, ev: Event, e: int): Res
    requires Returns(c, s, ev, e)
  {
    Replayed(OpOf(c, s, e), Stored(c, Next(c, s, ev), s.execs[e].next))
  }

  /** The row the operation will find stored, if somebody was faster. */
  function Earlier(c: Config, s: Sys, e: int): Option<StepRow>
    requires e in s.execs
  {
    var k := s.execs[e].next;
    if (c.w, k) in s.db.steps then Some(Stored(c, s, k)) else None
  }

  predicate HoldsValue(row: StepRow) {
    row.error.None? && row.output.Some? && row.output.value != Null
  }

  /** A typed error loses its type, a null message or event its presence, and a
      timeout or a patch marker does not look at the row somebody else put there. */
  ghost predicate ReplaysExactly(c: Config, s: Sys, ev: Event, e: int)
    requires Returns(c, s, ev, e)
  {
    var earlier := Earlier(c, s, e);
    match ev
    case Record(_) =>
      var r := s.execs[e].pc.r;
      r.Err? ==> if earlier.None? then r.e.App? else earlier.value.error.Some? ==> r.e == App(earlier.value.error.value)
    case Poll(_) =>
      if earlier.Some? then HoldsValue(earlier.value)
      else s.db.notes[Oldest(s.db.notes, c.w, OpOf(c, s, e).topic).value].message != Null
    case RecordFound(_) =>
      if earlier.Some? then earlier.value.error.Some? || HoldsValue(earlier.value) else s.execs[e].pc.v != Null
    case Expire(_) => earlier.Some? ==> earlier.value.error.None? && !HoldsValue(earlier.value)
    case _ => earlier.Some? ==> earlier.value.name == OpName(OpOf(c, s, e))
  }

  lemma RecordedLater(c: Config, s: Sys, e: int)
    requires Returns(c, s, Record(e), e) && PcFits(OpOf(c, s, e), s.execs[e].pc)
    ensures LiveResult(c, s, Record(e), e) == LaterResult(c, s, Record(e), e) <==> ReplaysExactly(c, s, Record(e), e)
  {
  }

  lemma PolledLater(c: Config, s: Sys, e: int)
    requires Returns(c, s, Poll(e), e)
    ensures LiveResult(c, s, Poll(e), e) == LaterResult(c, s, Poll(e), e) <==> ReplaysExactly(c, s, Poll(e), e)
  {
  }

  lemma FoundLater(c: Config, s: Sys, e: int)
    requires Returns(c, s, RecordFound(e), e) && PcFits(OpOf(c, s, e), s.execs[e].pc)
    ensures LiveResult(c, s, RecordFound(e), e) == LaterResult(c, s, RecordFound(e), e)
            <==> ReplaysExactly(c, s, RecordFound(e), e)
  {
  }

  /** An operation replays what it returned live exactly in these cases. */
  lemma LiveEqualsLater(c: Config, s: Sys, ev: Event, e: int)
    requires Returns(c, s, ev, e) && PcFits(OpOf(c, s, e), s.execs[e].pc)
    ensures LiveResult(c, s, ev, e) == LaterResult(c, s, ev, e) <==> ReplaysExactly(c, s, ev, e)
  {
    if ev.Record? { RecordedLater(c, s, e); } else if ev.Poll? { PolledLater(c, s, e); } else if ev.RecordFound? { FoundLater(c, s, e); }
  }

  // ---- what the others do ------------------------------------------------------------

  /** The provider calls that write or remove checkpoints of `w`. */
  ghost predicate TouchesLog(db: Db, op: StoreRuns.Op, w: Id) {
    match op
    case RecordOp(id, _, _) => id == w
    case ConsumeOp(id, _, _, _) => id == w
    case DeleteOp(ids, children) => w in DeleteTargets(db, ids, children)
    case ForkOp(params, _) => params.newId == w
    case _ => false
  }

  /** Everything else anybody calls, in any order, is what `Others` allows. */
  lemma CallsKeepLog(db: Db, op: StoreRuns.Op, w: Id)
    requires !TouchesLog(db, op, w)
    ensures LogKept(w, db, StoreRuns.Apply(db, op))
  {
  }

  // ---- cancellation ------------------------------------------------------------------

  /** 1 while `e` is past the status check of a guarded operation. */
  ghost function PastCheck(c: Config, s: Sys, e: int): nat {
    if At(c, s, e) && Guarded(OpOf(c, s, e)) && Busy(s.execs[e].pc) && !s.execs[e].pc.Missed? then 1 else 0
  }

  /** 1 if the event completes guarded work of `e`. */
  ghost function Completes(c: Config, s: Sys, ev: Event, e: int): nat {
    if Returns(c, s, ev, e) && Guarded(OpOf(c, s, e)) then 1 else 0
  }

  /** The guarded operations `e` completes between moments `i` and `j`. */
  ghost function Completions(c: Config, r: Run, i: nat, j: nat, e: int): nat
    requires IsRun(c, r) && i <= j < |r.ss|
    decreases j
  {
    if i == j then 0 else Completions(c, r, i, j - 1, e) + Completes(c, r.ss[j - 1], r.es[j - 1], e)
  }

  lemma OtherEventsPass(c: Config, s: Sys, ev: Event, e: int)
    requires Enabled(c, s, ev) && (ev.Others? || ev.e != e)
    ensures PastCheck(c, Next(c, s, ev), e) == PastCheck(c, s, e)
  {
    OtherExecsStay(c, s, ev, e);
  }

  lemma ReturnedIdle(c: Config, s: Sys, ev: Event, e: int)
    requires Returns(c, s, ev, e)
    ensures e in Next(c, s, ev).execs && Next(c, s, ev).execs[e].pc == Idle
  {
  }

  lemma ReturningPast(c: Config, s: Sys, ev: Event, e: int)
    requires Returns(c, s, ev, e) && Guarded(OpOf(c, s, e))
    ensures PastCheck(c, s, e) == 1
  {
  }

  lemma ReturningStep(c: Config, s: Sys, ev: Event, e: int)
    requires Returns(c, s, ev, e)
    ensures PastCheck(c, Next(c, s, ev), e) == 0
    ensures Guarded(OpOf(c, s, e)) ==> PastCheck(c, s, e) == 1
  {
    ReturnedIdle(c, s, ev, e);
    if Guarded(OpOf(c, s, e)) { ReturningPast(c, s, ev, e); }
  }

  /** Only a passed status check takes an execution past it. */
  lemma RefusedStep(c: Config, s: Sys, ev: Event, e: int)
    requires Enabled(c, s, ev) && IsCancelled(s.db, c.w)
    requires ev == Start(e) || ev == Crash(e) || ev == Look(e) || ev == CheckStatus(e) || ev == Finish(e)
    ensures PastCheck(c, Next(c, s, ev), e) == 0
  {
  }

  lemma WorkingStep(c: Config, s: Sys, ev: Event, e: int)
    requires Enabled(c, s, ev) && At(c, s, e) && !Returns(c, s, ev, e)
    requires ev == RunClosure(e) || ev == PollAgain(e) || ev == Poll(e) || ev == ReadDeadline(e) || ev == RecordDeadline(e)
             || ((ev.ClosureEnds? || ev.Produce?) && ev.e == e)
    ensures PastCheck(c, Next(c, s, ev), e) <= PastCheck(c, s, e)
  {
    assert Next(c, s, ev).execs[e].hist == s.execs[e].hist;
  }

  lemma CancelledStep(c: Config, s: Sys, ev: Event, e: int)
    requires Enabled(c, s, ev) && IsCancelled(s.db, c.w)
    ensures Completes(c, s, ev, e) + PastCheck(c, Next(c, s, ev), e) <= PastCheck(c, s, e)
  {
    if Returns(c, s, ev, e) {
      ReturningStep(c, s, ev, e);
    } else {
      assert Completes(c, s, ev, e) == 0;
      if ev.Others? || ev.e != e {
        OtherEventsPass(c, s, ev, e);
      } else if ev.Start? || ev.Crash? || ev.Look? || ev.CheckStatus? || ev.Finish? {
        RefusedStep(c, s, ev, e);
      } else {
        WorkingStep(c, s, ev, e);
      }
    }
  }

  /** While the workflow stays cancelled, each execution completes at most one
      guarded operation, and that only if it was past its status check when the
      cancellation came; restarted executions complete none. */
  lemma {:induction false} CancelledCompletions(c: Config, r: Run, i: nat, j: nat, e: int)
    requires IsRun(c, r) && i <= j < |r.ss|
    requires forall k :: i <= k < j ==> IsCancelled(r.ss[k].db, c.w)
    ensures Completions(c, r, i, j, e) + PastCheck(c, r.ss[j], e) <= PastCheck(c, r.ss[i], e)
    decreases j
  {
    if i < j {
      CancelledCompletions(c, r, i, j - 1, e);
      assert StepsAt(c, r, j - 1);
      CancelledStep(c, r.ss[j - 1], r.es[j - 1], e);
    }
  }
}
