/** Two exact laws of runs of any number of executions: when they all agree, and
    how often closures are started. */
module Agreement {
  import opened Types
  import opened Store
  import opened Replay
  import opened Execution
  import opened ReplayTheorems

  // ---- who recorded what a busy execution will find ---------------------------------

  /** An execution gets busy by looking up its operation and finding nothing. */
  lemma BusyOrigin(c: Config, s: Sys, ev: Event, e: int)
    requires Enabled(c, s, ev) && e in Next(c, s, ev).execs && Busy(Next(c, s, ev).execs[e].pc)
    ensures var x' := Next(c, s, ev).execs[e];
            || (e in s.execs && Busy(s.execs[e].pc) && s.execs[e].hist == x'.hist && s.execs[e].next == x'.next)
            || (ev == Look(e) && (c.w, x'.next) !in Next(c, s, ev).db.steps)
  {
    if ev.Others? || ev.e != e { OtherExecsStay(c, s, ev, e); } else { StaysAt(c, s, ev); MoverWasBusy(c, s, ev); }
  }

  lemma MoverWasBusy(c: Config, s: Sys, ev: Event)
    requires Enabled(c, s, ev) && !ev.Others? && ev.e in s.execs && ev.e in Next(c, s, ev).execs
    requires Busy(Next(c, s, ev).execs[ev.e].pc)
    ensures Busy(s.execs[ev.e].pc) || (ev.Look? && (c.w, s.execs[ev.e].next) !in Next(c, s, ev).db.steps)
  {
  }

  /** Who writes under its operation's own number returns from the operation. */
  lemma WriterReturns(c: Config, s: Sys, ev: Event)
    requires Enabled(c, s, ev) && WritesRow(ev) && !ev.RecordDeadline?
    requires (c.w, s.execs[ev.e].next) !in s.db.steps && (c.w, s.execs[ev.e].next) in Next(c, s, ev).db.steps
    ensures ev.e in Next(c, s, ev).execs && |Next(c, s, ev).execs[ev.e].hist| == |s.execs[ev.e].hist| + 1
    ensures ev.Mark? ==>
              Next(c, s, ev).db.steps[(c.w, s.execs[ev.e].next)].name == OpName(OpOf(c, s, ev.e))
  {
  }

  /** Execution `f` had, at moment `j`, returned from more than `n` operations. */
  predicate Ahead(r: Run, j: nat, f: int, n: nat) {
    j < |r.ss| && f in r.ss[j].execs && |r.ss[j].execs[f].hist| > n
  }

  /** A row written under the number a busy execution works on was written by one
      that was at the same place and thereby got ahead. */
  lemma NewRowGetsAhead(c: Config, r: Run, i: nat, e: int)
    requires IsRun(c, r) && i < |r.es| && Inv(c, r.ss[i])
    requires e in r.ss[i].execs && Busy(r.ss[i].execs[e].pc)
    requires e in r.ss[i + 1].execs && r.ss[i + 1].execs[e].hist == r.ss[i].execs[e].hist
    requires var k := r.ss[i].execs[e].next; (c.w, k) !in r.ss[i].db.steps && (c.w, k) in r.ss[i + 1].db.steps
    ensures WritesRow(r.es[i]) && Ahead(r, i + 1, r.es[i].e, |r.ss[i].execs[e].hist|)
  {
    assert StepsAt(c, r, i);
    var s, ev, log' := r.ss[i], r.es[i], r.ss[i + 1].db.steps;
    var x, k := s.execs[e], s.execs[e].next;
    assert ExecOk(c, s.db.steps, x);
    WriterOfNewRow(c, s, ev, k);
    var y := s.execs[ev.e];
    assert ExecOk(c, s.db.steps, y);
    LogGrowsStep(c, s, ev);
    PathGrows(c.w, c.body, s.db.steps, log', Views(x.hist));
    if k == y.next { WriterReturnsUnlessDeadline(c, s, ev, k); }
    NewRowIsOfWriter(c.w, c.body, s.db.steps, log', k, Views(x.hist), Views(y.hist));
  }

  lemma WriterReturnsUnlessDeadline(c: Config, s: Sys, ev: Event, k: int)
    requires Enabled(c, s, ev) && WritesRow(ev) && k == s.execs[ev.e].next
    requires (c.w, k) !in s.db.steps && (c.w, k) in Next(c, s, ev).db.steps
    ensures ev.e in Next(c, s, ev).execs && |Next(c, s, ev).execs[ev.e].hist| == |s.execs[ev.e].hist| + 1
    ensures ev.Mark? ==> Next(c, s, ev).db.steps[(c.w, k)].name == OpName(OpOf(c, s, ev.e))
  {
    if ev.RecordDeadline? { DeadlineWrites(c, s, ev.e, k); } else { WriterReturns(c, s, ev); }
  }

  /** What a busy execution finds recorded under its number, another has returned. */
  lemma {:induction false} RecordedByAnother(c: Config, r: Run, i: nat, e: int) returns (j: nat, f: int)
    requires GoodRun(c, r) && i < |r.ss| && e in r.ss[i].execs && Busy(r.ss[i].execs[e].pc)
    requires (c.w, r.ss[i].execs[e].next) in r.ss[i].db.steps
    ensures j <= i && Ahead(r, j, f, |r.ss[i].execs[e].hist|)
    decreases i
  {
    assert i > 0;
    assert StepsAt(c, r, i - 1);
    BusyOrigin(c, r.ss[i - 1], r.es[i - 1], e);
    if (c.w, r.ss[i].execs[e].next) in r.ss[i - 1].db.steps {
      j, f := RecordedByAnother(c, r, i - 1, e);
    } else {
      InvHolds(c, r, i - 1);
      NewRowGetsAhead(c, r, i - 1, e);
      j, f := i, r.es[i - 1].e;
    }
  }

  // ---- agreement --------------------------------------------------------------------------

  ghost predicate PairAgrees(c: Config, r: Run, i: nat, j: nat, e: int, f: int) {
    i < |r.ss| && j < |r.ss| && e in r.ss[i].execs && f in r.ss[j].execs ==> Agree(c, r.ss[i].execs[e], r.ss[j].execs[f])
  }

  /** All executions, at all moments, agree wherever both have been. */
  ghost predicate AllAgree(c: Config, r: Run) {
    forall i: nat, j: nat, e, f :: PairAgrees(c, r, i, j, e, f)
  }

  /** The run up to moment `i`. */
  function UpTo(r: Run, i: nat): Run
    requires i < |r.ss| && |r.ss| == |r.es| + 1
  {
    Run(r.ss[..i + 1], r.es[..i])
  }

  lemma UpToIsGood(c: Config, r: Run, i: nat)
    requires IsRun(c, r) && Begins(c, r.ss[0]) && NeverCancelled(c, r) && i < |r.ss|
    requires forall m :: 0 <= m < i ==> TimeoutFits(c, r.ss[m], r.es[m])
    ensures GoodRun(c, UpTo(r, i))
  {
    var p := UpTo(r, i);
    forall m: nat | m < |p.es| ensures StepsAt(c, p, m) { assert StepsAt(c, r, m); }
  }

  /** An execution that is ahead of a waiting one has returned the recorded value. */
  lemma AheadReturned(c: Config, log: Log, x: Exec, y: Exec)
    requires OnPath(c, log, x) && Path(c.w, c.body, log, Views(y.hist)) && |y.hist| > |x.hist| && NextAction(c, x).Do?
    requires (c.w, x.next) in log
    ensures View(y.hist[|x.hist|]) == View(Replayed(NextAction(c, x).op, log[(c.w, x.next)]))
  {
    PathsAgree(c.w, c.body, log, Views(x.hist), Views(y.hist));
    PathStep(c.w, c.body, log, Views(y.hist), |x.hist|);
    ViewsAt(y.hist, |x.hist|);
  }

  /** A late timeout, the first of a run, disagrees with whoever recorded the value. */
  lemma LateTimeoutDisagrees(c: Config, r: Run, i: nat)
    requires IsRun(c, r) && Begins(c, r.ss[0]) && NeverCancelled(c, r) && i < |r.es|
    requires !TimeoutFits(c, r.ss[i], r.es[i]) && forall m :: 0 <= m < i ==> TimeoutFits(c, r.ss[m], r.es[m])
    ensures !AllAgree(c, r)
  {
    var s, e, p := r.ss[i], r.es[i].e, UpTo(r, i);
    assert StepsAt(c, r, i);
    UpToIsGood(c, r, i);
    InvHolds(c, p, i);
    var x := s.execs[e];
    assert ExecOk(c, s.db.steps, x);
    WaitRowHasNoError(c, s, e);
    var j, f := RecordedByAnother(c, p, i, e);
    var y := r.ss[j].execs[f];
    assert p.ss[j] == r.ss[j];
    StillOnPath(c, p, j, i, f);
    AheadReturned(c, s.db.steps, x, y);
    var x' := r.ss[i + 1].execs[e];
    assert x'.hist == x.hist + [Msg(None)];
    assert View(y.hist[|x.hist|]) != View(x'.hist[|x.hist|]);
    assert !PairAgrees(c, r, j, i + 1, f, e);
  }

  lemma {:induction false} FirstLate(c: Config, r: Run, n: nat) returns (i: nat)
    requires IsRun(c, r) && n < |r.es| && !TimeoutFits(c, r.ss[n], r.es[n])
    ensures i <= n && !TimeoutFits(c, r.ss[i], r.es[i]) && forall m :: 0 <= m < i ==> TimeoutFits(c, r.ss[m], r.es[m])
  {
    if m: nat :| m < n && !TimeoutFits(c, r.ss[m], r.es[m]) { i := FirstLate(c, r, m); } else { i := n; }
  }

  lemma PairsAgree(c: Config, r: Run, i: nat, j: nat, e: int, f: int)
    requires GoodRun(c, r)
    ensures PairAgrees(c, r, i, j, e, f)
  {
    if i < |r.ss| && j < |r.ss| && e in r.ss[i].execs && f in r.ss[j].execs {
      if i <= j { ExecutionsAgree(c, r, i, j, e, f); } else { ExecutionsAgree(c, r, j, i, f, e); }
    }
  }

  /** For every run that is never cancelled: all executions agree at all moments if
      and only if no wait times out over a value that is recorded under its number. */
  lemma AgreementIff(c: Config, r: Run)
    requires IsRun(c, r) && Begins(c, r.ss[0]) && NeverCancelled(c, r)
    ensures AllAgree(c, r) <==> TimeoutsFit(c, r)
  {
    if TimeoutsFit(c, r) {
      forall i: nat, j: nat, e, f ensures PairAgrees(c, r, i, j, e, f) { PairsAgree(c, r, i, j, e, f); }
    } else {
      var n :| 0 <= n < |r.es| && !TimeoutFits(c, r.ss[n], r.es[n]);
      var i := FirstLate(c, r, n);
      LateTimeoutDisagrees(c, r, i);
    }
  }

  // ---- every started closure is accounted for -----------------------------------------------

  /** The executions that have started the closure under number `k` and not yet
      recorded its outcome. */
  ghost function InFlight(c: Config, s: Sys, k: int): set<int> {
    set e | e in s.execs && IsStepBusy(c, s, e) && s.execs[e].next == k
  }

  ghost predicate Enters(c: Config, s: Sys, ev: Event, k: int) {
    Enabled(c, s, ev) && ev.RunClosure? && s.execs[ev.e].next == k
  }

  /** The execution crashes with the closure in flight. */
  ghost predicate Loses(c: Config, s: Sys, ev: Event, k: int) {
    Enabled(c, s, ev) && ev.Crash? && ev.e in InFlight(c, s, k)
  }

  /** The execution records the closure's outcome, or finds one recorded. */
  ghost predicate Records(c: Config, s: Sys, ev: Event, k: int) {
    Enabled(c, s, ev) && ev.Record? && ev.e in InFlight(c, s, k)
  }

  lemma FlightOfMover(c: Config, s: Sys, ev: Event, k: int)
    requires Enabled(c, s, ev) && !ev.Others?
    ensures ev.e in InFlight(c, Next(c, s, ev), k)
            <==> Enters(c, s, ev, k) || (ev.e in InFlight(c, s, k) && !ev.Crash? && !ev.Record?)
  {
    if ev.RunClosure? {
      assert Next(c, s, ev).execs[ev.e].hist == s.execs[ev.e].hist;
    } else if ev.ClosureEnds? {
      assert Next(c, s, ev).execs[ev.e].hist == s.execs[ev.e].hist;
    } else {
      BusyAfter(c, s, ev);
    }
  }

  lemma FlightOfOther(c: Config, s: Sys, ev: Event, k: int, e: int)
    requires Enabled(c, s, ev) && (ev.Others? || ev.e != e)
    ensures e in InFlight(c, Next(c, s, ev), k) <==> e in InFlight(c, s, k)
  {
    OtherExecsStay(c, s, ev, e);
  }

  lemma FlightStep(c: Config, s: Sys, ev: Event, k: int)
    requires Enabled(c, s, ev)
    ensures InFlight(c, Next(c, s, ev), k) ==
            if Enters(c, s, ev, k) then InFlight(c, s, k) + {ev.e}
            else if Loses(c, s, ev, k) || Records(c, s, ev, k) then InFlight(c, s, k) - {ev.e}
            else InFlight(c, s, k)
  {
    if !ev.Others? { FlightOfMover(c, s, ev, k); }
    forall e | ev.Others? || ev.e != e ensures e in InFlight(c, Next(c, s, ev), k) <==> e in InFlight(c, s, k) {
      FlightOfOther(c, s, ev, k, e);
    }
  }

  /** How often an execution recorded the outcome of the closure under `k`. */
  ghost function Recordings(c: Config, r: Run, i: nat, k: int): nat
    requires IsRun(c, r) && i < |r.ss|
  {
    if i == 0 then 0 else Recordings(c, r, i - 1, k) + if Records(c, r.ss[i - 1], r.es[i - 1], k) then 1 else 0
  }

  lemma BalanceStep(c: Config, s: Sys, ev: Event, k: int)
    requires Enabled(c, s, ev)
    ensures var s' := Next(c, s, ev);
            Count(s'.started, k) - Count(s'.lost, k) - |InFlight(c, s', k)|
            == Count(s.started, k) - Count(s.lost, k) - |InFlight(c, s, k)| + if Records(c, s, ev, k) then 1 else 0
  {
    StartedStep(c, s, ev, k);
    LostStep(c, s, ev, k);
    FlightStep(c, s, ev, k);
    assert Enters(c, s, ev, k) ==> ev.e !in InFlight(c, s, k);
    assert ev.Crash? ==> (Loses(c, s, ev, k) <==> IsStepBusy(c, s, ev.e) && s.execs[ev.e].next == k);
  }

  /** In every run of any number of executions, cancelled or not: a closure was
      started as often as it was lost to a crash, is in flight, or had its outcome
      recorded. */
  lemma {:induction false} StartsBalance(c: Config, r: Run, i: nat, k: int)
    requires IsRun(c, r) && Begins(c, r.ss[0]) && i < |r.ss|
    ensures Count(r.ss[i].started, k) == Count(r.ss[i].lost, k) + |InFlight(c, r.ss[i], k)| + Recordings(c, r, i, k)
  {
    if i > 0 {
      StartsBalance(c, r, i - 1, k);
      assert StepsAt(c, r, i - 1);
      BalanceStep(c, r.ss[i - 1], r.es[i - 1], k);
    } else {
      assert InFlight(c, r.ss[0], k) == {};
    }
  }
}
