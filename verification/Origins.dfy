/** Where everything comes from that the log holds and a body observes: in every
    run, each recorded row and each observation is traced back to the event that
    brought it about. */
module Origins {
  import opened Types
  import opened Store
  import opened Replay
  import opened Execution
  import opened ReplayTheorems
  import opened Rows

  // ---- an execution's point fits its operation ----------------------------------------

  ghost predicate Fits(c: Config, x: Exec) {
    Busy(x.pc) ==> NextAction(c, x).Do? && PcFits(NextAction(c, x).op, x.pc)
  }

  lemma FitsStep(c: Config, s: Sys, ev: Event, e: int)
    requires Enabled(c, s, ev) && (e in s.execs ==> Fits(c, s.execs[e])) && e in Next(c, s, ev).execs
    ensures Fits(c, Next(c, s, ev).execs[e])
  {
    if ev.Others? || ev.e != e {
      OtherExecsStay(c, s, ev, e);
    } else if Busy(Next(c, s, ev).execs[e].pc) {
      FitsMover(c, s, ev);
    }
  }

  lemma FitsMover(c: Config, s: Sys, ev: Event)
    requires Enabled(c, s, ev) && !ev.Others? && (ev.e in s.execs ==> Fits(c, s.execs[ev.e]))
    requires ev.e in Next(c, s, ev).execs && Busy(Next(c, s, ev).execs[ev.e].pc)
    ensures Fits(c, Next(c, s, ev).execs[ev.e])
  {
    StaysAt(c, s, ev);
  }

  /** In every run, cancelled or not. */
  lemma {:induction false} FitsHolds(c: Config, r: Run, i: nat, e: int)
    requires IsRun(c, r) && r.ss[0].execs == map[] && i < |r.ss| && e in r.ss[i].execs
    ensures Fits(c, r.ss[i].execs[e])
  {
    if i > 0 {
      assert StepsAt(c, r, i - 1);
      if e in r.ss[i - 1].execs { FitsHolds(c, r, i - 1, e); }
      FitsStep(c, r.ss[i - 1], r.es[i - 1], e);
    }
  }

  // ---- what an event writes ------------------------------------------------------------

  /** The row an execution's event puts under number `k`. */
  ghost predicate Puts(c: Config, s: Sys, ev: Event, k: int, row: StepRow) {
    && WritesRow(ev) && At(c, s, ev.e)
    && var x, op := s.execs[ev.e], OpOf(c, s, ev.e);
       match ev
       case Record(_) => k == x.next && Named(row, op) && x.pc.Produced? && HoldsOutcome(row, x.pc.r)
       case Poll(_) =>
         && k == x.next && op.Recv? && Named(row, op)
         && row.output.Some? && NextMessage(s.db.notes, c.w, op.topic, row.output.value) && HoldsOutput(row, row.output.value)
       case RecordFound(_) => k == x.next && Named(row, op) && x.pc.Found? && HoldsOutput(row, x.pc.v)
       case Mark(_) => k == x.next && Named(row, op) && row.output == None && row.error == None && row.childId == None
       case Expire(_) => k == x.next && Named(row, op) && HoldsOutput(row, Null)
       case _ => k == x.next + 1 && Waits(op) && row.name == "DBOS.sleep" && HoldsOutput(row, Num(s.clock + TimeoutFor(op)))
  }

  lemma WritePuts(c: Config, s: Sys, at: int, row: StepRow, k: int)
    requires (c.w, k) !in s.db.steps && (c.w, k) in Write(c, s, at, row).db.steps
    ensures k == at && Stored(c, Write(c, s, at, row), k) == row
  {
  }

  lemma RecordPuts(c: Config, s: Sys, ev: Event, k: int)
    requires Enabled(c, s, ev) && ev.Record? && Fits(c, s.execs[ev.e])
    requires (c.w, k) !in s.db.steps && (c.w, k) in Next(c, s, ev).db.steps
    ensures Puts(c, s, ev, k, Stored(c, Next(c, s, ev), k))
  {
    var op, x := OpOf(c, s, ev.e), s.execs[ev.e];
    WritePuts(c, s, x.next, RowOf(op, x.pc.r), k);
  }

  lemma OthersPut(c: Config, s: Sys, ev: Event, k: int)
    requires Enabled(c, s, ev) && (ev.RecordFound? || ev.Mark? || ev.Expire?)
    requires (c.w, k) !in s.db.steps && (c.w, k) in Next(c, s, ev).db.steps
    ensures Puts(c, s, ev, k, Stored(c, Next(c, s, ev), k))
  {
    var op, x := OpOf(c, s, ev.e), s.execs[ev.e];
    match ev
    case RecordFound(_) => WritePuts(c, s, x.next, StepRowFor(OpName(op), x.pc.v, None), k);
    case Mark(_) => WritePuts(c, s, x.next, PatchRow(OpName(op)), k);
    case Expire(_) => WritePuts(c, s, x.next, StepRowFor(OpName(op), Null, None), k);
  }

  lemma DeadlinePuts(c: Config, s: Sys, e: int, k: int)
    requires Enabled(c, s, RecordDeadline(e)) && Fits(c, s.execs[e])
    requires (c.w, k) !in s.db.steps && (c.w, k) in DoRecordDeadline(c, s, e).db.steps
    ensures Puts(c, s, RecordDeadline(e), k, Stored(c, DoRecordDeadline(c, s, e), k))
  {
    WritePuts(c, s, s.execs[e].next + 1, StepRowFor("DBOS.sleep", Num(s.clock + TimeoutOf(OpOf(c, s, e))), None), k);
  }

  lemma PollPuts(c: Config, s: Sys, e: int, k: int)
    requires Enabled(c, s, Poll(e)) && (c.w, k) !in s.db.steps && (c.w, k) in DoPoll(c, s, e).db.steps
    ensures Puts(c, s, Poll(e), k, Stored(c, DoPoll(c, s, e), k))
  {
    PollWrites(c, s, e, k);
    var op := OpOf(c, s, e);
    var i := Oldest(s.db.notes, c.w, op.topic).value;
    SearchFindsOldest(s.db.notes, c.w, op.topic, i);
    assert Stored(c, DoPoll(c, s, e), k) == StepRow("DBOS.recv", Some(s.db.notes[i].message), None, None);
  }

  lemma NewRowIsPut(c: Config, s: Sys, ev: Event, k: int)
    requires Enabled(c, s, ev) && (!ev.Others? && ev.e in s.execs ==> Fits(c, s.execs[ev.e]))
    requires (c.w, k) !in s.db.steps && (c.w, k) in Next(c, s, ev).db.steps
    ensures Puts(c, s, ev, k, Stored(c, Next(c, s, ev), k))
  {
    if !WritesRow(ev) {
      OnlyTheseWrite(c, s, ev, k);
    } else {
      match ev
      case Record(_) => RecordPuts(c, s, ev, k);
      case Poll(e) => PollPuts(c, s, e, k);
      case RecordDeadline(e) => DeadlinePuts(c, s, e, k);
      case _ => OthersPut(c, s, ev, k);
    }
  }

  /** In every run, cancelled or not, with any number of executions: a row that was
      not there at the beginning was put there by an event of the run. */
  lemma {:induction false} RowWasPut(c: Config, r: Run, i: nat, k: int) returns (j: nat)
    requires IsRun(c, r) && r.ss[0].execs == map[] && i < |r.ss|
    requires (c.w, k) in r.ss[i].db.steps && (c.w, k) !in r.ss[0].db.steps
    ensures j < i && (c.w, k) !in r.ss[j].db.steps && (c.w, k) in r.ss[j + 1].db.steps
    ensures Puts(c, r.ss[j], r.es[j], k, Stored(c, r.ss[i], k))
  {
    assert StepsAt(c, r, i - 1);
    LogGrows(c, r, i - 1, i);
    if (c.w, k) in r.ss[i - 1].db.steps {
      j := RowWasPut(c, r, i - 1, k);
    } else {
      j := i - 1;
      var ev := r.es[j];
      if !ev.Others? && ev.e in r.ss[j].execs { FitsHolds(c, r, j, ev.e); }
      NewRowIsPut(c, r.ss[j], ev, k);
    }
  }

  // ---- where an outcome in hand comes from ------------------------------------------------

  /** Execution `e` is at the same operation at both moments. */
  ghost predicate SamePlace(r: Run, j: nat, i: nat, e: int) {
    && j < |r.ss| && i < |r.ss| && e in r.ss[j].execs && e in r.ss[i].execs
    && r.ss[j].execs[e].hist == r.ss[i].execs[e].hist && r.ss[j].execs[e].next == r.ss[i].execs[e].next
  }

  predicate InHand(pc: Pc) {
    pc.Produced? || pc.Found?
  }

  /** The event gave execution `e` the outcome it has in hand. */
  ghost predicate Gave(c: Config, s: Sys, ev: Event, e: int, pc: Pc) {
    && At(c, s, e)
    && match pc
       case Produced(x) => ev == ClosureEnds(e, x) || (x.Ok? && ev == Produce(e, x.v))
       case Found(v) =>
         ev == Poll(e) && OpOf(c, s, e).GetEvent?
         && var key := (OpOf(c, s, e).target, OpOf(c, s, e).key); key in s.db.events && s.db.events[key] == v
       case _ => false
  }

  lemma InHandStep(c: Config, s: Sys, ev: Event, e: int)
    requires Enabled(c, s, ev) && e in Next(c, s, ev).execs && InHand(Next(c, s, ev).execs[e].pc)
    ensures e in s.execs
    ensures var x, x' := s.execs[e], Next(c, s, ev).execs[e];
            && x'.hist == x.hist && x'.next == x.next
            && (x.pc == x'.pc || Gave(c, s, ev, e, x'.pc))
  {
    if ev.Others? || ev.e != e { OtherExecsStay(c, s, ev, e); } else { StaysAt(c, s, ev); }
  }

  lemma {:induction false} OutcomeWasGiven(c: Config, r: Run, i: nat, e: int) returns (j: nat)
    requires IsRun(c, r) && r.ss[0].execs == map[] && i < |r.ss| && e in r.ss[i].execs && InHand(r.ss[i].execs[e].pc)
    ensures j < i && SamePlace(r, j, i, e) && Gave(c, r.ss[j], r.es[j], e, r.ss[i].execs[e].pc)
  {
    assert StepsAt(c, r, i - 1);
    InHandStep(c, r.ss[i - 1], r.es[i - 1], e);
    j := i - 1;
    if r.ss[j].execs[e].pc == r.ss[i].execs[e].pc { j := OutcomeWasGiven(c, r, i - 1, e); }
  }

  // ---- rows and their origins -----------------------------------------------------------------

  /** Event `j`, of an execution at operation `op` under number `k`, brought about
      what the row holds: the closure returned it, the clock or the generator gave
      it, the message was the next one waiting, the event had this value, the wait
      timed out, or the patch point was marked. */
  ghost predicate Origin(c: Config, r: Run, j: nat, k: int, op: Operation, row: StepRow) {
    && j < |r.es| && j < |r.ss| && !r.es[j].Others? && At(c, r.ss[j], r.es[j].e)
    && OpOf(c, r.ss[j], r.es[j].e) == op && r.ss[j].execs[r.es[j].e].next == k && Named(row, op)
    && var s, ev := r.ss[j], r.es[j];
       match op
       case Step(_) => ev.ClosureEnds? && HoldsOutcome(row, ev.r)
       case Draw(_) => ev.Produce? && HoldsOutput(row, ev.v)
       case Sleep(ms) => ev.Produce? && HoldsOutput(row, Num(s.clock + ms))
       case Recv(topic, _) =>
         || (ev.Expire? && HoldsOutput(row, Null))
         || (ev.Poll? && row.output.Some? && HoldsOutput(row, row.output.value)
             && NextMessage(s.db.notes, c.w, topic, row.output.value))
       case GetEvent(target, key, _) =>
         || (ev.Expire? && HoldsOutput(row, Null))
         || (ev.Poll? && (target, key) in s.db.events && HoldsOutput(row, s.db.events[(target, key)]))
       case Patch(_) => ev.Mark? && row.output == None && row.error == None && row.childId == None
  }

  /** From the event that put the row back to its origin. */
  lemma OriginOfPut(c: Config, r: Run, i: nat, k: int, row: StepRow) returns (j: nat)
    requires IsRun(c, r) && r.ss[0].execs == map[] && i < |r.es| && Puts(c, r.ss[i], r.es[i], k, row)
    requires !r.es[i].RecordDeadline?
    ensures j <= i && Origin(c, r, j, k, OpOf(c, r.ss[i], r.es[i].e), row)
  {
    var ev, e := r.es[i], r.es[i].e;
    assert StepsAt(c, r, i);
    FitsHolds(c, r, i, e);
    j := i;
    if ev.Record? || ev.RecordFound? {
      j := OutcomeWasGiven(c, r, i, e);
      assert StepsAt(c, r, j);
      FitsHolds(c, r, j, e);
      GivenIsOrigin(c, r, j, i, k, row);
    }
  }

  lemma GivenIsOrigin(c: Config, r: Run, j: nat, i: nat, k: int, row: StepRow)
    requires IsRun(c, r) && j < i < |r.es| && (r.es[i].Record? || r.es[i].RecordFound?)
    requires Puts(c, r.ss[i], r.es[i], k, row) && Fits(c, r.ss[i].execs[r.es[i].e]) && StepsAt(c, r, j)
    requires SamePlace(r, j, i, r.es[i].e) && Gave(c, r.ss[j], r.es[j], r.es[i].e, r.ss[i].execs[r.es[i].e].pc)
    requires Fits(c, r.ss[j].execs[r.es[i].e])
    ensures Origin(c, r, j, k, OpOf(c, r.ss[i], r.es[i].e), row)
  {
  }

  /** In every run of any number of executions, crashes, late timeouts and
      cancellations included: every row recorded since its beginning either is the
      deadline of a wait, the clock when it was fixed plus the timeout, or has its
      origin in an event of the run. */
  lemma RowHasOrigin(c: Config, r: Run, i: nat, k: int) returns (j: nat, at: nat)
    requires IsRun(c, r) && r.ss[0].execs == map[] && i < |r.ss|
    requires (c.w, k) in r.ss[i].db.steps && (c.w, k) !in r.ss[0].db.steps
    ensures at < i && !r.es[at].Others? && At(c, r.ss[at], r.es[at].e) && Puts(c, r.ss[at], r.es[at], k, Stored(c, r.ss[i], k))
    ensures !r.es[at].RecordDeadline? ==>
              j <= at && Origin(c, r, j, k, OpOf(c, r.ss[at], r.es[at].e), Stored(c, r.ss[i], k))
  {
    at := RowWasPut(c, r, i, k);
    j := at;
    if !r.es[at].RecordDeadline? { j := OriginOfPut(c, r, at, k, Stored(c, r.ss[i], k)); }
  }

  // ---- observations and their origins ----------------------------------------------------------

  /** What a body observes of the operation whose row the event brought about. */
  ghost predicate Observed(c: Config, s: Sys, ev: Event, op: Operation, o: Obs) {
    match op
    case Step(_) => ev.ClosureEnds? && o == (if ev.r.Ok? then Returned(ev.r.v) else Failed)
    case Draw(_) => ev.Produce? && o == Returned(ev.v)
    case Sleep(_) => ev.Produce? && o == Returned(Null)
    case Recv(topic, _) =>
      || (ev.Expire? && o == Nothing)
      || (ev.Poll? && o == Nothing && NextMessage(s.db.notes, c.w, topic, Null))
      || (ev.Poll? && o.Got? && o.v != Null && NextMessage(s.db.notes, c.w, topic, o.v))
    case GetEvent(target, key, _) =>
      || (ev.Expire? && o == Nothing)
      || (ev.Poll? && (target, key) in s.db.events
          && o == if s.db.events[(target, key)] == Null then Nothing else Got(s.db.events[(target, key)]))
    case Patch(_) => ev.Mark? && o == Branch(true)
  }

  lemma OriginObserved(c: Config, r: Run, j: nat, k: int, op: Operation, row: StepRow)
    requires IsRun(c, r) && Origin(c, r, j, k, op, row) && StepsAt(c, r, j)
    ensures Observed(c, r.ss[j], r.es[j], op, View(Replayed(op, row)))
  {
  }

  /** The row an execution has observed at position `n` was put there by one at the
      same operation. */
  lemma PutAtSameOperation(c: Config, r: Run, at: nat, i: nat, k: int, h: seq<Obs>)
    requires GoodRun(c, r) && at < i < |r.ss| && (c.w, k) !in r.ss[at].db.steps
    requires (c.w, k) in r.ss[i].db.steps && Puts(c, r.ss[at], r.es[at], k, Stored(c, r.ss[i], k))
    requires (c.w, k) in r.ss[at + 1].db.steps
    requires Path(c.w, c.body, r.ss[i].db.steps, h) && c.body(h).Do? && SlotAfter(c.body, h) == k
    ensures h == Views(r.ss[at].execs[r.es[at].e].hist) && !r.es[at].RecordDeadline?
  {
    assert StepsAt(c, r, at);
    InvHolds(c, r, at);
    InvHolds(c, r, at + 1);
    LogGrows(c, r, at, at + 1);
    LogGrows(c, r, at + 1, i);
    PathToOldRow(c.w, c.body, r.ss[at + 1].db.steps, r.ss[i].db.steps, k, h);
    var x := r.ss[at].execs[r.es[at].e];
    assert ExecOk(c, r.ss[at].db.steps, x);
    NewRowIsOfWriter(c.w, c.body, r.ss[at].db.steps, r.ss[at + 1].db.steps, k, h, Views(x.hist));
  }

  /** In every run of any number of executions without late timeouts: whatever an
      execution has observed at a number not recorded before the run, an event of
      the run, of an execution at the same operation under the same number,
      brought about. A step's value is one its closure returned, a message one that
      was next in the mailbox, an event's value one it had. */
  lemma ObservationHasOrigin(c: Config, r: Run, i: nat, e: int, n: nat) returns (j: nat)
    requires GoodRun(c, r) && i < |r.ss| && e in r.ss[i].execs && n < |r.ss[i].execs[e].hist|
    requires (c.w, SlotAfter(c.body, Views(r.ss[i].execs[e].hist)[..n])) !in r.ss[0].db.steps
    ensures var h := Views(r.ss[i].execs[e].hist);
            && c.body(h[..n]).Do? && j < i && !r.es[j].Others? && At(c, r.ss[j], r.es[j].e)
            && OpOf(c, r.ss[j], r.es[j].e) == c.body(h[..n]).op
            && r.ss[j].execs[r.es[j].e].next == SlotAfter(c.body, h[..n])
            && Observed(c, r.ss[j], r.es[j], c.body(h[..n]).op, View(r.ss[i].execs[e].hist[n]))
  {
    var h := Views(r.ss[i].execs[e].hist);
    InvHolds(c, r, i);
    assert ExecOk(c, r.ss[i].db.steps, r.ss[i].execs[e]);
    PathStep(c.w, c.body, r.ss[i].db.steps, h, n);
    ViewsAt(r.ss[i].execs[e].hist, n);
    var k := SlotAfter(c.body, h[..n]);
    var at := RowWasPut(c, r, i, k);
    PutAtSameOperation(c, r, at, i, k, h[..n]);
    j := OriginOfPut(c, r, at, k, Stored(c, r.ss[i], k));
    assert StepsAt(c, r, j);
    OriginObserved(c, r, j, k, c.body(h[..n]).op, Stored(c, r.ss[i], k));
  }

  // ---- timeouts ------------------------------------------------------------------------------------

  /** In every run, however often the workflow crashes and is executed again: a wait
      whose deadline was not recorded before times out no earlier than its timeout
      after an execution, at the same operation, first found nothing. */
  lemma TimesOutInTime(c: Config, r: Run, i: nat, e: int) returns (j: nat)
    requires GoodRun(c, r) && i < |r.es| && r.es[i] == Expire(e) && At(c, r.ss[i], e)
    requires (c.w, r.ss[i].execs[e].next + 1) !in r.ss[0].db.steps
    ensures j < i && r.es[j].RecordDeadline? && At(c, r.ss[j], r.es[j].e)
    ensures var op := OpOf(c, r.ss[i], e);
            && OpOf(c, r.ss[j], r.es[j].e) == op && r.ss[j].execs[r.es[j].e].next == r.ss[i].execs[e].next
            && r.ss[i].clock >= r.ss[j].clock + TimeoutFor(op)
  {
    assert StepsAt(c, r, i);
    TimeoutsKeepDeadline(c, r, 0, i, e);
    var x := r.ss[i].execs[e];
    j := RowWasPut(c, r, i, x.next + 1);
    InvHolds(c, r, i);
    InvHolds(c, r, j);
    assert StepsAt(c, r, j);
    assert ExecOk(c, r.ss[i].db.steps, x);
    var y := r.ss[j].execs[r.es[j].e];
    assert ExecOk(c, r.ss[j].db.steps, y);
    LogGrows(c, r, j, i);
    PathGrows(c.w, c.body, r.ss[j].db.steps, r.ss[i].db.steps, Views(y.hist));
    DeadlineWriterIsThere(c, r.ss[i].db.steps, x, y, r.es[j].RecordDeadline?);
  }

  /** Who wrote the row after a wait's own number was at that wait. */
  lemma DeadlineWriterIsThere(c: Config, log: Log, x: Exec, y: Exec, deadline: bool)
    requires OnPath(c, log, x) && NextAction(c, x).Do? && Waits(NextAction(c, x).op)
    requires Path(c.w, c.body, log, Views(y.hist)) && y.next == SlotAfter(c.body, Views(y.hist)) && NextAction(c, y).Do?
    requires deadline ==> Waits(NextAction(c, y).op)
    requires x.next + 1 == if deadline then y.next + 1 else y.next
    ensures deadline && Views(x.hist) == Views(y.hist)
  {
    var h, g := Views(x.hist), Views(y.hist);
    if |h| < |g| {
      PastOperation(c.w, c.body, log, h, g);
    } else if |g| == |h| {
      SameLength(c.w, c.body, log, h, g);
    } else if deadline {
      PastOperation(c.w, c.body, log, g, h);
    } else {
      PathsAgree(c.w, c.body, log, g, h);
      SlotsIncrease(c.w, c.body, log, h, |g|);
    }
  }

  // ---- what one call returns --------------------------------------------------------------------------

  /** Recording under a free number: the row is the outcome in hand, and the body
      gets exactly that outcome (from a sleep, nothing). */
  lemma RecordGives(c: Config, s: Sys, e: int)
    requires Enabled(c, s, Record(e)) && Fits(c, s.execs[e]) && (c.w, s.execs[e].next) !in s.db.steps
    ensures var s', x := Next(c, s, Record(e)), s.execs[e];
            && (c.w, x.next) in s'.db.steps && Puts(c, s, Record(e), x.next, Stored(c, s', x.next))
            && s'.execs[e].hist == x.hist + [if OpOf(c, s, e).Sleep? then Ok(Null) else x.pc.r]
            && s'.execs[e].next == x.next + 1
  {
    RecordPuts(c, s, Record(e), s.execs[e].next);
  }

  /** A lookup changes nothing but the execution. It returns what the row holds,
      or finds it to be another operation's; without a row, a step or a wait goes
      on to check for cancellation, and anything else to work. */
  lemma LookGives(c: Config, s: Sys, e: int)
    requires Enabled(c, s, Look(e))
    ensures var s', x, op := Next(c, s, Look(e)), s.execs[e], OpOf(c, s, e); var x' := s'.execs[e];
            && s' == s.(execs := s.execs[e := x'])
            && if (c.w, x.next) !in s.db.steps then
                 x' == x.(pc := if op.Step? || op.Recv? || op.GetEvent? then Missed else Ready)
               else if op.Patch? || Named(Stored(c, s, x.next), op) then
                 x'.pc == Idle && |x'.hist| == |x.hist| + 1 && x'.hist[..|x.hist|] == x.hist
                 && ReadBack(op, Stored(c, s, x.next), x'.hist[|x.hist|])
               else x' == x.(pc := Diverged)
  {
  }

  /** A cancelled workflow's step or wait is refused, with nothing recorded. */
  lemma RefusalGives(c: Config, s: Sys, e: int)
    requires Enabled(c, s, CheckStatus(e)) && IsCancelled(s.db, c.w)
    ensures var s', x := Next(c, s, CheckStatus(e)), s.execs[e];
            s'.db == s.db && s'.execs[e].hist == x.hist + [Err(Cancellation(c.w))] && s'.execs[e].pc == Idle
  {
  }
}
