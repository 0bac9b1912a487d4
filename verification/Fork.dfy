/** Forking: the copy's log is the original's below the start step, so a replay
    of the copy takes the original's path up to there. */
module ForkReplay {
  import opened Types
  import opened Store
  import opened Replay
  import opened Execution
  import opened ReplayTheorems

  ghost predicate SameBelow(w: Id, w': Id, log: Log, log': Log, start: int) {
    forall k :: k < start ==>
      ((w, k) in log <==> (w', k) in log') && ((w, k) in log ==> log'[(w', k)] == log[(w, k)])
  }

  /** Every operation on the path took a number below `start`. */
  predicate StaysBelow(body: Body, h: seq<Obs>, start: int) {
    h == [] || SlotAfter(body, h[..|h| - 1]) < start
  }

  lemma {:induction false} PathCarriesOver(w: Id, w': Id, body: Body, log: Log, log': Log, start: int, h: seq<Obs>)
    requires Path(w, body, log, h) && StaysBelow(body, h, start) && SameBelow(w, w', log, log', start)
    ensures Path(w', body, log', h)
  {
    if h != [] {
      var init := h[..|h| - 1];
      if init != [] { SlotsIncrease(w, body, log, init, |init| - 1); }
      PathCarriesOver(w, w', body, log, log', start, init);
    }
  }

  /** The copy's log: the original's below the start step, and whatever rows the
      id had before. */
  lemma ForkLog(db: Db, p: ForkParams, createdAt: int, k: int)
    requires p.originalId in db.workflows && p.newId != p.originalId
    ensures var steps, steps' := db.steps, Fork(db, p, createdAt).steps;
            && ((p.newId, k) in steps' <==> (p.newId, k) in steps || (k < p.startStep && (p.originalId, k) in steps))
            && (k < p.startStep && (p.originalId, k) in steps ==> steps'[(p.newId, k)] == steps[(p.originalId, k)])
  {
  }

  ghost predicate FreshId(db: Db, id: Id) {
    id !in db.workflows && forall k :: (id, k) !in db.steps
  }

  lemma ForkSameBelow(db: Db, p: ForkParams, createdAt: int)
    requires p.originalId in db.workflows && FreshId(db, p.newId)
    ensures SameBelow(p.originalId, p.newId, db.steps, Fork(db, p, createdAt).steps, p.startStep)
    ensures forall k :: (p.newId, k) in Fork(db, p, createdAt).steps ==> k < p.startStep
  {
    forall k { ForkLog(db, p, createdAt, k); }
  }

  /** A fork under a fresh id leaves the original's log alone, and the copy's log
      is one its body wrote: replaying it meets no foreign row. */
  lemma ForkIsReplayable(db: Db, p: ForkParams, createdAt: int, body: Body)
    requires p.originalId in db.workflows && FreshId(db, p.newId) && Written(p.originalId, body, db.steps)
    ensures Written(p.newId, body, Fork(db, p, createdAt).steps)
    ensures LogKept(p.originalId, db, Fork(db, p, createdAt))
  {
    var log' := Fork(db, p, createdAt).steps;
    ForkSameBelow(db, p, createdAt);
    forall k | HasRow(p.newId, log', k) ensures exists h :: Writer(p.newId, body, log', k, h) {
      assert HasRow(p.originalId, db.steps, k);
      var h :| Writer(p.originalId, body, db.steps, k, h);
      if h != [] { SlotsIncrease(p.originalId, body, db.steps, h, |h| - 1); }
      PathCarriesOver(p.originalId, p.newId, body, db.steps, log', p.startStep, h);
      assert Writer(p.newId, body, log', k, h);
    }
  }

  /** The runs of the copy. */
  ghost predicate ForkRun(db: Db, p: ForkParams, createdAt: int, c: Config, r: Run) {
    && p.originalId in db.workflows && FreshId(db, p.newId) && c.w == p.newId
    && Written(p.originalId, c.body, db.steps)
    && IsRun(c, r) && NeverCancelled(c, r) && (c.solo || TimeoutsFit(c, r))
    && r.ss[0] == Sys(Fork(db, p, createdAt), r.ss[0].clock, map[], map[], map[])
  }

  lemma ForkRunIsGood(db: Db, p: ForkParams, createdAt: int, c: Config, r: Run)
    requires ForkRun(db, p, createdAt, c, r)
    ensures GoodRun(c, r)
  {
    ForkIsReplayable(db, p, createdAt, c.body);
  }

  /** In every run of the copy, every execution observes the original's recorded
      outcome at each number below the start step that the original recorded. */
  lemma ForkReplaysOriginal(db: Db, p: ForkParams, createdAt: int, c: Config, r: Run, i: nat, e: int, n: nat)
    requires ForkRun(db, p, createdAt, c, r)
    requires i < |r.ss| && e in r.ss[i].execs && n < |r.ss[i].execs[e].hist|
    ensures !r.ss[i].execs[e].pc.Diverged?
    ensures var h := Views(r.ss[i].execs[e].hist); var k := SlotAfter(c.body, h[..n]);
            k < p.startStep && (p.originalId, k) in db.steps && c.body(h[..n]).Do? ==>
              h[n] == View(Replayed(c.body(h[..n]).op, db.steps[(p.originalId, k)]))
  {
    ForkRunIsGood(db, p, createdAt, c, r);
    InvHolds(c, r, i);
    LogGrows(c, r, 0, i);
    var h := Views(r.ss[i].execs[e].hist);
    PathStep(c.w, c.body, r.ss[i].db.steps, h, n);
    ForkLog(db, p, createdAt, SlotAfter(c.body, h[..n]));
  }

  /** And from the start step on the work is done again: a step the copy has
      recorded there had its closure started by the copy, whatever the original
      had recorded. */
  lemma RerunsFromStart(db: Db, p: ForkParams, createdAt: int, c: Config, r: Run, i: nat, k: int, h: seq<Obs>)
    requires ForkRun(db, p, createdAt, c, r) && i < |r.ss|
    requires k >= p.startStep && StepRecorded(c, r.ss[i].db.steps, k, h)
    ensures Count(r.ss[i].started, k) >= 1
  {
    ForkRunIsGood(db, p, createdAt, c, r);
    RecordedWasRun(c, r, i);
    ForkLog(db, p, createdAt, k);
  }
}
