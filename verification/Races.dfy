/** Runs of two executions of one workflow that show why the theorems about
    several executions have their exceptions: one receives a message while the
    other times out, and both receive under one number. */
module Races {
  import opened Types
  import opened Store
  import opened Replay
  import opened Execution
  import opened ReplayTheorems
  import Mailbox
  import Rows

  // ---- building runs ---------------------------------------------------------------

  function Last(r: Run): Sys
    requires r.ss != []
  {
    r.ss[|r.ss| - 1]
  }

  /** A run from `s` in which the workflow is never cancelled. */
  ghost predicate RunFrom(c: Config, s: Sys, r: Run) {
    IsRun(c, r) && NeverCancelled(c, r) && r.ss[0] == s
  }

  predicate NoTimeout(r: Run) {
    forall i :: 0 <= i < |r.es| ==> !r.es[i].Expire?
  }

  lemma Extend(c: Config, s: Sys, r: Run, ev: Event) returns (r': Run)
    requires RunFrom(c, s, r) && Enabled(c, Last(r), ev) && !IsCancelled(Next(c, Last(r), ev).db, c.w)
    ensures RunFrom(c, s, r') && Last(r') == Next(c, Last(r), ev)
    ensures NoTimeout(r) && !ev.Expire? ==> NoTimeout(r')
  {
    var n := |r.es|;
    r' := Run(r.ss + [Next(c, Last(r), ev)], r.es + [ev]);
    forall i: nat | i < |r'.es| ensures StepsAt(c, r', i) {
      if i < n { assert StepsAt(c, r, i); }
    }
  }

  // ---- the race -----------------------------------------------------------------------

  /** Wait for one message, for at most `t`, then return. */
  function WaitOnce(topic: string, t: int): Body {
    h => if h == [] then Do(Recv(topic, t)) else Return(Null)
  }

  ghost predicate Quiet(c: Config, db: Db, topic: string) {
    && (forall k :: (c.w, k) !in db.steps) && !IsCancelled(db, c.w)
    && Oldest(db.notes, c.w, topic).None?
  }

  /** An execution starts and gets as far as its first look into the mailbox. */
  lemma StartsWaiting(c: Config, s: Sys, r: Run, e: int, topic: string, t: int) returns (r': Run)
    requires RunFrom(c, s, r) && c.body == WaitOnce(topic, t) && !c.solo
    requires e !in Last(r).execs && (c.w, 0) !in Last(r).db.steps
    ensures RunFrom(c, s, r') && (NoTimeout(r) ==> NoTimeout(r'))
    ensures Last(r') == Last(r).(execs := Last(r).execs[e := Exec([], 0, Polling(None))])
  {
    var s0 := Last(r);
    assert s0 == r.ss[|r.ss| - 1] && !IsCancelled(s0.db, c.w);
    r' := Extend(c, s, r, Start(e));
    r' := Extend(c, s, r', Look(e));
    assert Last(r').execs[e] == Exec([], 0, Missed);
    r' := Extend(c, s, r', CheckStatus(e));
  }

  /** It finds nothing, and no deadline either. */
  lemma FindsNothing(c: Config, s: Sys, r: Run, e: int, topic: string, t: int) returns (r': Run)
    requires RunFrom(c, s, r) && c.body == WaitOnce(topic, t)
    requires e in Last(r).execs && Last(r).execs[e] == Exec([], 0, Polling(None)) && Quiet(c, Last(r).db, topic)
    ensures RunFrom(c, s, r')
    ensures Last(r') == SetPc(Last(r), e, FixDeadline)
  {
    r' := Extend(c, s, r, Poll(e));
    assert Last(r') == SetPc(Last(r), e, NeedDeadline);
    r' := Extend(c, s, r', ReadDeadline(e));
  }

  /** It fixes its deadline. */
  lemma FixesDeadline(c: Config, s: Sys, r: Run, e: int, topic: string, t: int) returns (r': Run)
    requires RunFrom(c, s, r) && c.body == WaitOnce(topic, t)
    requires e in Last(r).execs && Last(r).execs[e] == Exec([], 0, FixDeadline) && Quiet(c, Last(r).db, topic)
    ensures RunFrom(c, s, r')
    ensures var s0, row := Last(r), StepRowFor("DBOS.sleep", Num(Last(r).clock + t), None);
            Last(r') == SetPc(s0.(db := s0.db.(steps := s0.db.steps[(c.w, 1) := row])), e, Execution.Waiting(s0.clock + t))
  {
    r' := Extend(c, s, r, RecordDeadline(e));
  }

  /** An execution at its first look takes the only message that waits; it gets
      what the row under its number then holds. */
  lemma Receives(c: Config, s: Sys, r: Run, topic: string, t: int, notes: seq<Note>, n: Note, e: int) returns (r': Run)
    requires RunFrom(c, s, r) && c.body == WaitOnce(topic, t) && !IsCancelled(Last(r).db, c.w)
    requires Last(r).db.notes == notes + [n] && Oldest(notes + [n], c.w, topic) == Some(|notes|)
    requires e in Last(r).execs && Last(r).execs[e] == Exec([], 0, Polling(None))
    requires (c.w, 0) in Last(r).db.steps ==> Last(r).db.steps[(c.w, 0)].output.Some?
    ensures RunFrom(c, s, r') && (NoTimeout(r) ==> NoTimeout(r'))
    ensures var s0 := Last(r);
            var row := if (c.w, 0) in s0.db.steps then s0.db.steps[(c.w, 0)] else StepRow("DBOS.recv", Some(n.message), None, None);
            Last(r') == s0.(db := s0.db.(notes := notes + [n.(consumed := true)], steps := s0.db.steps[(c.w, 0) := row]),
                            execs := s0.execs[e := Exec([Msg(row.output)], 2, Idle)])
  {
    var s0 := Last(r);
    var row := if (c.w, 0) in s0.db.steps then s0.db.steps[(c.w, 0)] else StepRow("DBOS.recv", Some(n.message), None, None);
    assert (c.w, 0) in s0.db.steps ==> s0.db.steps == s0.db.steps[(c.w, 0) := row];
    assert (notes + [n])[|notes| := n.(consumed := true)] == notes + [n.(consumed := true)];
    assert [] + [Msg(row.output)] == [Msg(row.output)];
    r' := Extend(c, s, r, Poll(e));
    assert Last(r').execs[e] == Exec([Msg(row.output)], 2, Idle);
    assert Last(r').db == s0.db.(notes := notes + [n.(consumed := true)], steps := s0.db.steps[(c.w, 0) := row]);
  }

  /** A message arrives as the time runs out; one execution takes it, then the other
      times out. */
  lemma ReceivesAndExpires(c: Config, s: Sys, r: Run, topic: string, t: int, n: Note) returns (r': Run)
    requires RunFrom(c, s, r) && c.body == WaitOnce(topic, t) && Store.Waiting(n, c.w, topic)
    requires var s0 := Last(r);
             && (c.w, 0) !in s0.db.steps && Oldest(s0.db.notes, c.w, topic).None?
             && 0 in s0.execs && s0.execs[0] == Exec([], 0, Polling(None))
             && 1 in s0.execs && s0.execs[1] == Exec([], 0, Execution.Waiting(s0.clock + t))
    ensures RunFrom(c, s, r') && 0 in Last(r').execs && 1 in Last(r').execs
    ensures Last(r').execs[0].hist == [Msg(Some(n.message))] && Last(r').execs[1].hist == [Msg(None)]
  {
    var s0 := Last(r);
    assert s0 == r.ss[|r.ss| - 1] && !IsCancelled(s0.db, c.w);
    OnlyWaiting(s0.db.notes, n, c.w, topic);
    r' := Extend(c, s, r, Others(s0.db.(notes := s0.db.notes + [n]), s0.clock + Max(t, 0)));
    r' := Receives(c, s, r', topic, t, s0.db.notes, n, 0);
    r' := Extend(c, s, r', Expire(1));
  }

  lemma OnlyWaiting(notes: seq<Note>, n: Note, id: Id, topic: string)
    requires Oldest(notes, id, topic).None? && Store.Waiting(n, id, topic)
    ensures Oldest(notes + [n], id, topic) == Some(|notes|)
  {
    OldestOfPrefix(notes, [n], id, topic, |notes|);
  }

  lemma {:induction false} OldestOfPrefix(a: seq<Note>, b: seq<Note>, id: Id, topic: string, k: nat)
    requires k <= |a|
    ensures OldestAmong(a + b, id, topic, k) == OldestAmong(a, id, topic, k)
  {
    if k > 0 { OldestOfPrefix(a, b, id, topic, k - 1); }
  }

  /** From any quiet store, whatever the timeout: a run, never cancelled, after which the two executions
      disagree about what their first operation returned. */
  lemma ReceiveRacesTimeout(w: Id, topic: string, t: int, db: Db, clock: int, n: Note) returns (c: Config, r: Run)
    requires Store.Waiting(n, w, topic) && n.message != Null
    requires Quiet(Config(w, WaitOnce(topic, t), false), db, topic)
    ensures c == Config(w, WaitOnce(topic, t), false) && IsRun(c, r) && NeverCancelled(c, r) && Begins(c, r.ss[0])
    ensures 0 in Last(r).execs && 1 in Last(r).execs && !Agree(c, Last(r).execs[0], Last(r).execs[1])
  {
    c := Config(w, WaitOnce(topic, t), false);
    var s := Sys(db, clock, map[], map[], map[]);
    r := Run([s], []);
    r := StartsWaiting(c, s, r, 1, topic, t);
    r := FindsNothing(c, s, r, 1, topic, t);
    r := FixesDeadline(c, s, r, 1, topic, t);
    r := StartsWaiting(c, s, r, 0, topic, t);
    r := ReceivesAndExpires(c, s, r, topic, t, n);
    assert View(Last(r).execs[0].hist[0]) != View(Last(r).execs[1].hist[0]);
  }

  // ---- two receives under one number -----------------------------------------------------

  lemma {:induction false} NoneWaits(notes: seq<Note>, id: Id, topic: string, k: nat)
    requires k <= |notes| && forall i :: 0 <= i < k ==> !Store.Waiting(notes[i], id, topic)
    ensures OldestAmong(notes, id, topic, k).None?
  {
    if k > 0 { NoneWaits(notes, id, topic, k - 1); }
  }

  /** Once taken, the message waits no more. */
  lemma TakenWaitsNoMore(notes: seq<Note>, n: Note, id: Id, topic: string)
    requires Oldest(notes, id, topic).None? && n.consumed
    ensures Oldest(notes + [n], id, topic).None?
  {
    forall i | 0 <= i < |notes| ensures !Store.Waiting(notes[i], id, topic) {
      if Store.Waiting(notes[i], id, topic) { Rows.PicksAnOldest(notes, id, topic, |notes|, i); }
    }
    NoneWaits(notes + [n], id, topic, |notes| + 1);
  }

  /** A message arrives and an execution takes it. */
  lemma SendAndReceive(c: Config, s: Sys, r: Run, topic: string, t: int, n: Note, e: int) returns (r': Run)
    requires RunFrom(c, s, r) && c.body == WaitOnce(topic, t) && Store.Waiting(n, c.w, topic)
    requires Oldest(Last(r).db.notes, c.w, topic).None?
    requires e in Last(r).execs && Last(r).execs[e] == Exec([], 0, Polling(None))
    requires (c.w, 0) in Last(r).db.steps ==> Last(r).db.steps[(c.w, 0)].output.Some?
    ensures RunFrom(c, s, r') && (NoTimeout(r) ==> NoTimeout(r'))
    ensures var s0 := Last(r);
            var row := if (c.w, 0) in s0.db.steps then s0.db.steps[(c.w, 0)] else StepRow("DBOS.recv", Some(n.message), None, None);
            && Last(r').db == s0.db.(notes := s0.db.notes + [n.(consumed := true)], steps := s0.db.steps[(c.w, 0) := row])
            && Last(r').execs == s0.execs[e := Exec([Msg(row.output)], 2, Idle)]
            && Oldest(Last(r').db.notes, c.w, topic).None?
  {
    var s0 := Last(r);
    assert s0 == r.ss[|r.ss| - 1] && !IsCancelled(s0.db, c.w);
    OnlyWaiting(s0.db.notes, n, c.w, topic);
    r' := Extend(c, s, r, Others(s0.db.(notes := s0.db.notes + [n]), s0.clock));
    r' := Receives(c, s, r', topic, t, s0.db.notes, n, e);
    TakenWaitsNoMore(s0.db.notes, n.(consumed := true), c.w, topic);
  }

  /** From any quiet store: a run without timeouts and cancellation in which the
      second of two executions consumes a message it does not return. Afterwards
      that message is consumed, and no row of the workflow holds it. */
  lemma ReceiveRacesReceive(w: Id, topic: string, t: int, db: Db, clock: int, n: Note, n': Note) returns (c: Config, r: Run)
    requires Store.Waiting(n, w, topic) && Store.Waiting(n', w, topic) && n.message != n'.message
    requires Quiet(Config(w, WaitOnce(topic, t), false), db, topic)
    ensures c == Config(w, WaitOnce(topic, t), false) && GoodRun(c, r)
    ensures Last(r).db.notes == db.notes + [n.(consumed := true), n'.(consumed := true)]
    ensures forall k :: !Mailbox.RowHolds(c, Last(r), k, n'.message)
  {
    c := Config(w, WaitOnce(topic, t), false);
    var s := Sys(db, clock, map[], map[], map[]);
    r := Run([s], []);
    r := StartsWaiting(c, s, r, 0, topic, t);
    r := StartsWaiting(c, s, r, 1, topic, t);
    r := SendAndReceive(c, s, r, topic, t, n, 0);
    r := SendAndReceive(c, s, r, topic, t, n', 1);
    assert db.notes + [n.(consumed := true)] + [n'.(consumed := true)]
        == db.notes + [n.(consumed := true), n'.(consumed := true)];
    assert TimeoutsFit(c, r);
  }
}
