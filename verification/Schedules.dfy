/** Cron schedules: the ticks of an interval, launching each tick once, and
    keeping one firing loop per schedule. */
module CronTicks {
  import opened Types

  /** The least tick strictly after an instant, if there is one. */
  type NextTick = int -> Option<int>

  ghost predicate IsNextTick(tick: int -> bool, next: NextTick) {
    forall t :: match next(t)
                case None => forall u :: u > t ==> !tick(u)
                case Some(n) => n > t && tick(n) && forall u :: t < u < n ==> !tick(u)
  }

  /** `out` are the ticks strictly between `start` and `end`, in order. */
  ghost predicate TicksBetween(tick: int -> bool, start: int, end: int, out: seq<int>) {
    && (forall i, j :: 0 <= i < j < |out| ==> out[i] < out[j])
    && (forall t :: t in out <==> start < t < end && tick(t))
  }

  /** Follow the cron expression from tick to tick. */
  method CronTicksBetween(ghost tick: int -> bool, next: NextTick, start: int, end: int) returns (out: seq<int>)
    requires IsNextTick(tick, next)
    ensures TicksBetween(tick, start, end, out)
  {
    out := [];
    var cursor := start;
    while true
      invariant start <= cursor && (out != [] ==> cursor == out[|out| - 1] && cursor < end)
      invariant out == [] ==> cursor == start
      invariant TicksBetween(tick, start, cursor + 1, out)
      decreases if cursor < end then end - cursor else 0
    {
      var n := next(cursor);
      if n.None? || n.value >= end { break; }
      assert forall t :: start < t < n.value + 1 && tick(t) ==> t <= cursor || t == n.value;
      out := out + [n.value];
      cursor := n.value;
    }
    assert forall t :: cursor < t < end ==> !tick(t);
  }

  /** The ticks a schedule catches up with when its loop is installed: none if it
      never fired; otherwise it begins strictly after the last fired tick plus one
      second, so a tick in that second is left out. */
  method AutomaticBackfill(ghost tick: int -> bool, next: NextTick, lastFired: Option<int>, now: int) returns (out: seq<int>)
    requires IsNextTick(tick, next)
    ensures lastFired.None? ==> out == []
    ensures lastFired.Some? ==> TicksBetween(tick, lastFired.value + 1000, now, out)
    ensures lastFired.Some? ==>
              forall t :: tick(t) && lastFired.value < t < now ==> (t in out <==> t > lastFired.value + 1000)
  {
    if lastFired.None? { return []; }
    var start := lastFired.value + 1000;
    if start < now { out := CronTicksBetween(tick, next, start, now); } else { out := []; }
  }

  /** The id a tick's workflow gets. */
  function TickId(name: string, stamp: string): Id {
    "sched-" + name + "-" + stamp
  }

  /** Time stamps are all of one length, so an id belongs to one tick. */
  lemma TickIdDistinct(n: string, t: string, n': string, t': string)
    requires |t| == |t'| && TickId(n, t) == TickId(n', t')
    ensures n == n' && t == t'
  {
    var a, b := TickId(n, t), TickId(n', t');
    assert a[6..6 + |n|] == n && b[6..6 + |n'|] == n';
    assert a[|a| - |t|..] == t && b[|b| - |t'|..] == t';
  }
}

/** Launching ticks from any number of executors, live or backfilling. */
module ScheduledTicks {
  import opened Types
  import opened Lineage
  import opened Store
  import opened StoreRuns

  /** One tick's id followed through the store: how many tasks have created its
      row and not yet got to launch it, and how often it was launched. */
  datatype Ticks = Ticks(db: Db, ready: nat, launched: nat)

  datatype Event =
    | Persist(row: Row)   // some executor inserts the tick's row
    | Launch              // a task that created it starts the run
    | Drop                // such a task dies first
    | Call(op: Op)        // any other provider call

  /** A task launches only what it created itself, and only direct runs. */
  predicate MayLaunch(db: Db, row: Row) {
    Creates(db, row) && row.queueName.None? && !IsTerminal(row.status)
  }

  ghost predicate Enabled(id: Id, s: Ticks, ev: Event) {
    match ev
    case Persist(row) => row.id == id
    case Launch => s.ready > 0
    case Drop => s.ready > 0
    case Call(op) => true
  }

  ghost function Next(id: Id, s: Ticks, ev: Event): Ticks
    requires Enabled(id, s, ev)
  {
    match ev
    case Persist(row) => s.(db := Insert(s.db, row), ready := if MayLaunch(s.db, row) then s.ready + 1 else s.ready)
    case Launch => s.(ready := s.ready - 1, launched := s.launched + 1)
    case Drop => s.(ready := s.ready - 1)
    case Call(op) => s.(db := Apply(s.db, op))
  }

  /** The event deletes the tick's row. */
  ghost predicate Deletes(id: Id, db: Db, ev: Event) {
    ev.Call? && ev.op.DeleteOp? && id in db.workflows && id in DeleteTargets(db, ev.op.ids, ev.op.children)
  }

  /** A row vanishes only by a deletion of its own id. */
  lemma RowVanishesIff(db: Db, op: Op, id: Id)
    requires id in db.workflows
    ensures id !in Apply(db, op).workflows <==> Deletes(id, db, Call(op))
  {
  }

  /** Whoever persists a tick launches it if and only if its row is not there, it is
      not for a queue, and it is not over. */
  lemma LaunchesIff(id: Id, s: Ticks, row: Row)
    requires row.id == id
    ensures Next(id, s, Persist(row)).ready == s.ready +
              if id !in s.db.workflows && row.queueName == None
                 && row.status !in {Success, Error, Cancelled, MaxRecoveryAttemptsExceeded} then 1 else 0
  {
  }

  ghost predicate Runs(id: Id, s: Ticks, es: seq<Event>)
    decreases |es|, 0
  {
    es == [] || (Runs(id, s, es[..|es| - 1]) && Enabled(id, Final(id, s, es[..|es| - 1]), es[|es| - 1]))
  }

  ghost function Final(id: Id, s: Ticks, es: seq<Event>): Ticks
    requires Runs(id, s, es)
    decreases |es|, 1
  {
    if es == [] then s else Next(id, Final(id, s, es[..|es| - 1]), es[|es| - 1])
  }

  /** How often the tick's row was deleted. */
  ghost function Deletions(id: Id, s: Ticks, es: seq<Event>): nat
    requires Runs(id, s, es)
  {
    if es == [] then 0
    else
      var init := es[..|es| - 1];
      Deletions(id, s, init) + if Deletes(id, Final(id, s, init).db, es[|es| - 1]) then 1 else 0
  }

  predicate Bounded(id: Id, s: Ticks, deletions: nat) {
    s.ready + s.launched <= deletions + if id in s.db.workflows then 1 else 0
  }

  lemma BoundedStep(id: Id, s: Ticks, ev: Event, deletions: nat)
    requires Enabled(id, s, ev) && Bounded(id, s, deletions)
    ensures Bounded(id, Next(id, s, ev), deletions + if Deletes(id, s.db, ev) then 1 else 0)
  {
    if ev.Call? && id in s.db.workflows { RowVanishesIff(s.db, ev.op, id); }
  }

  /** Over every interleaving of executors, live ticks, backfills, crashes and
      other calls: a tick is directly launched at most once, plus once for every
      deletion of its own row. */
  lemma {:induction false} LaunchedOnce(id: Id, db: Db, es: seq<Event>)
    requires Runs(id, Ticks(db, 0, 0), es)
    ensures Bounded(id, Final(id, Ticks(db, 0, 0), es), Deletions(id, Ticks(db, 0, 0), es))
  {
    if es != [] {
      var s, init := Ticks(db, 0, 0), es[..|es| - 1];
      LaunchedOnce(id, db, init);
      BoundedStep(id, Final(id, s, init), es[|es| - 1], Deletions(id, s, init));
    }
  }

  /** How often the event happened. */
  ghost function Count(id: Id, s: Ticks, es: seq<Event>, what: Event): nat
    requires Runs(id, s, es)
  {
    if es == [] then 0 else Count(id, s, es[..|es| - 1], what) + if es[|es| - 1] == what then 1 else 0
  }

  /** How often a tick's row was created for a direct run. */
  ghost function Creations(id: Id, s: Ticks, es: seq<Event>): nat
    requires Runs(id, s, es)
  {
    if es == [] then 0
    else
      var init, ev := es[..|es| - 1], es[|es| - 1];
      Creations(id, s, init) +
      if ev.Persist? && id !in Final(id, s, init).db.workflows && ev.row.queueName == None
         && ev.row.status !in {Success, Error, Cancelled, MaxRecoveryAttemptsExceeded} then 1 else 0
  }

  /** Nothing is launched twice or out of nothing: over every interleaving, the
      direct runs created are those launched, those dropped by a task that died, and
      those a task still has to launch. */
  lemma {:induction false} LaunchesBalance(id: Id, db: Db, es: seq<Event>)
    requires Runs(id, Ticks(db, 0, 0), es)
    ensures var s := Ticks(db, 0, 0); var end := Final(id, s, es);
            && end.launched == Count(id, s, es, Launch)
            && Creations(id, s, es) == end.launched + Count(id, s, es, Drop) + end.ready
  {
    if es != [] {
      var s, init, ev := Ticks(db, 0, 0), es[..|es| - 1], es[|es| - 1];
      LaunchesBalance(id, db, init);
      if ev.Persist? { LaunchesIff(id, Final(id, s, init), ev.row); }
    }
  }

  /** And a deletion of its row is enough for a second launch. */
  lemma DeletedTickRelaunches(id: Id, db: Db, row: Row)
    requires row.id == id && MayLaunch(db, row)
    ensures var s := Next(id, Next(id, Ticks(db, 0, 0), Persist(row)), Launch);
            && Deletes(id, s.db, Call(DeleteOp([id], false)))
            && MayLaunch(Next(id, s, Call(DeleteOp([id], false))).db, row)
            && var s' := Next(id, Next(id, s, Call(DeleteOp([id], false))), Persist(row));
               Enabled(id, s', Launch) && Next(id, s', Launch).launched == 2
  {
    assert Elements([id]) == {id} by { ElementsAppend([], id); assert [] + [id] == [id]; }
    assert Delete(Put(db, id, row), {id}).workflows == db.workflows;
  }
}

/** Keeping the firing loops in step with the schedules that are wanted. */
module ScheduleReconciler {
  import opened Types

  datatype Schedule = Schedule(name: string, scheduleId: Id)

  /** A loop that was started, and whether it has been told to stop. */
  datatype Loop = Loop(name: string, scheduleId: Id, stopped: bool)

  datatype Installed = Installed(scheduleId: Id, loopNo: nat)

  predicate Named(desired: seq<Schedule>, name: string) {
    exists i :: 0 <= i < |desired| && desired[i].name == name
  }

  predicate Wanted(desired: seq<Schedule>, name: string, scheduleId: Id) {
    exists i :: 0 <= i < |desired| && desired[i] == Schedule(name, scheduleId)
  }

  class Reconciler {
    var installed: map<string, Installed>
    var loops: seq<Loop>          // every loop ever started

    /** Exactly the installed loops are running. */
    ghost predicate Valid()
      reads this
    {
      && (forall n :: n in installed ==>
            installed[n].loopNo < |loops| && loops[installed[n].loopNo] == Loop(n, installed[n].scheduleId, false))
      && (forall i :: 0 <= i < |loops| && !loops[i].stopped ==>
            loops[i].name in installed && installed[loops[i].name].loopNo == i)
    }

    constructor ()
      ensures Valid() && loops == []
    {
      installed, loops := map[], [];
    }

    /** Retire the loop of one name. */
    method Retire(name: string)
      requires Valid() && name in installed
      modifies this
      ensures Valid() && installed == old(installed) - {name} && |loops| == |old(loops)|
      ensures forall i :: 0 <= i < |loops| ==> loops[i].(stopped := true) == old(loops)[i].(stopped := true)
    {
      var k := installed[name].loopNo;
      loops := loops[k := loops[k].(stopped := true)];
      installed := installed - {name};
    }

    /** Retire the loops whose schedule is gone, not wanted any more, or recreated. */
    method RetireUnwanted(desired: seq<Schedule>)
      requires Valid()
      modifies this
      ensures Valid()
      ensures installed == map n | n in old(installed) && Wanted(desired, n, old(installed)[n].scheduleId) :: old(installed)[n]
    {
      var todo := installed.Keys;
      while todo != {}
        invariant Valid() && todo <= installed.Keys
        invariant forall n :: n in installed ==> n in old(installed) && installed[n] == old(installed)[n]
        invariant forall n :: n in old(installed) && (n in todo || Wanted(desired, n, old(installed)[n].scheduleId)) ==> n in installed
        invariant forall n :: n in installed && n !in todo ==> Wanted(desired, n, installed[n].scheduleId)
        decreases todo
      {
        var n :| n in todo;
        if !(exists i :: 0 <= i < |desired| && desired[i] == Schedule(n, installed[n].scheduleId)) { Retire(n); }
        todo := todo - {n};
      }
    }

    /** Start a loop for every wanted schedule that has none. */
    method InstallMissing(desired: seq<Schedule>)
      requires Valid()
      modifies this
      ensures Valid()
      ensures forall n :: n in old(installed) ==> n in installed && installed[n] == old(installed)[n]
      ensures forall n :: n in installed && n !in old(installed) ==> Wanted(desired, n, installed[n].scheduleId)
      ensures forall n :: n in installed <==> n in old(installed) || Named(desired, n)
    {
      for i := 0 to |desired|
        invariant Valid()
        invariant forall n :: n in old(installed) ==> n in installed && installed[n] == old(installed)[n]
        invariant forall n :: n in installed && n !in old(installed) ==> Wanted(desired, n, installed[n].scheduleId)
        invariant forall j :: 0 <= j < i ==> desired[j].name in installed
      {
        var s := desired[i];
        if s.name in installed { continue; }
        installed := installed[s.name := Installed(s.scheduleId, |loops|)];
        loops := loops + [Loop(s.name, s.scheduleId, false)];
      }
      forall n | n in installed ensures n in old(installed) || Named(desired, n) {
        if n !in old(installed) {
          var i :| 0 <= i < |desired| && desired[i] == Schedule(n, installed[n].scheduleId);
          assert desired[i].name == n;
        }
      }
    }

    /** One pass: the persisted schedules, and those of the code that no persisted
        one shadows. */
    method Reconcile(persisted: seq<Schedule>, inCode: seq<Schedule>) returns (desired: seq<Schedule>)
      requires Valid()
      modifies this
      ensures Valid()
      ensures forall s :: s in desired <==> s in persisted || (s in inCode && !Named(persisted, s.name))
      ensures forall n :: n in installed <==> Named(desired, n)
      ensures forall n :: n in installed ==> Wanted(desired, n, installed[n].scheduleId)
      ensures forall n :: n in old(installed) && Wanted(desired, n, old(installed)[n].scheduleId) ==>
                n in installed && installed[n] == old(installed)[n]
    {
      desired := persisted;
      for i := 0 to |inCode|
        invariant forall s :: s in desired <==> s in persisted || (s in inCode[..i] && !Named(persisted, s.name))
      {
        assert inCode[..i + 1] == inCode[..i] + [inCode[i]];
        if !(exists j :: 0 <= j < |persisted| && persisted[j].name == inCode[i].name) { desired := desired + [inCode[i]]; }
      }
      assert inCode[..|inCode|] == inCode;
      RetireUnwanted(desired);
      assert forall n :: n in installed ==> Named(desired, n) by { WantedIsNamed(desired); }
      InstallMissing(desired);
    }

    /** On shutdown every loop is told to stop. */
    method Shutdown()
      requires Valid()
      modifies this
      ensures Valid() && installed == map[]
      ensures forall i :: 0 <= i < |loops| ==> loops[i].stopped
    {
      while installed != map[]
        invariant Valid()
        decreases installed.Keys
      {
        var n :| n in installed;
        Retire(n);
      }
    }

    /** So, between passes, no schedule name has two running loops. */
    lemma OneLoopPerName(i: nat, j: nat)
      requires Valid() && i < |loops| && j < |loops| && !loops[i].stopped && !loops[j].stopped
      requires loops[i].name == loops[j].name
      ensures i == j
    {
    }
  }

  lemma WantedIsNamed(desired: seq<Schedule>)
    ensures forall n, id :: Wanted(desired, n, id) ==> Named(desired, n)
  {
    forall n, id | Wanted(desired, n, id) ensures Named(desired, n) {
      var i :| 0 <= i < |desired| && desired[i] == Schedule(n, id);
      assert desired[i].name == n;
    }
  }
}
