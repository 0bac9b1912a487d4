/** Patching a workflow body while old runs of it are still in the log. */
module PatchAlignment {
  import opened Types
  import opened Store
  import opened Replay
  import opened Execution
  import opened ReplayTheorems

  /** Where, by what it has observed, the new code calls `patch`. */
  type Point = seq<Obs> -> bool

  /** What the old code would have observed. */
  function Erase(hit: Point, h: seq<Obs>): seq<Obs> {
    if h == [] then []
    else
      var init := h[..|h| - 1];
      if hit(init) then Erase(hit, init) else Erase(hit, init) + [h[|h| - 1]]
  }

  /** Every `patch` call so far said no. */
  predicate OldBranch(hit: Point, h: seq<Obs>) {
    h == [] || (OldBranch(hit, h[..|h| - 1]) && (hit(h[..|h| - 1]) ==> h[|h| - 1] == Branch(false)))
  }

  /** The new code calls `patch` after observing `h`. */
  predicate Calls(hit: Point, h: seq<Obs>) { hit(h) }

  function Marker(name: string): string { OpName(Patch(name)) }

  /** `after` is `before` with `if patch(name) { new code } else { the old code }`
      put in at the points `hit`; the old code has no such marker of its own. */
  ghost predicate Patched(name: string, hit: Point, before: Body, after: Body) {
    && (forall h {:trigger Calls(hit, h)} :: Calls(hit, h) ==> after(h) == Do(Patch(name)) && !hit(h + [Branch(false)]))
    && (forall h {:trigger Erase(hit, h)} :: !hit(h) && OldBranch(hit, h) ==> after(h) == before(Erase(hit, h)))
    && (forall h :: before(h).Do? ==> OpName(before(h).op) != Marker(name))
  }

  ghost predicate Unmarked(w: Id, name: string, log: Log) {
    forall k :: (w, k) in log ==> log[(w, k)].name != Marker(name)
  }

  lemma DeadlineIsNoMarker(name: string)
    ensures "DBOS.sleep" != Marker(name)
  {
    assert "DBOS.sleep"[5] != Marker(name)[5];
  }

  lemma OldLogUnmarked(w: Id, name: string, hit: Point, before: Body, after: Body, log: Log)
    requires Patched(name, hit, before, after) && Written(w, before, log)
    ensures Unmarked(w, name, log)
  {
    forall k | (w, k) in log ensures log[(w, k)].name != Marker(name) {
      assert HasRow(w, log, k);
      var h :| Writer(w, before, log, k, h);
      DeadlineIsNoMarker(name);
    }
  }

  /** `h` is the new code's account of the old code's path `g`. */
  predicate Lifts(w: Id, hit: Point, before: Body, after: Body, log: Log, g: seq<Obs>, h: seq<Obs>) {
    && Path(w, after, log, h) && OldBranch(hit, h) && Erase(hit, h) == g
    && SlotAfter(after, h) == SlotAfter(before, g)
  }

  /** Over a row of the old code, `patch` says no and takes no number. */
  lemma SaysNo(w: Id, name: string, after: Body, log: Log, h: seq<Obs>)
    requires Path(w, after, log, h) && after(h) == Do(Patch(name)) && (w, SlotAfter(after, h)) in log
    requires log[(w, SlotAfter(after, h))].name != Marker(name)
    ensures Path(w, after, log, h + [Branch(false)]) && SlotAfter(after, h + [Branch(false)]) == SlotAfter(after, h)
  {
    var h' := h + [Branch(false)];
    assert h'[..|h'| - 1] == h && h'[|h'| - 1] == Branch(false);
  }

  lemma ErasesNo(hit: Point, h: seq<Obs>)
    requires hit(h) && OldBranch(hit, h)
    ensures OldBranch(hit, h + [Branch(false)]) && Erase(hit, h + [Branch(false)]) == Erase(hit, h)
  {
    var h' := h + [Branch(false)];
    assert h'[..|h'| - 1] == h && h'[|h'| - 1] == Branch(false);
  }

  lemma SkipsPatch(w: Id, name: string, hit: Point, before: Body, after: Body, log: Log, g: seq<Obs>, h: seq<Obs>)
    returns (h': seq<Obs>)
    requires Patched(name, hit, before, after) && Unmarked(w, name, log)
    requires Lifts(w, hit, before, after, log, g, h) && (w, SlotAfter(before, g)) in log
    ensures Lifts(w, hit, before, after, log, g, h') && !hit(h') && after(h') == before(g)
  {
    h' := h;
    if hit(h) {
      assert Calls(hit, h);
      SaysNo(w, name, after, log, h);
      ErasesNo(hit, h);
      h' := h + [Branch(false)];
    }
  }

  lemma {:induction false} LiftPath(w: Id, name: string, hit: Point, before: Body, after: Body, log: Log, g: seq<Obs>)
    returns (h: seq<Obs>)
    requires Patched(name, hit, before, after) && Unmarked(w, name, log) && Path(w, before, log, g)
    ensures Lifts(w, hit, before, after, log, g, h)
  {
    if g == [] {
      h := [];
    } else {
      var init, o := g[..|g| - 1], g[|g| - 1];
      var h0 := LiftPath(w, name, hit, before, after, log, init);
      var h1 := SkipsPatch(w, name, hit, before, after, log, init, h0);
      h := h1 + [o];
      LiftStep(w, hit, before, after, log, g, h1);
    }
  }

  lemma LiftStep(w: Id, hit: Point, before: Body, after: Body, log: Log, g: seq<Obs>, h1: seq<Obs>)
    requires g != [] && Path(w, before, log, g) && Lifts(w, hit, before, after, log, g[..|g| - 1], h1)
    requires !hit(h1) && after(h1) == before(g[..|g| - 1])
    ensures Lifts(w, hit, before, after, log, g, h1 + [g[|g| - 1]])
  {
    var h := h1 + [g[|g| - 1]];
    assert h[..|h| - 1] == h1 && h[|h| - 1] == g[|g| - 1];
    assert g[..|g| - 1] + [g[|g| - 1]] == g;
  }

  /** A wait whose deadline is recorded and whose outcome is not. */
  predicate HalfWaited(w: Id, log: Log, slot: int) {
    (w, slot) !in log && (w, slot + 1) in log
  }

  /** The old run is stopped at a patch point in the middle of a wait. */
  ghost predicate InterruptedAt(w: Id, hit: Point, after: Body, log: Log, h: seq<Obs>) {
    hit(h) && OldBranch(hit, h) && Path(w, after, log, h) && HalfWaited(w, log, SlotAfter(after, h))
  }

  ghost predicate Interrupted(w: Id, hit: Point, after: Body, log: Log) {
    exists h :: InterruptedAt(w, hit, after, log, h)
  }

  /** A row of the old code is one the new code writes, too. */
  lemma OldRowFits(w: Id, name: string, hit: Point, before: Body, after: Body, log: Log, k: int, g: seq<Obs>)
    returns (h: seq<Obs>)
    requires Patched(name, hit, before, after) && Unmarked(w, name, log) && !Interrupted(w, hit, after, log)
    requires (w, k) in log && Writer(w, before, log, k, g)
    ensures Writer(w, after, log, k, h)
  {
    h := LiftPath(w, name, hit, before, after, log, g);
    if (w, SlotAfter(before, g)) in log {
      h := SkipsPatch(w, name, hit, before, after, log, g, h);
    } else {
      assert !InterruptedAt(w, hit, after, log, h);
    }
  }

  /** A log of the old code is one the new code could have written. */
  lemma OldLogFits(w: Id, name: string, hit: Point, before: Body, after: Body, log: Log)
    requires Patched(name, hit, before, after) && Written(w, before, log) && !Interrupted(w, hit, after, log)
    ensures Written(w, after, log)
  {
    OldLogUnmarked(w, name, hit, before, after, log);
    forall k | HasRow(w, log, k) ensures exists h :: Writer(w, after, log, k, h) {
      var g :| Writer(w, before, log, k, g);
      var h := OldRowFits(w, name, hit, before, after, log, k, g);
    }
  }

  /** And only if no wait was interrupted at a patch point. */
  lemma InterruptedDoesNotFit(w: Id, name: string, hit: Point, before: Body, after: Body, log: Log, h: seq<Obs>)
    requires Patched(name, hit, before, after) && InterruptedAt(w, hit, after, log, h)
    ensures !Written(w, after, log)
  {
    if Written(w, after, log) {
      var k := SlotAfter(after, h) + 1;
      assert HasRow(w, log, k) && Calls(hit, h);
      var g :| Writer(w, after, log, k, g);
      if |g| < |h| { PastWriter(w, after, log, h, k, g); }
      else if |g| > |h| { PathsAgree(w, after, log, h, g); PathStep(w, after, log, g, |h|); }
      else { SameLength(w, after, log, h, g); }
    }
  }

  /** The new code on an old log: exactly if no wait was interrupted at a patch
      point does the log fit it. */
  lemma PatchedFitsIff(w: Id, name: string, hit: Point, before: Body, after: Body, log: Log)
    requires Patched(name, hit, before, after) && Written(w, before, log)
    ensures Written(w, after, log) <==> !Interrupted(w, hit, after, log)
  {
    if !Interrupted(w, hit, after, log) {
      OldLogFits(w, name, hit, before, after, log);
    } else {
      var h :| InterruptedAt(w, hit, after, log, h);
      InterruptedDoesNotFit(w, name, hit, before, after, log, h);
    }
  }

  /** On a log of the old code alone, the new code retraces the old path. */
  lemma {:induction false} RetracesOldPath(w: Id, name: string, hit: Point, before: Body, after: Body, log: Log, h: seq<Obs>)
    requires Patched(name, hit, before, after) && Unmarked(w, name, log) && Path(w, after, log, h)
    ensures OldBranch(hit, h) && Path(w, before, log, Erase(hit, h))
    ensures SlotAfter(after, h) == SlotAfter(before, Erase(hit, h))
  {
    if h != [] {
      var init := h[..|h| - 1];
      RetracesOldPath(w, name, hit, before, after, log, init);
      assert hit(init) ==> Calls(hit, init);
      var g := Erase(hit, init);
      if !hit(init) { assert (g + [h[|h| - 1]])[..|g|] == g; }
    }
  }

  /** Where the old code had recorded something, a patch point says no. */
  lemma OldRowDecides(w: Id, name: string, hit: Point, before: Body, after: Body, log: Log, log': Log, h: seq<Obs>, n: nat)
    requires Patched(name, hit, before, after) && Unmarked(w, name, log) && Grows(w, log, log')
    requires Path(w, after, log', h) && n < |h| && hit(h[..n]) && (w, SlotAfter(after, h[..n])) in log
    ensures h[n] == Branch(false)
  {
    PathStep(w, after, log', h, n);
    assert Calls(hit, h[..n]);
  }

  /** Runs of the new code that begin with a log of the old code: no execution
      meets a foreign row; whether a patch point takes the old path or the new
      one, all executions, at all moments, take the same; and it is the old one
      wherever the old code had recorded something. */
  lemma PatchAligned(c: Config, name: string, hit: Point, before: Body, r: Run, i: nat, j: nat, e: int, f: int, n: nat)
    requires Patched(name, hit, before, c.body) && IsRun(c, r) && NeverCancelled(c, r)
    requires c.solo || TimeoutsFit(c, r)
    requires r.ss[0] == Sys(r.ss[0].db, r.ss[0].clock, map[], map[], map[])
    requires Written(c.w, before, r.ss[0].db.steps) && !Interrupted(c.w, hit, c.body, r.ss[0].db.steps)
    requires i <= j < |r.ss| && e in r.ss[i].execs && f in r.ss[j].execs
    requires n < |r.ss[i].execs[e].hist| && n < |r.ss[j].execs[f].hist|
    ensures !r.ss[i].execs[e].pc.Diverged?
    ensures View(r.ss[i].execs[e].hist[n]) == View(r.ss[j].execs[f].hist[n])
    ensures var h := Views(r.ss[i].execs[e].hist);
            hit(h[..n]) && (c.w, SlotAfter(c.body, h[..n])) in r.ss[0].db.steps ==> h[n] == Branch(false)
  {
    OldLogFits(c.w, name, hit, before, c.body, r.ss[0].db.steps);
    ExecutionsAgree(c, r, i, j, e, f);
    InvHolds(c, r, i);
    LogGrows(c, r, 0, i);
    OldLogUnmarked(c.w, name, hit, before, c.body, r.ss[0].db.steps);
    var h := Views(r.ss[i].execs[e].hist);
    if hit(h[..n]) && (c.w, SlotAfter(c.body, h[..n])) in r.ss[0].db.steps {
      OldRowDecides(c.w, name, hit, before, c.body, r.ss[0].db.steps, r.ss[i].db.steps, h, n);
    }
  }

  /** `marked` is the state after the execution has looked up a patch point and
      marked it. */
  ghost predicate LooksAndMarks(c: Config, s: Sys, e: int, marked: Sys) {
    && Enabled(c, s, Look(e))
    && var looked := Next(c, s, Look(e));
       Enabled(c, looked, Mark(e)) && marked == Next(c, looked, Mark(e))
  }

  /** At a patch point whose number is free, the marker takes it. */
  lemma MarkTakesNumber(c: Config, s: Sys, e: int) returns (marked: Sys)
    requires At(c, s, e) && OpOf(c, s, e).Patch? && s.execs[e].pc == Idle && (c.w, s.execs[e].next) !in s.db.steps
    ensures LooksAndMarks(c, s, e, marked)
    ensures var x := s.execs[e];
            && marked.execs == s.execs[e := Exec(x.hist + [Flag(true)], x.next + 1, Idle)]
            && marked.db.steps == s.db.steps[(c.w, x.next) := PatchRow(OpName(OpOf(c, s, e)))]
  {
    var looked := Next(c, s, Look(e));
    assert looked == SetPc(s, e, Ready);
    marked := Next(c, looked, Mark(e));
  }

  /** The next lookup meets a foreign row. */
  predicate MeetsForeignRow(c: Config, s: Sys, e: int) {
    At(c, s, e) && DoLook(c, s, e).execs[e].pc == Diverged
  }

  /** The next lookup, with the deadline of the interrupted wait under its number. */
  lemma MeetsDeadlineRow(c: Config, marked: Sys, e: int)
    requires At(c, marked, e) && !OpOf(c, marked, e).Patch? && (c.w, marked.execs[e].next) in marked.db.steps
    ensures MeetsForeignRow(c, marked, e)
            <==> Stored(c, marked, marked.execs[e].next).name != OpName(OpOf(c, marked, e))
  {
  }

  /** What the new code does next once it has marked the point. */
  lemma AfterMarking(c: Config, x: Exec)
    ensures NextAction(c, Exec(x.hist + [Flag(true)], x.next + 1, Idle)) == c.body(Views(x.hist) + [Branch(true)])
  {
    ViewsAppend(x.hist, Flag(true));
  }

  /** What goes wrong otherwise: at an interrupted wait the marker takes the number
      of the wait, and the operation `op` of the new code that follows meets the
      deadline under its own number; it diverges exactly if it has another name. */
  lemma InterruptedWaitDiverges(c: Config, s: Sys, e: int, op: Operation) returns (marked: Sys)
    requires At(c, s, e) && OpOf(c, s, e).Patch? && s.execs[e].pc == Idle
    requires HalfWaited(c.w, s.db.steps, s.execs[e].next)
    requires c.body(Views(s.execs[e].hist) + [Branch(true)]) == Do(op) && !op.Patch?
    ensures LooksAndMarks(c, s, e, marked)
    ensures MeetsForeignRow(c, marked, e) <==> s.db.steps[(c.w, s.execs[e].next + 1)].name != OpName(op)
  {
    marked := MarkTakesNumber(c, s, e);
    AfterMarking(c, s.execs[e]);
    MeetsDeadlineRow(c, marked, e);
  }
}
