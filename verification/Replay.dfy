/** Executing a workflow body against the operation log.

    A body is a deterministic function from what it has observed so far to its
    next durable operation. An execution numbers the operations as it goes; a
    crash drops the execution and keeps the store. Each provider call of an
    operation is a separate step, so crashes, other executions of the same
    workflow and other workflows come in between. */
module Replay {
  import opened Types
  import opened Store

  /** What an operation returns to the body. */
  datatype Res = Ok(v: Value) | Err(e: Fault) | Msg(m: Option<Value>) | Flag(b: bool)

  /** An error as the body sees it. A typed one comes back from the log as an
      application error carrying its text. */
  datatype Fault = App(text: string) | Typed(kind: int, text: string) | Cancellation(id: Id)

  function TextOf(e: Fault): string {
    match e
    case App(t) => t
    case Typed(_, t) => t
    case Cancellation(id) => "workflow `" + id + "` was cancelled"
  }

  /** What replay-stable code may branch on: values, that something failed (but
      not how), and a received message, where a null one counts as none. */
  datatype Obs = Returned(v: Value) | Failed | Got(v: Value) | Nothing | Branch(b: bool)

  function View(r: Res): Obs {
    match r
    case Ok(v) => Returned(v)
    case Err(_) => Failed
    case Msg(m) => if m.None? || m.value == Null then Nothing else Got(m.value)
    case Flag(b) => Branch(b)
  }

  datatype Operation =
    | Step(name: string)                        // step, step_with, select
    | Draw(name: string)                        // now, uuid, random
    | Sleep(ms: int)
    | Recv(topic: string, timeoutMs: int)
    | GetEvent(target: Id, key: string, timeoutMs: int)
    | Patch(name: string)

  datatype Action = Do(op: Operation) | Return(result: Value)

  type Body = seq<Obs> -> Action

  predicate Waits(op: Operation) { op.Recv? || op.GetEvent? }

  /** The operations that refuse to start fresh work on a cancelled workflow. */
  predicate Guarded(op: Operation) { op.Step? || Waits(op) }

  function OpName(op: Operation): string {
    match op
    case Step(name) => name
    case Draw(name) => name
    case Sleep(_) => "DBOS.sleep"
    case Recv(_, _) => "DBOS.recv"
    case GetEvent(_, _, _) => "DBOS.getEvent"
    case Patch(name) => "DBOS.patch-" + name
  }

  /** How many step numbers an operation consumes. */
  function Width(op: Operation, o: Obs): nat {
    if Waits(op) then 2 else if op.Patch? && o != Branch(true) then 0 else 1
  }

  /** What an operation returns when the log holds `row` under its number. */
  function Replayed(op: Operation, row: StepRow): Res {
    if op.Patch? then Flag(row.name == OpName(op))
    else
      match OutcomeOf(row)
      case Failure(m) => Err(App(m))
      case Output(v) =>
        if Waits(op) then Msg(if v == Null then None else Some(v))
        else if op.Sleep? then Ok(Null)
        else Ok(v)
  }

  // ---- paths through the log ----------------------------------------------

  type Log = map<(Id, int), StepRow>

  /** The step number the next operation takes after observing `h`. */
  function SlotAfter(body: Body, h: seq<Obs>): nat {
    if h == [] then 0
    else
      var init := h[..|h| - 1];
      match body(init)
      case Do(op) => SlotAfter(body, init) + Width(op, h[|h| - 1])
      case Return(_) => SlotAfter(body, init)
  }

  /** `h` is what the log dictates: each observation is the replay of the row
      stored under its operation's number. */
  predicate Path(w: Id, body: Body, log: Log, h: seq<Obs>) {
    h == [] ||
    (var init := h[..|h| - 1];
     && Path(w, body, log, init)
     && body(init).Do?
     && (w, SlotAfter(body, init)) in log
     && (body(init).op.Patch? || log[(w, SlotAfter(body, init))].name == OpName(body(init).op))
     && h[|h| - 1] == View(Replayed(body(init).op, log[(w, SlotAfter(body, init))])))
  }

  ghost predicate Grows(w: Id, log: Log, log': Log) {
    forall k :: (w, k) in log ==> (w, k) in log' && log'[(w, k)] == log[(w, k)]
  }

  lemma {:induction false} PathGrows(w: Id, body: Body, log: Log, log': Log, h: seq<Obs>)
    requires Path(w, body, log, h) && Grows(w, log, log')
    ensures Path(w, body, log', h)
  {
    if h != [] { PathGrows(w, body, log, log', h[..|h| - 1]); }
  }

  /** Observing what the row of the next operation replays to extends the path. */
  lemma {:induction false} PathExtends(w: Id, body: Body, log: Log, h: seq<Obs>, o: Obs)
    requires Path(w, body, log, h) && body(h).Do? && (w, SlotAfter(body, h)) in log
    requires body(h).op.Patch? || log[(w, SlotAfter(body, h))].name == OpName(body(h).op)
    requires o == View(Replayed(body(h).op, log[(w, SlotAfter(body, h))]))
    ensures Path(w, body, log, h + [o])
    ensures SlotAfter(body, h + [o]) == SlotAfter(body, h) + Width(body(h).op, o)
  {
    var h' := h + [o];
    assert h'[..|h'| - 1] == h && h'[|h'| - 1] == o;
  }

  lemma {:induction false} PathPrefix(w: Id, body: Body, log: Log, h: seq<Obs>, n: nat)
    requires Path(w, body, log, h) && n <= |h|
    ensures Path(w, body, log, h[..n])
  {
    if n < |h| {
      PathPrefix(w, body, log, h[..|h| - 1], n);
      assert h[..|h| - 1][..n] == h[..n];
    } else {
      assert h[..n] == h;
    }
  }

  lemma PathStep(w: Id, body: Body, log: Log, h: seq<Obs>, n: nat)
    requires Path(w, body, log, h) && n < |h|
    ensures Path(w, body, log, h[..n]) && body(h[..n]).Do? && (w, SlotAfter(body, h[..n])) in log
    ensures h[n] == View(Replayed(body(h[..n]).op, log[(w, SlotAfter(body, h[..n]))]))
    ensures SlotAfter(body, h[..n + 1]) == SlotAfter(body, h[..n]) + Width(body(h[..n]).op, h[n])
  {
    PathPrefix(w, body, log, h, n + 1);
    var g := h[..n + 1];
    assert g[..|g| - 1] == h[..n];
  }

  lemma SameNext(w: Id, body: Body, log: Log, a: seq<Obs>, b: seq<Obs>, n: nat)
    requires Path(w, body, log, a) && Path(w, body, log, b) && n < |a| && n < |b| && a[..n] == b[..n]
    ensures a[n] == b[n]
  {
    PathStep(w, body, log, a, n);
    PathStep(w, body, log, b, n);
  }

  lemma {:induction false} AgreeUpTo(w: Id, body: Body, log: Log, a: seq<Obs>, b: seq<Obs>, n: nat)
    requires Path(w, body, log, a) && Path(w, body, log, b) && n <= |a| && n <= |b|
    ensures a[..n] == b[..n]
  {
    if n > 0 {
      AgreeUpTo(w, body, log, a, b, n - 1);
      SameNext(w, body, log, a, b, n - 1);
      assert a[..n] == a[..n - 1] + [a[n - 1]] && b[..n] == b[..n - 1] + [b[n - 1]];
    }
  }

  /** Through one log there is only one path: of any two, one continues the other. */
  lemma PathsAgree(w: Id, body: Body, log: Log, a: seq<Obs>, b: seq<Obs>)
    requires Path(w, body, log, a) && Path(w, body, log, b) && |a| <= |b|
    ensures a == b[..|a|]
  {
    AgreeUpTo(w, body, log, a, b, |a|);
    assert a[..|a|] == a;
  }

  lemma {:induction false} SlotsIncrease(w: Id, body: Body, log: Log, h: seq<Obs>, n: nat)
    requires Path(w, body, log, h) && n <= |h|
    ensures SlotAfter(body, h[..n]) <= SlotAfter(body, h)
    decreases |h| - n
  {
    if n < |h| {
      PathStep(w, body, log, h, n);
      SlotsIncrease(w, body, log, h, n + 1);
    } else {
      assert h[..n] == h;
    }
  }

  // ---- logs the body wrote --------------------------------------------------

  /** Row `k` was written by the operation that follows path `h`: under its own
      number and name (a wait records no error), or as the deadline of a wait. */
  ghost predicate Writer(w: Id, body: Body, log: Log, k: int, h: seq<Obs>)
    requires (w, k) in log
  {
    && Path(w, body, log, h) && body(h).Do?
    && var op := body(h).op;
       || (SlotAfter(body, h) == k && log[(w, k)].name == OpName(op) && (Waits(op) ==> log[(w, k)].error.None?))
       || (Waits(op) && SlotAfter(body, h) + 1 == k && log[(w, k)].name == "DBOS.sleep" && log[(w, k)].error.None?)
  }

  predicate HasRow(w: Id, log: Log, k: int) { (w, k) in log }

  /** Every row was written by the body. (The trigger keeps the rows on a
      writer's path from asking for their own writers.) */
  ghost predicate Written(w: Id, body: Body, log: Log) {
    forall k {:trigger HasRow(w, log, k)} :: HasRow(w, log, k) ==> exists h :: Writer(w, body, log, k, h)
  }

  /** A path that goes past the writer of row `k` has gone past `k`. */
  lemma PastWriter(w: Id, body: Body, log: Log, h: seq<Obs>, k: int, g: seq<Obs>)
    requires Path(w, body, log, h) && (w, k) in log && Writer(w, body, log, k, g) && |g| < |h|
    ensures k < SlotAfter(body, h)
  {
    PathsAgree(w, body, log, g, h);
    PathStep(w, body, log, h, |g|);
    SlotsIncrease(w, body, log, h, |g| + 1);
  }

  /** A path that goes past an operation has gone past its numbers. */
  lemma PastOperation(w: Id, body: Body, log: Log, h: seq<Obs>, g: seq<Obs>)
    requires Path(w, body, log, h) && Path(w, body, log, g) && |h| < |g|
    requires body(h).Do? && !body(h).op.Patch?
    ensures SlotAfter(body, g) >= SlotAfter(body, h) + (if Waits(body(h).op) then 2 else 1)
    ensures (w, SlotAfter(body, h)) in log
  {
    PathsAgree(w, body, log, h, g);
    PathStep(w, body, log, g, |h|);
    SlotsIncrease(w, body, log, g, |h| + 1);
  }

  lemma SameLength(w: Id, body: Body, log: Log, h: seq<Obs>, g: seq<Obs>)
    requires Path(w, body, log, h) && Path(w, body, log, g) && |h| == |g|
    ensures h == g
  {
    PathsAgree(w, body, log, h, g);
    assert g[..|h|] == g;
  }

  /** In a log the body wrote, the row under the number of its next operation is
      that operation's (a patch apart, which accepts any row). */
  lemma NextRowIsMine(w: Id, body: Body, log: Log, h: seq<Obs>)
    requires Written(w, body, log) && Path(w, body, log, h) && body(h).Do? && !body(h).op.Patch?
    requires (w, SlotAfter(body, h)) in log
    ensures log[(w, SlotAfter(body, h))].name == OpName(body(h).op)
    ensures Waits(body(h).op) ==> log[(w, SlotAfter(body, h))].error.None?
  {
    var k := SlotAfter(body, h);
    assert HasRow(w, log, k);
    var g :| Writer(w, body, log, k, g);
    if |g| < |h| { PastWriter(w, body, log, h, k, g); }
    else if |g| > |h| { PastOperation(w, body, log, h, g); }
    else { SameLength(w, body, log, h, g); }
  }

  /** Likewise the row after a wait's own is its deadline. */
  lemma DeadlineRowIsMine(w: Id, body: Body, log: Log, h: seq<Obs>)
    requires Written(w, body, log) && Path(w, body, log, h) && body(h).Do? && Waits(body(h).op)
    requires (w, SlotAfter(body, h) + 1) in log
    ensures var row := log[(w, SlotAfter(body, h) + 1)]; row.name == "DBOS.sleep" && row.error.None?
  {
    var k := SlotAfter(body, h) + 1;
    assert HasRow(w, log, k);
    var g :| Writer(w, body, log, k, g);
    if |g| < |h| { PastWriter(w, body, log, h, k, g); }
    else if |g| > |h| { PastOperation(w, body, log, h, g); }
    else { SameLength(w, body, log, h, g); }
  }

  /** Nobody else writes under the free number of a patch point. */
  lemma PatchNumberIsMine(w: Id, body: Body, log: Log, h: seq<Obs>, g: seq<Obs>)
    requires Path(w, body, log, h) && body(h).Do? && body(h).op.Patch? && (w, SlotAfter(body, h)) !in log
    requires Path(w, body, log, g) && body(g).Do?
    requires SlotAfter(body, g) == SlotAfter(body, h) || (Waits(body(g).op) && SlotAfter(body, g) + 1 == SlotAfter(body, h))
    ensures g == h
  {
    if |g| > |h| {
      PathsAgree(w, body, log, h, g);
      PathStep(w, body, log, g, |h|);
    } else if |g| < |h| {
      PathsAgree(w, body, log, g, h);
      PathStep(w, body, log, h, |g|);
      SlotsIncrease(w, body, log, h, |g| + 1);
    } else {
      SameLength(w, body, log, h, g);
    }
  }

  lemma WrittenGrows(w: Id, body: Body, log: Log, log': Log, k: int, h: seq<Obs>)
    requires Written(w, body, log) && Grows(w, log, log')
    requires forall j :: (w, j) in log' ==> j == k || (w, j) in log
    requires (w, k) in log' && Writer(w, body, log', k, h)
    ensures Written(w, body, log')
  {
    forall j | HasRow(w, log', j) ensures exists g :: Writer(w, body, log', j, g) {
      if j != k {
        assert HasRow(w, log, j);
        var g :| Writer(w, body, log, j, g);
        PathGrows(w, body, log, log', g);
        assert Writer(w, body, log', j, g);
      }
    }
  }
}
