/** Transactional steps: the body's writes and the checkpoint commit together.

    The database is seen through one step's slot: its row, and how many times
    writes of the body were committed. What an attempt runs into (a conflict, an
    error of the body, a commit whose acknowledgement is lost) is given by a
    script; the process dies where the script ends. */
module Transactions {
  import opened Types

  /** A row without outcome is a patch marker or a child's row. */
  datatype Slot = Slot(name: string, outcome: Option<StepOutcome>)

  datatype Options = Options(name: string, maxRetries: nat, retryIf: string -> bool)

  /** One attempt on a fresh transaction. `cancelled` is what the wait after a
      conflict or a transient error reads; `recorded` says whether the write of a
      final failure gets through. */
  datatype Attempt =
    | Commits(v: Value)
    | Conflicts(cancelled: bool)
    | Fails(error: string, recorded: bool)
    | CommitsUnheard(v: Value, cancelled: bool)

  datatype Answer =
    | Returned(v: Value)
    | Raised(error: string)
    | Stopped                         // cancelled while waiting
    | UnexpectedStep(found: string)
    | Unrecorded                      // the failure could not be written
    | Crashed

  datatype Table = Table(row: Option<Slot>, effects: nat)

  // ---- the step as a function -------------------------------------------------

  predicate ShouldUserRetry(opts: Options, error: string, used: nat) {
    used < opts.maxRetries && opts.retryIf(error)
  }

  /** An insert leaves an existing row alone. */
  function Inserted(t: Table, name: string, outcome: StepOutcome): Table {
    if t.row.Some? then t else t.(row := Some(Slot(name, Some(outcome))))
  }

  function Committed(t: Table, name: string, v: Value): Table {
    Inserted(t, name, Output(v)).(effects := t.effects + 1)
  }

  /** The attempts, with `used` retries of the user's budget already spent. */
  function Attempts(opts: Options, t: Table, script: seq<Attempt>, used: nat): (Table, Answer)
    decreases |script|
  {
    if script == [] then (t, Crashed)
    else
      var rest := script[1..];
      match script[0]
      case Commits(v) => (Committed(t, opts.name, v), Returned(v))
      case Conflicts(cancelled) => if cancelled then (t, Stopped) else Attempts(opts, t, rest, used)
      case CommitsUnheard(v, cancelled) =>
        var t' := Committed(t, opts.name, v);
        if cancelled then (t', Stopped) else Attempts(opts, t', rest, used)
      case Fails(e, recorded) =>
        if ShouldUserRetry(opts, e, used) then Attempts(opts, t, rest, used + 1)
        else if recorded then (Inserted(t, opts.name, Failure(e)), Raised(e))
        else (t, Unrecorded)
  }

  predicate HasOutcome(t: Table) {
    t.row.Some? && t.row.value.outcome.Some?
  }

  function AnswerOf(outcome: StepOutcome): Answer {
    match outcome
    case Output(v) => Returned(v)
    case Failure(e) => Raised(e)
  }

  /** A recorded outcome is returned; otherwise the attempts begin. */
  function TxStep(opts: Options, t: Table, script: seq<Attempt>): (Table, Answer) {
    if HasOutcome(t) then
      (t, if t.row.value.name == opts.name then AnswerOf(t.row.value.outcome.value) else UnexpectedStep(t.row.value.name))
    else Attempts(opts, t, script, 0)
  }

  /** The step executed again and again: after crashes, replays, resumes. */
  function Executions(opts: Options, t: Table, scripts: seq<seq<Attempt>>): Table
    decreases |scripts|
  {
    if scripts == [] then t else Executions(opts, TxStep(opts, t, scripts[0]).0, scripts[1..])
  }

  // ---- the step as it runs ------------------------------------------------------

  class Database {
    var row: Option<Slot>
    var effects: nat

    function State(): Table
      reads this
    {
      Table(row, effects)
    }

    constructor ()
      ensures State() == Table(None, 0)
    {
      row, effects := None, 0;
    }

    method Insert(name: string, outcome: StepOutcome)
      modifies this
      ensures State() == Inserted(old(State()), name, outcome)
    {
      if row.None? { row := Some(Slot(name, Some(outcome))); }
    }

    /** The user-retry loop around the conflict loop. */
    method RunTransactionStep(opts: Options, script: seq<Attempt>) returns (answer: Answer)
      modifies this
      ensures (State(), answer) == TxStep(opts, old(State()), script)
      ensures old(row).Some? && old(row).value.outcome.Some? ==>
                State() == old(State()) && Answers(opts, old(row).value, answer)
    {
      if row.Some? && row.value.outcome.Some? {
        if row.value.name != opts.name { return UnexpectedStep(row.value.name); }
        return AnswerOf(row.value.outcome.value);
      }
      var i, userAttempt := 0, 0;
      while true
        invariant 0 <= i <= |script| && 0 <= userAttempt
        invariant Attempts(opts, State(), script[i..], userAttempt) == Attempts(opts, old(State()), script, 0)
        decreases |script| - i
      {
        ghost var start := i;
        while true
          invariant start <= i <= |script|
          invariant Attempts(opts, State(), script[i..], userAttempt) == Attempts(opts, old(State()), script, 0)
          decreases |script| - i
        {
          if i == |script| { return Crashed; }
          assert script[i..][1..] == script[i + 1..];
          match script[i] {
            case Commits(v) =>
              Insert(opts.name, Output(v));
              effects := effects + 1;
              return Returned(v);
            case Conflicts(cancelled) =>
              if cancelled { return Stopped; }
            case CommitsUnheard(v, cancelled) =>
              Insert(opts.name, Output(v));
              effects := effects + 1;
              if cancelled { return Stopped; }
            case Fails(_, _) =>
              break;
          }
          i := i + 1;
        }
        var e := script[i].error;
        assert script[i..][1..] == script[i + 1..];
        if ShouldUserRetry(opts, e, userAttempt) {
          userAttempt := userAttempt + 1;
          i := i + 1;
          continue;
        }
        if !script[i].recorded { return Unrecorded; }
        Insert(opts.name, Failure(e));
        return Raised(e);
      }
    }
  }

  // ---- exactly once -----------------------------------------------------------------

  predicate Heard(script: seq<Attempt>) {
    forall i :: 0 <= i < |script| ==> !script[i].CommitsUnheard?
  }

  predicate IsSuccess(t: Table) {
    HasOutcome(t) && t.row.value.outcome.value.Output?
  }

  /** The body's writes are in the database once if a success is recorded, and
      not at all otherwise. */
  predicate ExactlyOnce(t: Table) {
    t.effects == if IsSuccess(t) then 1 else 0
  }

  /** One execution on a free slot: what it answers is what is recorded, and an
      execution that records nothing leaves nothing. */
  lemma {:induction false} FirstExecution(opts: Options, t: Table, script: seq<Attempt>, used: nat)
    requires t.row.None? && t.effects == 0 && Heard(script)
    ensures var (t', a) := Attempts(opts, t, script, used);
            match a
            case Returned(v) => t' == Table(Some(Slot(opts.name, Some(Output(v)))), 1)
            case Raised(e) => t' == Table(Some(Slot(opts.name, Some(Failure(e)))), 0)
            case _ => t' == t
  {
    if script != [] {
      FirstExecution(opts, t, script[1..], used);
      FirstExecution(opts, t, script[1..], used + 1);
    }
  }

  /** What is recorded is answered, unless it is another step's. */
  predicate Answers(opts: Options, row: Slot, a: Answer) {
    if row.name != opts.name then a == UnexpectedStep(row.name)
    else
      match row.outcome
      case Some(Output(v)) => a == Returned(v)
      case Some(Failure(e)) => a == Raised(e)
      case None => false
  }

  /** A recorded outcome, success or failure, is final: however often the step is
      executed again, nothing runs, and it answers what is recorded. */
  lemma {:induction false} RecordedIsFinal(opts: Options, t: Table, scripts: seq<seq<Attempt>>, script: seq<Attempt>)
    requires HasOutcome(t)
    ensures Executions(opts, t, scripts) == t
    ensures TxStep(opts, t, script).0 == t && Answers(opts, t.row.value, TxStep(opts, t, script).1)
  {
    if scripts != [] { RecordedIsFinal(opts, t, scripts[1..], script); }
  }

  /** The step has answered its caller. */
  predicate Final(a: Answer) {
    a.Returned? || a.Raised?
  }

  /** What execution `n` of a sequence answers. */
  function AnswerAt(opts: Options, scripts: seq<seq<Attempt>>, n: nat): Answer
    requires n < |scripts|
  {
    TxStep(opts, Executions(opts, Table(None, 0), scripts[..n]), scripts[n]).1
  }

  lemma {:induction false} ExecutionsAppend(opts: Options, t: Table, scripts: seq<seq<Attempt>>, more: seq<seq<Attempt>>)
    ensures Executions(opts, t, scripts + more) == Executions(opts, Executions(opts, t, scripts), more)
    decreases |scripts|
  {
    if scripts == [] {
      assert scripts + more == more;
    } else {
      assert (scripts + more)[0] == scripts[0] && (scripts + more)[1..] == scripts[1..] + more;
      ExecutionsAppend(opts, TxStep(opts, t, scripts[0]).0, scripts[1..], more);
    }
  }

  /** Once an execution has answered, every later one gives the same answer and
      changes nothing, over every sequence of executions without unheard commits. */
  lemma AnsweredOnce(opts: Options, scripts: seq<seq<Attempt>>, i: nat, j: nat)
    requires i <= j < |scripts| && Final(AnswerAt(opts, scripts, i))
    requires forall n :: 0 <= n < |scripts| ==> Heard(scripts[n])
    ensures AnswerAt(opts, scripts, j) == AnswerAt(opts, scripts, i)
    ensures i < j ==> Executions(opts, Table(None, 0), scripts[..j]) == Executions(opts, Table(None, 0), scripts[..i + 1])
  {
    var t0 := Table(None, 0);
    var t := Executions(opts, t0, scripts[..i]);
    var t' := TxStep(opts, t, scripts[i]).0;
    TransactionsExactlyOnce(opts, scripts[..i]);
    if HasOutcome(t) { RecordedIsFinal(opts, t, [], scripts[i]); } else { FirstExecution(opts, t, scripts[i], 0); }
    if i < j {
      var more := scripts[i + 1..j];
      assert scripts[..i + 1] == scripts[..i] + [scripts[i]] && scripts[..j] == scripts[..i + 1] + more;
      ExecutionsAppend(opts, t0, scripts[..i], [scripts[i]]);
      ExecutionsAppend(opts, t0, scripts[..i + 1], more);
      assert [scripts[i]][1..] == [];
      assert Executions(opts, t, [scripts[i]]) == t';
      RecordedIsFinal(opts, t', more, scripts[j]);
    }
  }

  /** Over every sequence of executions, with their conflicts, errors, retries
      and crashes, in which no commit goes unheard. */
  lemma {:induction false} TransactionsExactlyOnce(opts: Options, scripts: seq<seq<Attempt>>)
    requires forall i :: 0 <= i < |scripts| ==> Heard(scripts[i])
    ensures var t := Executions(opts, Table(None, 0), scripts);
            ExactlyOnce(t) && (t.row.None? || HasOutcome(t))
  {
    if scripts != [] {
      var t0 := Table(None, 0);
      FirstExecution(opts, t0, scripts[0], 0);
      var t := TxStep(opts, t0, scripts[0]).0;
      if HasOutcome(t) { RecordedIsFinal(opts, t, scripts[1..], []); }
      else { TransactionsExactlyOnce(opts, scripts[1..]); }
    }
  }

  // ---- when a commit goes unheard -------------------------------------------------------

  /** How many attempts of the script are reached and commit. */
  function CommitsReached(opts: Options, script: seq<Attempt>, used: nat): nat {
    if script == [] then 0
    else
      match script[0]
      case Commits(_) => 1
      case Conflicts(cancelled) => if cancelled then 0 else CommitsReached(opts, script[1..], used)
      case CommitsUnheard(_, cancelled) => 1 + if cancelled then 0 else CommitsReached(opts, script[1..], used)
      case Fails(e, _) => if ShouldUserRetry(opts, e, used) then CommitsReached(opts, script[1..], used + 1) else 0
  }

  lemma {:induction false} EffectsCount(opts: Options, t: Table, script: seq<Attempt>, used: nat)
    ensures Attempts(opts, t, script, used).0.effects == t.effects + CommitsReached(opts, script, used)
    ensures t.row.Some? ==> Attempts(opts, t, script, used).0.row == t.row
    ensures t.row.None? ==> (CommitsReached(opts, script, used) > 0 <==> IsSuccess(Attempts(opts, t, script, used).0))
    decreases |script|
  {
    if script != [] {
      var rest := script[1..];
      match script[0]
      case Commits(_) =>
      case Conflicts(_) => EffectsCount(opts, t, rest, used);
      case CommitsUnheard(v, _) => EffectsCount(opts, Committed(t, opts.name, v), rest, used);
      case Fails(_, _) => EffectsCount(opts, t, rest, used + 1);
    }
  }

  predicate CommitsAt(script: seq<Attempt>, j: nat)
    requires j < |script|
  {
    script[j].Commits? || script[j].CommitsUnheard?
  }

  /** The attempts before `m` in which the body failed. */
  function FailsBefore(script: seq<Attempt>, m: nat): nat
    requires m <= |script|
  {
    if m == 0 then 0 else FailsBefore(script, m - 1) + if script[m - 1].Fails? then 1 else 0
  }

  /** The step goes on after attempt `m`. */
  predicate PassesAt(opts: Options, script: seq<Attempt>, m: nat)
    requires m < |script|
  {
    match script[m]
    case Commits(_) => false
    case Conflicts(cancelled) => !cancelled
    case CommitsUnheard(_, cancelled) => !cancelled
    case Fails(e, _) => opts.retryIf(e) && FailsBefore(script, m) < opts.maxRetries
  }

  predicate Reaches(opts: Options, script: seq<Attempt>, j: nat)
    requires j <= |script|
  {
    forall m :: 0 <= m < j ==> PassesAt(opts, script, m)
  }

  /** An attempt that leaves a row: a commit, or a final failure that is written. */
  predicate RecordsAt(opts: Options, script: seq<Attempt>, j: nat)
    requires j < |script|
  {
    CommitsAt(script, j) || (script[j].Fails? && script[j].recorded && !PassesAt(opts, script, j))
  }

  /** An unheard commit, and a commit the step goes on to after it. */
  predicate Doubles(opts: Options, script: seq<Attempt>) {
    exists i, j :: 0 <= i < j < |script| && script[i].CommitsUnheard? && CommitsAt(script, j) && Reaches(opts, script, j)
  }

  predicate Records(opts: Options, script: seq<Attempt>) {
    exists j :: 0 <= j < |script| && RecordsAt(opts, script, j) && Reaches(opts, script, j)
  }

  ghost predicate CommitFrom(opts: Options, script: seq<Attempt>, n: nat) {
    exists j :: n <= j < |script| && CommitsAt(script, j) && Reaches(opts, script, j)
  }

  ghost predicate TwoFrom(opts: Options, script: seq<Attempt>, n: nat) {
    exists i, j :: n <= i < j < |script| && script[i].CommitsUnheard? && CommitsAt(script, j) && Reaches(opts, script, j)
  }

  lemma {:induction false} CountFrom(opts: Options, script: seq<Attempt>, n: nat)
    requires n <= |script| && Reaches(opts, script, n)
    ensures CommitsReached(opts, script[n..], FailsBefore(script, n)) > 0 <==> CommitFrom(opts, script, n)
    ensures CommitsReached(opts, script[n..], FailsBefore(script, n)) > 1 <==> TwoFrom(opts, script, n)
    decreases |script| - n
  {
    if n < |script| {
      assert script[n..][0] == script[n] && script[n..][1..] == script[n + 1..];
      if PassesAt(opts, script, n) {
        CountFrom(opts, script, n + 1);
        PassedOn(opts, script, n);
      } else {
        StopsHere(opts, script, n);
      }
    }
  }

  /** What is reached from an attempt the step goes on from. */
  lemma PassedOn(opts: Options, script: seq<Attempt>, n: nat)
    requires n < |script| && Reaches(opts, script, n) && PassesAt(opts, script, n)
    ensures CommitFrom(opts, script, n) <==> script[n].CommitsUnheard? || CommitFrom(opts, script, n + 1)
    ensures TwoFrom(opts, script, n) <==>
            (script[n].CommitsUnheard? && CommitFrom(opts, script, n + 1)) || TwoFrom(opts, script, n + 1)
  {
    if script[n].CommitsUnheard? {
      assert CommitsAt(script, n);
      if CommitFrom(opts, script, n + 1) {
        var j :| n + 1 <= j < |script| && CommitsAt(script, j) && Reaches(opts, script, j);
        assert script[n].CommitsUnheard? && n < j;
      }
    }
    if TwoFrom(opts, script, n) {
      var i, j :| n <= i < j < |script| && script[i].CommitsUnheard? && CommitsAt(script, j) && Reaches(opts, script, j);
      assert CommitFrom(opts, script, n + 1);
    }
  }

  /** Nothing is reached past an attempt the step does not go on from. */
  lemma StopsHere(opts: Options, script: seq<Attempt>, n: nat)
    requires n < |script| && Reaches(opts, script, n) && !PassesAt(opts, script, n)
    ensures CommitFrom(opts, script, n) <==> CommitsAt(script, n)
    ensures !TwoFrom(opts, script, n)
  {
    forall j | n < j <= |script| ensures !Reaches(opts, script, j) { assert !PassesAt(opts, script, n); }
    if CommitsAt(script, n) { assert CommitFrom(opts, script, n); }
  }

  /** One execution on a free slot is exactly-once if and only if its script does
      not double. */
  lemma ExactlyOnceIff(opts: Options, script: seq<Attempt>)
    ensures ExactlyOnce(TxStep(opts, Table(None, 0), script).0) <==> !Doubles(opts, script)
  {
    EffectsCount(opts, Table(None, 0), script, 0);
    CountFrom(opts, script, 0);
    assert script[0..] == script;
  }

  ghost predicate RecordFrom(opts: Options, script: seq<Attempt>, n: nat) {
    exists j :: n <= j < |script| && RecordsAt(opts, script, j) && Reaches(opts, script, j)
  }

  /** An execution on a free slot leaves a row if and only if it reaches an attempt
      that leaves one. */
  lemma {:induction false} RowFrom(opts: Options, t: Table, script: seq<Attempt>, n: nat)
    requires n <= |script| && Reaches(opts, script, n) && t.row.None?
    ensures Attempts(opts, t, script[n..], FailsBefore(script, n)).0.row.Some? <==> RecordFrom(opts, script, n)
    decreases |script| - n
  {
    if n < |script| {
      assert script[n..][0] == script[n] && script[n..][1..] == script[n + 1..];
      if script[n].CommitsUnheard? {
        assert RecordsAt(opts, script, n);
        EffectsCount(opts, Committed(t, opts.name, script[n].v), script[n + 1..], FailsBefore(script, n));
      } else if PassesAt(opts, script, n) {
        RowFrom(opts, t, script, n + 1);
        assert RecordFrom(opts, script, n) <==> RecordFrom(opts, script, n + 1);
      } else {
        forall j | n < j <= |script| ensures !Reaches(opts, script, j) { assert !PassesAt(opts, script, n); }
        if RecordsAt(opts, script, n) { assert RecordFrom(opts, script, n); }
      }
    }
  }

  lemma RowIff(opts: Options, script: seq<Attempt>)
    ensures TxStep(opts, Table(None, 0), script).0.row.Some? <==> Records(opts, script)
    ensures HasOutcome(TxStep(opts, Table(None, 0), script).0) <==> Records(opts, script)
    ensures !Records(opts, script) ==> TxStep(opts, Table(None, 0), script).0 == Table(None, 0)
  {
    RowFrom(opts, Table(None, 0), script, 0);
    assert script[0..] == script;
    EffectsCount(opts, Table(None, 0), script, 0);
    NewRowHasOutcome(opts, Table(None, 0), script, 0);
  }

  lemma {:induction false} NewRowHasOutcome(opts: Options, t: Table, script: seq<Attempt>, used: nat)
    requires t.row.None? || HasOutcome(t)
    ensures var t' := Attempts(opts, t, script, used).0; t'.row.None? || HasOutcome(t')
    decreases |script|
  {
    if script != [] {
      var rest := script[1..];
      match script[0]
      case Commits(_) =>
      case Conflicts(_) => NewRowHasOutcome(opts, t, rest, used);
      case CommitsUnheard(v, _) => NewRowHasOutcome(opts, Committed(t, opts.name, v), rest, used);
      case Fails(_, _) => NewRowHasOutcome(opts, t, rest, used + 1);
    }
  }

  /** The first execution that leaves a row doubles. */
  predicate DoublesFirst(opts: Options, scripts: seq<seq<Attempt>>, n: nat)
    requires n < |scripts|
  {
    Doubles(opts, scripts[n]) && forall m :: 0 <= m < n ==> !Records(opts, scripts[m])
  }

  /** Over every sequence of executions from a free slot: the writes are there
      exactly once or not at all, as recorded, if and only if the first execution
      that leaves a row does not commit again after an unheard commit. */
  lemma {:induction false} ExecutionsExactlyOnceIff(opts: Options, scripts: seq<seq<Attempt>>)
    ensures ExactlyOnce(Executions(opts, Table(None, 0), scripts))
            <==> forall n :: 0 <= n < |scripts| ==> !DoublesFirst(opts, scripts, n)
  {
    if scripts != [] {
      var t := TxStep(opts, Table(None, 0), scripts[0]).0;
      RowIff(opts, scripts[0]);
      ExactlyOnceIff(opts, scripts[0]);
      if Records(opts, scripts[0]) {
        RecordedIsFinal(opts, t, scripts[1..], []);
        assert DoublesFirst(opts, scripts, 0) <==> Doubles(opts, scripts[0]);
      } else {
        ExecutionsExactlyOnceIff(opts, scripts[1..]);
        ShiftDoubles(opts, scripts);
      }
    }
  }

  lemma ShiftDoubles(opts: Options, scripts: seq<seq<Attempt>>)
    requires scripts != [] && !Records(opts, scripts[0])
    ensures (exists n :: 0 <= n < |scripts| && DoublesFirst(opts, scripts, n))
            <==> exists n :: 0 <= n < |scripts[1..]| && DoublesFirst(opts, scripts[1..], n)
  {
    var rest := scripts[1..];
    assert !Doubles(opts, scripts[0]) by { DoublesRecords(opts, scripts[0]); }
    forall n: nat | n < |rest| ensures DoublesFirst(opts, rest, n) <==> DoublesFirst(opts, scripts, n + 1) {
      assert forall m :: 0 <= m < n ==> rest[m] == scripts[m + 1];
      assert forall m :: 0 < m < n + 1 ==> scripts[m] == rest[m - 1];
    }
    if n :| 0 <= n < |scripts| && DoublesFirst(opts, scripts, n) {
      assert DoublesFirst(opts, rest, n - 1);
    }
  }

  lemma DoublesRecords(opts: Options, script: seq<Attempt>)
    ensures Doubles(opts, script) ==> Records(opts, script)
  {
    if i, j :| 0 <= i < j < |script| && script[i].CommitsUnheard? && CommitsAt(script, j) && Reaches(opts, script, j) {
      assert RecordsAt(opts, script, j);
    }
  }

  // ---- what one execution comes to ------------------------------------------------------------

  /** What the step answers if it does not go on after attempt `m`. */
  function AnswerOfAttempt(a: Attempt): Answer {
    match a
    case Commits(v) => Returned(v)
    case Conflicts(_) => Stopped
    case CommitsUnheard(_, _) => Stopped
    case Fails(e, recorded) => if recorded then Raised(e) else Unrecorded
  }

  /** What an attempt that leaves a row leaves in it. */
  function OutcomeOfAttempt(a: Attempt): StepOutcome
    requires !a.Conflicts?
  {
    match a
    case Commits(v) => Output(v)
    case CommitsUnheard(v, _) => Output(v)
    case Fails(e, _) => Failure(e)
  }

  /** An execution without recorded outcome answers by the first attempt after
      which it does not go on, and crashes if there is none. */
  lemma {:induction false} AnswersByLastAttempt(opts: Options, t: Table, script: seq<Attempt>, n: nat, m: nat)
    requires n <= m <= |script| && Reaches(opts, script, m) && (m < |script| ==> !PassesAt(opts, script, m))
    ensures Attempts(opts, t, script[n..], FailsBefore(script, n)).1 ==
            if m == |script| then Crashed else AnswerOfAttempt(script[m])
    decreases m - n
  {
    if n < |script| {
      assert script[n..][0] == script[n] && script[n..][1..] == script[n + 1..];
      if n < m {
        assert PassesAt(opts, script, n);
        var t' := if script[n].CommitsUnheard? then Committed(t, opts.name, script[n].v) else t;
        AnswersByLastAttempt(opts, t', script, n + 1, m);
      }
    }
  }

  /** On a free slot it leaves the row of the first attempt reached that leaves one. */
  lemma {:induction false} RowOfFirstRecord(opts: Options, t: Table, script: seq<Attempt>, n: nat, m: nat)
    requires n <= m < |script| && Reaches(opts, script, m) && RecordsAt(opts, script, m) && t.row.None?
    requires forall j :: n <= j < m ==> !RecordsAt(opts, script, j)
    ensures Attempts(opts, t, script[n..], FailsBefore(script, n)).0.row
         == Some(Slot(opts.name, Some(OutcomeOfAttempt(script[m]))))
    decreases m - n
  {
    assert script[n..][0] == script[n] && script[n..][1..] == script[n + 1..];
    if n < m {
      assert PassesAt(opts, script, n) && !RecordsAt(opts, script, n);
      RowOfFirstRecord(opts, t, script, n + 1, m);
    } else if script[n].CommitsUnheard? {
      EffectsCount(opts, Committed(t, opts.name, script[n].v), script[n + 1..], FailsBefore(script, n));
    }
  }

  /** One execution on a free slot, in full: `last` is the first attempt after which
      it does not go on, `first` the first that leaves a row. It answers what `last`
      says, and the row holds what `first` left. So a later execution answers the
      same if and only if both say the same. */
  lemma AnswerStaysIff(opts: Options, script: seq<Attempt>, first: nat, last: nat, again: seq<Attempt>)
    requires first <= last < |script| && Reaches(opts, script, last) && !PassesAt(opts, script, last)
    requires RecordsAt(opts, script, first) && forall j :: 0 <= j < first ==> !RecordsAt(opts, script, j)
    ensures var (t, a) := TxStep(opts, Table(None, 0), script);
            && a == AnswerOfAttempt(script[last])
            && t.row == Some(Slot(opts.name, Some(OutcomeOfAttempt(script[first]))))
            && TxStep(opts, t, again).0 == t && Answers(opts, t.row.value, TxStep(opts, t, again).1)
            && (Final(a) ==> (TxStep(opts, t, again).1 == a <==> OutcomeOfAttempt(script[first]) == OutcomeOfAttempt(script[last])))
  {
    assert script[0..] == script;
    AnswersByLastAttempt(opts, Table(None, 0), script, 0, last);
    RowOfFirstRecord(opts, Table(None, 0), script, 0, first);
    RecordedIsFinal(opts, TxStep(opts, Table(None, 0), script).0, [], again);
  }

  /** A retry after an unheard commit doubles the effect; or it fails, and the
      caller sees an error although the success is recorded. */
  lemma UnheardCommitRepeats(opts: Options, v: Value, v': Value, e: string)
    ensures TxStep(opts, Table(None, 0), [CommitsUnheard(v, false), Commits(v')])
         == (Table(Some(Slot(opts.name, Some(Output(v)))), 2), Returned(v'))
    ensures !ShouldUserRetry(opts, e, 0) ==>
              (TxStep(opts, Table(None, 0), [CommitsUnheard(v, false), Fails(e, true)])
               == (Table(Some(Slot(opts.name, Some(Output(v)))), 1), Raised(e)))
  {
    var t := Committed(Table(None, 0), opts.name, v);
    assert [CommitsUnheard(v, false), Commits(v')][1..] == [Commits(v')];
    assert Attempts(opts, t, [Commits(v')], 0) == (Committed(t, opts.name, v'), Returned(v'));
    assert [CommitsUnheard(v, false), Fails(e, true)][1..] == [Fails(e, true)];
    if !ShouldUserRetry(opts, e, 0) { assert Attempts(opts, t, [Fails(e, true)], 0) == (t, Raised(e)); }
  }

  /** Over a marker row, which carries no outcome, every execution commits again. */
  lemma {:induction false} BlankRowRepeats(opts: Options, t: Table, v: Value, scripts: seq<seq<Attempt>>)
    requires t.row.Some? && !HasOutcome(t) && forall i :: 0 <= i < |scripts| ==> scripts[i] == [Commits(v)]
    ensures Executions(opts, t, scripts) == t.(effects := t.effects + |scripts|)
    decreases |scripts|
  {
    if scripts != [] {
      var t' := TxStep(opts, t, scripts[0]).0;
      assert scripts[0][0] == Commits(v);
      BlankRowRepeats(opts, t', v, scripts[1..]);
    }
  }

  // ---- the retry budget -----------------------------------------------------------------

  function WithoutConflicts(script: seq<Attempt>): seq<Attempt> {
    if script == [] then []
    else if script[0] == Conflicts(false) then WithoutConflicts(script[1..])
    else [script[0]] + WithoutConflicts(script[1..])
  }

  /** Conflicts that are waited out change nothing: not the answer, not the
      table, not the user's budget. */
  lemma {:induction false} ConflictsAreFree(opts: Options, t: Table, script: seq<Attempt>, used: nat)
    ensures Attempts(opts, t, WithoutConflicts(script), used) == Attempts(opts, t, script, used)
    decreases |script|
  {
    if script != [] {
      var rest := script[1..];
      match script[0]
      case Conflicts(_) => ConflictsAreFree(opts, t, rest, used);
      case CommitsUnheard(v, _) => ConflictsAreFree(opts, Committed(t, opts.name, v), rest, used);
      case Fails(_, _) => ConflictsAreFree(opts, t, rest, used + 1);
      case Commits(_) =>
    }
  }

  /** If the body keeps failing with errors the predicate accepts, it runs once
      and then once per retry allowed, and the last error is the one recorded. */
  lemma {:induction false} BudgetIsSpent(opts: Options, t: Table, script: seq<Attempt>, used: nat)
    requires t.row.None? && used <= opts.maxRetries
    requires forall i :: 0 <= i < |script| ==> script[i].Fails? && script[i].recorded && opts.retryIf(script[i].error)
    ensures var left := opts.maxRetries - used;
            Attempts(opts, t, script, used) ==
            if |script| <= left then (t, Crashed)
            else (Inserted(t, opts.name, Failure(script[left].error)), Raised(script[left].error))
    decreases |script|
  {
    if script != [] && used < opts.maxRetries { BudgetIsSpent(opts, t, script[1..], used + 1); }
  }

  /** An error the predicate rejects ends the step at once. */
  lemma RejectedErrorEnds(opts: Options, t: Table, e: string, rest: seq<Attempt>, used: nat)
    requires t.row.None? && !opts.retryIf(e)
    ensures Attempts(opts, t, [Fails(e, true)] + rest, used) == (t.(row := Some(Slot(opts.name, Some(Failure(e))))), Raised(e))
  {
  }
}
