/** What the rows of the log hold, field by field, and what is read back from them. */
module Rows {
  import opened Types
  import opened Store
  import opened Replay

  /** The row carries the operation's name. */
  predicate Named(row: StepRow, op: Operation) {
    match op
    case Step(n) => row.name == n
    case Draw(n) => row.name == n
    case Sleep(_) => row.name == "DBOS.sleep"
    case Recv(_, _) => row.name == "DBOS.recv"
    case GetEvent(_, _, _) => row.name == "DBOS.getEvent"
    case Patch(n) => row.name == "DBOS.patch-" + n
  }

  predicate HoldsOutput(row: StepRow, v: Value) {
    row.output == Some(v) && row.error == None && row.childId == None
  }

  predicate HoldsError(row: StepRow, text: string) {
    row.output == None && row.error == Some(text) && row.childId == None
  }

  /** The row is the outcome of work: a value as it is, an error as its text. */
  predicate HoldsOutcome(row: StepRow, r: Res) {
    match r
    case Ok(v) => HoldsOutput(row, v)
    case Err(App(t)) => HoldsError(row, t)
    case Err(Typed(_, t)) => HoldsError(row, t)
    case Err(Cancellation(id)) => HoldsError(row, "workflow `" + id + "` was cancelled")
    case _ => false
  }

  /** `m` is the message of a note that waits for `w` on the topic, and none that
      waits is older. */
  ghost predicate NextMessage(notes: seq<Note>, w: Id, topic: string, m: Value) {
    exists i :: 0 <= i < |notes| && notes[i].message == m && IsOldest(notes, w, topic, i)
  }

  ghost predicate IsOldest(notes: seq<Note>, w: Id, topic: string, i: nat)
    requires i < |notes|
  {
    && !notes[i].consumed && notes[i].dest == w && notes[i].topic == topic
    && forall j :: 0 <= j < |notes| && !notes[j].consumed && notes[j].dest == w && notes[j].topic == topic ==>
         notes[i].createdAtMs <= notes[j].createdAtMs
  }

  /** The search picks one of the oldest messages that wait. */
  lemma {:induction false} PicksAnOldest(notes: seq<Note>, id: Id, topic: string, n: nat, j: nat)
    requires j < n <= |notes| && Store.Waiting(notes[j], id, topic)
    ensures var r := OldestAmong(notes, id, topic, n);
            r.Some? && notes[r.value].createdAtMs <= notes[j].createdAtMs
  {
    if j < n - 1 { PicksAnOldest(notes, id, topic, n - 1, j); }
  }

  lemma SearchFindsOldest(notes: seq<Note>, w: Id, topic: string, i: nat)
    requires Oldest(notes, w, topic) == Some(i)
    ensures i < |notes| && IsOldest(notes, w, topic, i)
  {
    forall j | 0 <= j < |notes| && !notes[j].consumed && notes[j].dest == w && notes[j].topic == topic
      ensures notes[i].createdAtMs <= notes[j].createdAtMs
    {
      PicksAnOldest(notes, w, topic, |notes|, j);
    }
  }

  function TimeoutFor(op: Operation): int {
    if op.Recv? then op.timeoutMs else if op.GetEvent? then op.timeoutMs else 0
  }

  /** What a body gets from a row that is there: the value, the error's text, and
      from a wait no null. */
  predicate ReadBack(op: Operation, row: StepRow, r: Res) {
    if op.Patch? then r == Flag(row.name == "DBOS.patch-" + op.name)
    else if row.error.Some? then r == Err(App(row.error.value))
    else
      var v := if row.output.Some? then row.output.value else Null;
      match op
      case Sleep(_) => r == Ok(Null)
      case Recv(_, _) => r == Msg(if v == Null then None else Some(v))
      case GetEvent(_, _, _) => r == Msg(if v == Null then None else Some(v))
      case _ => r == Ok(v)
  }
}
