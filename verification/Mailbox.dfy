/** Messages between workflows: sending with a key, and receiving in order. */
module Mailbox {
  import opened Types
  import opened Store
  import opened Replay
  import opened Execution
  import opened ReplayTheorems
  import Rows
  import StoreRuns

  // ---- the messages of one topic ----------------------------------------------

  predicate Addressed(n: Note, id: Id, topic: string) {
    n.dest == id && n.topic == topic
  }

  /** The messages sent to `id` on `topic`, consumed or not, in the order sent. */
  function Box(notes: seq<Note>, id: Id, topic: string): seq<Note> {
    if notes == [] then []
    else
      var init, last := notes[..|notes| - 1], notes[|notes| - 1];
      Box(init, id, topic) + (if Addressed(last, id, topic) then [last] else [])
  }

  /** The messages that still wait are in the order of their creation times. */
  ghost predicate InOrder(box: seq<Note>) {
    forall i, j :: 0 <= i < j < |box| && !box[i].consumed && !box[j].consumed ==> box[i].createdAtMs <= box[j].createdAtMs
  }

  /** How many messages were consumed before the first that was not. */
  function FirstWaiting(box: seq<Note>): (f: nat)
    ensures f <= |box|
    ensures forall i :: 0 <= i < f ==> box[i].consumed
    ensures f < |box| ==> !box[f].consumed
  {
    if box == [] then 0
    else
      var init := box[..|box| - 1];
      var f := FirstWaiting(init);
      if f < |init| then f else if box[|box| - 1].consumed then |box| else |init|
  }

  lemma FirstWaitingIs(box: seq<Note>, f: nat)
    requires f <= |box| && (forall i :: 0 <= i < f ==> box[i].consumed) && (f < |box| ==> !box[f].consumed)
    ensures FirstWaiting(box) == f
  {
  }

  lemma FirstWaitingAppend(box: seq<Note>, n: Note)
    ensures var f := FirstWaiting(box);
            FirstWaiting(box + [n]) == if f < |box| then f else if n.consumed then |box| + 1 else |box|
  {
    assert (box + [n])[..|box|] == box;
  }

  lemma {:induction false} BoxConcat(a: seq<Note>, b: seq<Note>, id: Id, topic: string)
    ensures Box(a + b, id, topic) == Box(a, id, topic) + Box(b, id, topic)
  {
    if b == [] {
      assert a + b == a;
    } else {
      var init := b[..|b| - 1];
      assert (a + b)[..|a + b| - 1] == a + init;
      BoxConcat(a, init, id, topic);
    }
  }

  /** Where message `i` of the list is in its box. */
  lemma BoxAround(notes: seq<Note>, i: nat, id: Id, topic: string)
    requires i < |notes|
    ensures Box(notes, id, topic)
         == Box(notes[..i], id, topic) + Box([notes[i]], id, topic) + Box(notes[i + 1..], id, topic)
  {
    assert notes == notes[..i] + [notes[i]] + notes[i + 1..];
    BoxConcat(notes[..i] + [notes[i]], notes[i + 1..], id, topic);
    BoxConcat(notes[..i], [notes[i]], id, topic);
  }

  /** Replacing a message by one with the same address changes its place in the
      box, and nothing of any other box. */
  lemma BoxUpdate(notes: seq<Note>, i: nat, n: Note, id: Id, topic: string)
    requires i < |notes| && n.dest == notes[i].dest && n.topic == notes[i].topic
    ensures var box, k := Box(notes, id, topic), |Box(notes[..i], id, topic)|;
            if Addressed(notes[i], id, topic)
            then k < |box| && box[k] == notes[i] && Box(notes[i := n], id, topic) == box[k := n]
            else Box(notes[i := n], id, topic) == box
  {
    var notes' := notes[i := n];
    BoxAround(notes, i, id, topic);
    BoxAround(notes', i, id, topic);
    assert notes'[..i] == notes[..i] && notes'[i + 1..] == notes[i + 1..];
    assert [notes[i]][..0] == [] && [n][..0] == [];
  }

  // ---- the oldest waiting message is the first ---------------------------------

  lemma BoxPush(notes: seq<Note>, id: Id, topic: string, n: nat)
    requires 0 < n <= |notes|
    ensures var box0, box := Box(notes[..n - 1], id, topic), Box(notes[..n], id, topic);
            box == (if Addressed(notes[n - 1], id, topic) then box0 + [notes[n - 1]] else box0) && box[..|box0|] == box0
  {
    assert notes[..n][..n - 1] == notes[..n - 1];
  }

  /** Among the first `n`, the message the search picks is the first that waits. */
  predicate PicksFirst(notes: seq<Note>, id: Id, topic: string, n: nat)
    requires n <= |notes|
  {
    var box := Box(notes[..n], id, topic);
    match OldestAmong(notes, id, topic, n)
    case None => FirstWaiting(box) == |box|
    case Some(i) =>
      var k := |Box(notes[..i], id, topic)|;
      k == FirstWaiting(box) && k < |box| && box[k] == notes[i]
  }

  /** No message that waits is older than the first that does. */
  ghost predicate FirstIsOldest(box: seq<Note>) {
    var f := FirstWaiting(box);
    forall j :: f < j < |box| && !box[j].consumed ==> box[f].createdAtMs <= box[j].createdAtMs
  }

  lemma FirstIsOldestPrefix(box: seq<Note>, n: Note)
    requires FirstIsOldest(box + [n])
    ensures FirstIsOldest(box)
  {
    FirstWaitingAppend(box, n);
    forall j | FirstWaiting(box) < j < |box| && !box[j].consumed
      ensures box[FirstWaiting(box)].createdAtMs <= box[j].createdAtMs
    {
      assert (box + [n])[j] == box[j] && (box + [n])[FirstWaiting(box)] == box[FirstWaiting(box)];
    }
  }

  /** One more message, of this box: it is not older than the one picked so far. */
  lemma PicksFirstStill(notes: seq<Note>, id: Id, topic: string, n: nat)
    requires n < |notes| && Addressed(notes[n], id, topic) && PicksFirst(notes, id, topic, n)
    requires FirstIsOldest(Box(notes[..n], id, topic) + [notes[n]])
    ensures PicksFirst(notes, id, topic, n + 1)
  {
    var box0 := Box(notes[..n], id, topic);
    BoxPush(notes, id, topic, n + 1);
    FirstWaitingAppend(box0, notes[n]);
    var best := OldestAmong(notes, id, topic, n);
    if best.Some? {
      var k := |Box(notes[..best.value], id, topic)|;
      assert (box0 + [notes[n]])[k] == notes[best.value] && (box0 + [notes[n]])[|box0|] == notes[n];
    }
  }

  lemma {:induction false} OldestIsFirst(notes: seq<Note>, id: Id, topic: string, n: nat)
    requires n <= |notes| && FirstIsOldest(Box(notes[..n], id, topic))
    ensures PicksFirst(notes, id, topic, n)
  {
    if n > 0 {
      BoxPush(notes, id, topic, n);
      if Addressed(notes[n - 1], id, topic) {
        FirstIsOldestPrefix(Box(notes[..n - 1], id, topic), notes[n - 1]);
        OldestIsFirst(notes, id, topic, n - 1);
        PicksFirstStill(notes, id, topic, n - 1);
      } else {
        OldestIsFirst(notes, id, topic, n - 1);
      }
    }
  }

  lemma {:induction false} BoxIsAmong(notes: seq<Note>, id: Id, topic: string, k: nat) returns (i: nat)
    requires k < |Box(notes, id, topic)|
    ensures i < |notes| && notes[i] == Box(notes, id, topic)[k] && Addressed(notes[i], id, topic)
  {
    var init := notes[..|notes| - 1];
    if k < |Box(init, id, topic)| { i := BoxIsAmong(init, id, topic, k); } else { i := |notes| - 1; }
  }

  /** A receive takes the first message that waits, in the order sent, if and only
      if no message that waits carries an earlier time. */
  lemma ReceivesFirstIff(notes: seq<Note>, id: Id, topic: string)
    ensures PicksFirst(notes, id, topic, |notes|) <==> FirstIsOldest(Box(notes, id, topic))
  {
    assert notes[..|notes|] == notes;
    var box := Box(notes, id, topic);
    var f := FirstWaiting(box);
    if FirstIsOldest(box) {
      OldestIsFirst(notes, id, topic, |notes|);
    } else {
      var j :| f < j < |box| && !box[j].consumed && box[f].createdAtMs > box[j].createdAtMs;
      var i := BoxIsAmong(notes, id, topic, j);
      Rows.PicksAnOldest(notes, id, topic, |notes|, i);
    }
  }

  // ---- what every moment of a run keeps -----------------------------------------

  function Letters(s: Sys, w: Id, topic: string): seq<Note> {
    Box(s.db.notes, w, topic)
  }

  /** The consumed messages are the ones sent first. */
  ghost predicate ConsumedFirst(box: seq<Note>) {
    InOrder(box) && forall i :: FirstWaiting(box) <= i < |box| ==> !box[i].consumed
  }

  /** Others only send: later messages, not yet consumed. */
  ghost predicate OnlySends(box: seq<Note>, box': seq<Note>) {
    && |box| <= |box'| && box'[..|box|] == box && InOrder(box')
    && forall i :: |box| <= i < |box'| ==> !box'[i].consumed
  }

  /** The event makes execution `ev.e` take a message of the topic. */
  predicate Receives(c: Config, s: Sys, ev: Event, topic: string) {
    && ev.Poll? && At(c, s, ev.e) && s.execs[ev.e].pc.Polling?
    && OpOf(c, s, ev.e).Recv? && OpOf(c, s, ev.e).topic == topic
    && Oldest(s.db.notes, c.w, topic).Some?
  }

  /** The row under number `k` holds the message. */
  ghost predicate RowHolds(c: Config, s: Sys, k: int, message: Value) {
    (c.w, k) in s.db.steps && s.db.steps[(c.w, k)] == StepRow("DBOS.recv", Some(message), None, None)
  }

  /** `slots` are the numbers of the receives so far, in order; from message
      `from` on they hold the messages of the topic in the order sent, and the
      messages up to there are exactly the consumed ones. */
  ghost predicate Delivered(c: Config, s: Sys, topic: string, from: nat, slots: seq<int>) {
    var box := Letters(s, c.w, topic);
    && ConsumedFirst(box)
    && from + |slots| == FirstWaiting(box)
    && (forall q :: 0 <= q < |slots| ==> RowHolds(c, s, slots[q], box[from + q].message))
    && (forall p, q :: 0 <= p < q < |slots| ==> slots[p] < slots[q])
  }

  /** A number that holds a received message is below the one being worked on. */
  lemma ReceivedBefore(c: Config, s: Sys, e: int, k: int, message: Value)
    requires Inv(c, s) && At(c, s, e) && OpOf(c, s, e).Recv? && (c.w, s.execs[e].next) !in s.db.steps
    requires RowHolds(c, s, k, message)
    ensures k < s.execs[e].next
  {
    var h := Views(s.execs[e].hist);
    var log := s.db.steps;
    assert ExecOk(c, log, s.execs[e]);
    assert HasRow(c.w, log, k);
    var g :| Writer(c.w, c.body, log, k, g);
    NotADeadline(c, s, k, message);
    if |g| < |h| { PastWriter(c.w, c.body, log, h, k, g); }
    else if |g| > |h| { PastOperation(c.w, c.body, log, h, g); }
    else { SameLength(c.w, c.body, log, h, g); }
  }

  lemma NotADeadline(c: Config, s: Sys, k: int, message: Value)
    requires RowHolds(c, s, k, message)
    ensures s.db.steps[(c.w, k)].name != "DBOS.sleep"
  {
    assert "DBOS.recv"[5] != "DBOS.sleep"[5];
  }

  /** Marking the first waiting message consumed moves the mark by one. */
  lemma MarkConsumed(box: seq<Note>)
    requires ConsumedFirst(box) && FirstWaiting(box) < |box|
    ensures var f := FirstWaiting(box); var box' := box[f := box[f].(consumed := true)];
            ConsumedFirst(box') && FirstWaiting(box') == f + 1
  {
    var f := FirstWaiting(box);
    FirstWaitingIs(box[f := box[f].(consumed := true)], f + 1);
  }

  /** A receive consumes the first message that waits and records it, unless there
      is a row under its number already. */
  lemma ReceiveBox(c: Config, s: Sys, topic: string, e: int)
    requires Receives(c, s, Poll(e), topic) && ConsumedFirst(Letters(s, c.w, topic))
    ensures var box := Letters(s, c.w, topic); var f := FirstWaiting(box);
            && f < |box|
            && Letters(DoPoll(c, s, e), c.w, topic) == box[f := box[f].(consumed := true)]
            && DoPoll(c, s, e).db.steps ==
               if (c.w, s.execs[e].next) in s.db.steps then s.db.steps
               else s.db.steps[(c.w, s.execs[e].next) := StepRow("DBOS.recv", Some(box[f].message), None, None)]
  {
    var notes := s.db.notes;
    assert notes[..|notes|] == notes;
    ReceivesFirstIff(notes, c.w, topic);
    var i := Oldest(notes, c.w, topic).value;
    BoxUpdate(notes, i, notes[i].(consumed := true), c.w, topic);
  }

  /** The receive finds its number free; or, by chance, under a number no receive
      of the run has used, a row that already holds this very message (a timeout
      recorded there holds a null one). */
  ghost predicate ReceiveFits(c: Config, s: Sys, ev: Event, topic: string, slots: seq<int>) {
    Receives(c, s, ev, topic) ==>
      var box, k := Letters(s, c.w, topic), s.execs[ev.e].next;
      || (c.w, k) !in s.db.steps
      || ((forall q :: 0 <= q < |slots| ==> slots[q] < k)
          && FirstWaiting(box) < |box| && RowHolds(c, s, k, box[FirstWaiting(box)].message))
  }

  lemma ReceiveStep(c: Config, s: Sys, topic: string, e: int, from: nat, slots: seq<int>)
    requires Inv(c, s) && Receives(c, s, Poll(e), topic) && Delivered(c, s, topic, from, slots)
    requires ReceiveFits(c, s, Poll(e), topic, slots)
    ensures Delivered(c, DoPoll(c, s, e), topic, from, slots + [s.execs[e].next])
  {
    var box, k := Letters(s, c.w, topic), s.execs[e].next;
    ReceiveBox(c, s, topic, e);
    MarkConsumed(box);
    var s', slots' := DoPoll(c, s, e), slots + [k];
    forall q | 0 <= q < |slots| ensures slots[q] < k {
      if (c.w, k) !in s.db.steps { ReceivedBefore(c, s, e, slots[q], box[from + q].message); }
    }
    forall q | 0 <= q < |slots'| ensures RowHolds(c, s', slots'[q], Letters(s', c.w, topic)[from + q].message) {
      if q < |slots| { assert RowHolds(c, s, slots[q], box[from + q].message); }
    }
  }

  /** Otherwise the message is consumed, and the row is another's. */
  lemma ReceiveLoses(c: Config, s: Sys, topic: string, e: int, from: nat, slots: seq<int>)
    requires Receives(c, s, Poll(e), topic) && Delivered(c, s, topic, from, slots)
    requires !ReceiveFits(c, s, Poll(e), topic, slots)
    ensures !Delivered(c, DoPoll(c, s, e), topic, from, slots + [s.execs[e].next])
  {
    var box, k := Letters(s, c.w, topic), s.execs[e].next;
    ReceiveBox(c, s, topic, e);
    var s', slots' := DoPoll(c, s, e), slots + [k];
    if Delivered(c, s', topic, from, slots') {
      assert RowHolds(c, s', slots'[|slots|], Letters(s', c.w, topic)[from + |slots|].message);
      forall q | 0 <= q < |slots| ensures slots[q] < k { assert slots'[q] < slots'[|slots|]; }
    }
  }

  /** A receive keeps delivery exactly-once and in order if and only if it fits. */
  lemma ReceiveDeliversIff(c: Config, s: Sys, topic: string, e: int, from: nat, slots: seq<int>)
    requires Inv(c, s) && Receives(c, s, Poll(e), topic) && Delivered(c, s, topic, from, slots)
    ensures Delivered(c, DoPoll(c, s, e), topic, from, slots + [s.execs[e].next])
            <==> ReceiveFits(c, s, Poll(e), topic, slots)
  {
    if ReceiveFits(c, s, Poll(e), topic, slots) { ReceiveStep(c, s, topic, e, from, slots); }
    else { ReceiveLoses(c, s, topic, e, from, slots); }
  }

  /** Any other event leaves the topic's messages alone, or sends more. */
  lemma OtherEventsKeepBox(c: Config, s: Sys, ev: Event, topic: string)
    requires Enabled(c, s, ev) && !Receives(c, s, ev, topic) && !ev.Others?
    ensures Letters(Next(c, s, ev), c.w, topic) == Letters(s, c.w, topic)
  {
    if ev.Poll? && OpOf(c, s, ev.e).Recv? && Oldest(s.db.notes, c.w, OpOf(c, s, ev.e).topic).Some? {
      var i := Oldest(s.db.notes, c.w, OpOf(c, s, ev.e).topic).value;
      BoxUpdate(s.db.notes, i, s.db.notes[i].(consumed := true), c.w, topic);
    } else {
      assert Next(c, s, ev).db.notes == s.db.notes;
    }
  }

  lemma SendsKeepFirst(box: seq<Note>, box': seq<Note>)
    requires ConsumedFirst(box) && OnlySends(box, box')
    ensures ConsumedFirst(box') && FirstWaiting(box') == FirstWaiting(box)
  {
    assert forall i :: 0 <= i < |box| ==> box'[i] == box[i];
    FirstWaitingIs(box', FirstWaiting(box));
  }

  lemma DeliveredKept(c: Config, s: Sys, s': Sys, topic: string, from: nat, slots: seq<int>)
    requires Delivered(c, s, topic, from, slots) && Grows(c.w, s.db.steps, s'.db.steps)
    requires OnlySends(Letters(s, c.w, topic), Letters(s', c.w, topic))
    ensures Delivered(c, s', topic, from, slots)
  {
    var box, box' := Letters(s, c.w, topic), Letters(s', c.w, topic);
    SendsKeepFirst(box, box');
    forall q | 0 <= q < |slots| ensures RowHolds(c, s', slots[q], box'[from + q].message) {
      assert RowHolds(c, s, slots[q], box[from + q].message);
      assert box'[from + q] == box'[..|box|][from + q];
    }
  }

  lemma DeliveredStepIff(c: Config, s: Sys, ev: Event, topic: string, from: nat, slots: seq<int>)
    requires Inv(c, s) && Enabled(c, s, ev) && Delivered(c, s, topic, from, slots) && Sending(c, s, ev, topic)
    ensures Delivered(c, Next(c, s, ev), topic, from,
                      if Receives(c, s, ev, topic) then slots + [s.execs[ev.e].next] else slots)
            <==> ReceiveFits(c, s, ev, topic, slots)
  {
    if Receives(c, s, ev, topic) {
      ReceiveDeliversIff(c, s, topic, ev.e, from, slots);
    } else {
      LogGrowsStep(c, s, ev);
      if !ev.Others? { OtherEventsKeepBox(c, s, ev, topic); }
      DeliveredKept(c, s, Next(c, s, ev), topic, from, slots);
    }
  }

  // ---- exactly-once, in order -----------------------------------------------------

  /** The step numbers at which messages of the topic were received. */
  ghost function Receipts(c: Config, r: Run, topic: string, n: nat): seq<int>
    requires IsRun(c, r) && n < |r.ss|
  {
    if n == 0 then []
    else
      var s, ev := r.ss[n - 1], r.es[n - 1];
      Receipts(c, r, topic, n - 1) + (if Receives(c, s, ev, topic) then [s.execs[ev.e].next] else [])
  }

  ghost predicate Sending(c: Config, s: Sys, ev: Event, topic: string) {
    ev.Others? ==> OnlySends(Letters(s, c.w, topic), Box(ev.db.notes, c.w, topic))
  }

  ghost predicate OthersOnlySend(c: Config, r: Run, topic: string)
    requires IsRun(c, r)
  {
    forall i :: 0 <= i < |r.es| ==> Sending(c, r.ss[i], r.es[i], topic)
  }

  ghost predicate DeliveredAt(c: Config, r: Run, topic: string, from: nat, n: nat)
    requires IsRun(c, r) && n < |r.ss|
  {
    Delivered(c, r.ss[n], topic, from, Receipts(c, r, topic, n))
  }

  ghost predicate FitsAt(c: Config, r: Run, topic: string, n: nat)
    requires IsRun(c, r) && n < |r.es|
  {
    ReceiveFits(c, r.ss[n], r.es[n], topic, Receipts(c, r, topic, n))
  }

  lemma DeliveredNextIff(c: Config, r: Run, topic: string, from: nat, n: nat)
    requires GoodRun(c, r) && n < |r.es| && OthersOnlySend(c, r, topic) && DeliveredAt(c, r, topic, from, n)
    ensures DeliveredAt(c, r, topic, from, n + 1) <==> FitsAt(c, r, topic, n)
  {
    assert StepsAt(c, r, n) && Sending(c, r.ss[n], r.es[n], topic);
    InvHolds(c, r, n);
    DeliveredStepIff(c, r.ss[n], r.es[n], topic, from, Receipts(c, r, topic, n));
  }

  lemma {:induction false} DeliveredWhileFitting(c: Config, r: Run, topic: string, from: nat, n: nat)
    requires GoodRun(c, r) && n < |r.ss| && OthersOnlySend(c, r, topic) && DeliveredAt(c, r, topic, from, 0)
    requires forall i :: 0 <= i < n ==> FitsAt(c, r, topic, i)
    ensures DeliveredAt(c, r, topic, from, n)
  {
    if n > 0 {
      DeliveredWhileFitting(c, r, topic, from, n - 1);
      assert FitsAt(c, r, topic, n - 1);
      DeliveredNextIff(c, r, topic, from, n - 1);
    }
  }

  /** In every run of any number of executions: at all moments the messages
      recorded by the receives on a topic, in the order of their step numbers, are
      the next messages sent, without gap or repeat, and exactly they are consumed,
      if and only if every receive fits. */
  lemma FifoReceiveIff(c: Config, r: Run, topic: string, from: nat)
    requires GoodRun(c, r) && OthersOnlySend(c, r, topic) && DeliveredAt(c, r, topic, from, 0)
    ensures (forall n :: 0 <= n < |r.ss| ==> DeliveredAt(c, r, topic, from, n))
            <==> (forall n :: 0 <= n < |r.es| ==> FitsAt(c, r, topic, n))
  {
    if forall n :: 0 <= n < |r.es| ==> FitsAt(c, r, topic, n) {
      forall n | 0 <= n < |r.ss| ensures DeliveredAt(c, r, topic, from, n) { DeliveredWhileFitting(c, r, topic, from, n); }
    }
    if forall n :: 0 <= n < |r.ss| ==> DeliveredAt(c, r, topic, from, n) {
      forall n | 0 <= n < |r.es| ensures FitsAt(c, r, topic, n) {
        DeliveredNextIff(c, r, topic, from, n);
      }
    }
  }

  /** The receive finds its number free. */
  predicate FindsFree(c: Config, s: Sys, ev: Event, topic: string) {
    Receives(c, s, ev, topic) ==> (c.w, s.execs[ev.e].next) !in s.db.steps
  }

  /** A lone execution's receive always does. */
  lemma SoloFindsFree(c: Config, s: Sys, ev: Event, topic: string)
    requires Inv(c, s) && c.solo
    ensures FindsFree(c, s, ev, topic)
  {
    if Receives(c, s, ev, topic) { assert ExecOk(c, s.db.steps, s.execs[ev.e]); }
  }

  /** So it is, at every moment, with one execution at a time, and with any number
      of them whose receives find their numbers free. */
  lemma FifoReceive(c: Config, r: Run, topic: string, from: nat, n: nat)
    requires GoodRun(c, r) && n < |r.ss| && OthersOnlySend(c, r, topic) && DeliveredAt(c, r, topic, from, 0)
    requires c.solo || forall i :: 0 <= i < |r.es| ==> FindsFree(c, r.ss[i], r.es[i], topic)
    ensures DeliveredAt(c, r, topic, from, n)
  {
    forall i | 0 <= i < n ensures FitsAt(c, r, topic, i) {
      if c.solo { InvHolds(c, r, i); SoloFindsFree(c, r.ss[i], r.es[i], topic); }
      assert FindsFree(c, r.ss[i], r.es[i], topic);
    }
    DeliveredWhileFitting(c, r, topic, from, n);
  }

  // ---- which calls only send ---------------------------------------------------------

  lemma {:induction false} KeptNotesBox(notes: seq<Note>, gone: set<Id>, id: Id, topic: string)
    requires id !in gone
    ensures Box(KeepNotes(notes, gone), id, topic) == Box(notes, id, topic)
  {
    if notes != [] {
      KeptNotesBox(notes[1..], gone, id, topic);
      assert notes == [notes[0]] + notes[1..];
      BoxConcat([notes[0]], notes[1..], id, topic);
      BoxConcat([notes[0]], KeepNotes(notes[1..], gone), id, topic);
      assert [notes[0]][..0] == [];
    }
  }

  /** No message that waits is later than this. */
  ghost predicate NotBehind(box: seq<Note>, now: int) {
    forall i :: 0 <= i < |box| && !box[i].consumed ==> box[i].createdAtMs <= now
  }

  lemma LaterIsOnlySent(box: seq<Note>, n: Note)
    requires InOrder(box) && !n.consumed && NotBehind(box, n.createdAtMs)
    ensures OnlySends(box, box) && OnlySends(box, box + [n])
  {
  }

  lemma SendAppends(notes: seq<Note>, n: Note, w: Id, topic: string)
    requires InOrder(Box(notes, w, topic)) && !n.consumed && NotBehind(Box(notes, w, topic), n.createdAtMs)
    ensures OnlySends(Box(notes, w, topic), Box(notes + [n], w, topic))
  {
    assert (notes + [n])[..|notes|] == notes;
    LaterIsOnlySent(Box(notes, w, topic), n);
    assert Box(notes, w, topic) + [] == Box(notes, w, topic);
  }

  /** The calls that do not touch the messages of `w` on the topic. */
  ghost predicate LeavesBox(db: Db, op: StoreRuns.Op, w: Id) {
    match op
    case InsertNoteOp(_, _, _, _, _, _) => false
    case ConsumeOp(id, _, _, _) => id != w
    case DeleteOp(ids, children) => w !in DeleteTargets(db, ids, children)
    case _ => true
  }

  lemma BoxLeft(db: Db, op: StoreRuns.Op, w: Id, topic: string)
    requires LeavesBox(db, op, w)
    ensures Box(StoreRuns.Apply(db, op).notes, w, topic) == Box(db.notes, w, topic)
  {
    match op
    case InsertNoteOp(_, _, _, _, _, _) =>
    case ConsumeOp(id, t, _, _) =>
      var i := Oldest(db.notes, id, t);
      if i.Some? { BoxUpdate(db.notes, i.value, db.notes[i.value].(consumed := true), w, topic); }
    case DeleteOp(ids, children) => KeptNotesBox(db.notes, DeleteTargets(db, ids, children), w, topic);
    case _ => assert StoreRuns.Apply(db, op).notes == db.notes;
  }

  /** Every provider call but a receive by `w` and a deletion of `w` only sends,
      if the clock does not run back behind a message that waits. */
  lemma CallsOnlySend(db: Db, op: StoreRuns.Op, w: Id, topic: string)
    requires InOrder(Box(db.notes, w, topic))
    requires LeavesBox(db, op, w)
             || (op.InsertNoteOp? && NotBehind(Box(db.notes, w, topic), op.now))
    ensures OnlySends(Box(db.notes, w, topic), Box(StoreRuns.Apply(db, op).notes, w, topic))
  {
    if LeavesBox(db, op, w) {
      BoxLeft(db, op, w, topic);
    } else {
      var n := Note(NoteUuid(op.id, op.key, op.randomId), op.id, op.topic, op.value, false, op.now);
      SendAppends(db.notes, n, w, topic);
      assert StoreRuns.Apply(db, op).notes == if Sends(db, op.id, op.key) then db.notes + [n] else db.notes;
    }
  }
}

/** Sending with an idempotency key. */
module KeyedSend {
  import opened Types
  import opened Store
  import StoreRuns

  // ---- one row per key ------------------------------------------------------------------

  ghost predicate AtMostOne(notes: seq<Note>, uuid: string) {
    forall i, j :: 0 <= i < j < |notes| ==> !(notes[i].uuid == uuid && notes[j].uuid == uuid)
  }

  lemma {:induction false} KeptNotesSub(notes: seq<Note>, gone: set<Id>, uuid: string)
    requires AtMostOne(notes, uuid)
    ensures AtMostOne(KeepNotes(notes, gone), uuid)
    ensures UuidUsed(KeepNotes(notes, gone), uuid) ==> UuidUsed(notes, uuid)
  {
    if notes != [] {
      var rest := notes[1..];
      assert AtMostOne(rest, uuid);
      KeptNotesSub(rest, gone, uuid);
      if UuidUsed(rest, uuid) {
        var i :| 0 <= i < |rest| && rest[i].uuid == uuid;
        assert notes[i + 1] == rest[i];
      }
    }
  }

  lemma AtMostOneStep(db: Db, op: StoreRuns.Op, key: string, dest: Id)
    requires AtMostOne(db.notes, KeyedUuid(key, dest))
    requires op.InsertNoteOp? && op.key.None? ==> op.randomId != KeyedUuid(key, dest)
    ensures AtMostOne(StoreRuns.Apply(db, op).notes, KeyedUuid(key, dest))
  {
    match op
    case DeleteOp(ids, children) => KeptNotesSub(db.notes, DeleteTargets(db, ids, children), KeyedUuid(key, dest));
    case InsertNoteOp(_, _, _, _, _, _) =>
    case ConsumeOp(_, _, _, _) =>
    case _ => assert StoreRuns.Apply(db, op).notes == db.notes;
  }

  /** However often and from wherever it is repeated, a keyed send has at most one
      row, provided no random id happens to equal its derived one. */
  lemma {:induction false} KeyedSendOnce(db: Db, ops: seq<StoreRuns.Op>, key: string, dest: Id)
    requires AtMostOne(db.notes, KeyedUuid(key, dest))
    requires forall i :: 0 <= i < |ops| && ops[i].InsertNoteOp? && ops[i].key.None? ==>
               ops[i].randomId != KeyedUuid(key, dest)
    ensures AtMostOne(StoreRuns.After(db, ops).notes, KeyedUuid(key, dest))
  {
    if ops != [] {
      KeyedSendOnce(db, ops[..|ops| - 1], key, dest);
      AtMostOneStep(StoreRuns.After(db, ops[..|ops| - 1]), ops[|ops| - 1], key, dest);
    }
  }

  // ---- which sends share a row ------------------------------------------------------------

  lemma CancelPrefix(a: string, x: string, y: string)
    ensures a + x == a + y <==> x == y
  {
    assert (a + x)[|a|..] == x && (a + y)[|a|..] == y;
  }

  /** How "::" + d can equal x + "::" + d'. */
  ghost predicate Overlaps(x: string, d: Id, d': Id) {
    || (x == "" && d == d')
    || (x == ":" && d == ":" + d')
    || (|x| >= 2 && x[..2] == "::" && d == x[2..] + "::" + d')
  }

  lemma TailsOverlap(x: string, d: Id, d': Id)
    ensures "::" + d == x + ("::" + d') <==> Overlaps(x, d, d')
  {
    var l, r := "::" + d, x + ("::" + d');
    if |x| == 0 {
      assert r == "::" + d';
      CancelPrefix("::", d, d');
    } else if |x| == 1 {
      assert l == ":" + (":" + d);
      assert x == ":" ==> r == ":" + (":" + (":" + d'));
      CancelPrefix(":", ":" + d, ":" + (":" + d'));
      CancelPrefix(":", d, ":" + d');
      assert l[0] == ':' && r[0] == x[0];
      assert x[0] == ':' ==> x == ":";
    } else {
      assert x == x[..2] + x[2..];
      assert r == x[..2] + (x[2..] + "::" + d');
      assert l[..2] == "::" && r[..2] == x[..2];
      CancelPrefix("::", d, x[2..] + "::" + d');
    }
  }

  /** Two keyed sends share a row exactly if they have the same key and
      destination, or one key continues the other so that the separator overlaps. */
  lemma KeyedUuidsEqual(k: string, d: Id, k': string, d': Id)
    requires |k| <= |k'|
    ensures KeyedUuid(k, d) == KeyedUuid(k', d') <==> k <= k' && Overlaps(k'[|k|..], d, d')
  {
    var l, r := KeyedUuid(k, d), KeyedUuid(k', d');
    assert l == k + ("::" + d) && r == k' + ("::" + d');
    if k <= k' {
      var x := k'[|k|..];
      assert k' == k + x;
      assert r == k + (x + ("::" + d'));
      CancelPrefix(k, "::" + d, x + ("::" + d'));
      TailsOverlap(x, d, d');
    } else {
      assert l[..|k|] == k && r[..|k|] == k'[..|k|];
    }
  }

  predicate EndsInColon(k: string) {
    k != "" && k[|k| - 1] == ':'
  }

  predicate HasSeparator(k: string) {
    exists i :: 0 <= i < |k| - 1 && k[i] == ':' && k[i + 1] == ':'
  }

  /** Keys that neither contain the separator nor end in a colon never collide. */
  lemma CleanKeysDistinct(k: string, d: Id, k': string, d': Id)
    requires !HasSeparator(k) && !EndsInColon(k) && !HasSeparator(k') && !EndsInColon(k')
    requires KeyedUuid(k, d) == KeyedUuid(k', d')
    ensures k == k' && d == d'
  {
    if |k| <= |k'| { CleanLonger(k, d, k', d'); } else { CleanLonger(k', d', k, d); }
  }

  lemma CleanLonger(k: string, d: Id, k': string, d': Id)
    requires |k| <= |k'| && !HasSeparator(k') && !EndsInColon(k') && KeyedUuid(k, d) == KeyedUuid(k', d')
    ensures k == k' && d == d'
  {
    KeyedUuidsEqual(k, d, k', d');
    var x := k'[|k|..];
    assert k' == k + x;
    SeparatorInside(k, x);
  }

  lemma SeparatorInside(k: string, x: string)
    ensures |x| >= 2 && x[..2] == "::" ==> HasSeparator(k + x)
  {
    if |x| >= 2 && x[..2] == "::" {
      var i := |k|;
      assert (k + x)[i] == x[..2][0] && (k + x)[i + 1] == x[..2][1];
    }
  }

  /** Freedom from the separator alone is not enough. */
  lemma ColonKeysCollide(k: string, d: Id)
    ensures KeyedUuid(k + ":", d) == KeyedUuid(k, ":" + d)
  {
  }

  /** To one destination, different keys never collide. */
  lemma SameDestinationDistinct(k: string, k': string, d: Id)
    requires KeyedUuid(k, d) == KeyedUuid(k', d)
    ensures k == k'
  {
    if |k| <= |k'| { KeyedUuidsEqual(k, d, k', d); } else { KeyedUuidsEqual(k', d, k, d); }
  }
}
