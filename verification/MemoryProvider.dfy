/** The in-memory provider: the store as an object whose methods update its
    fields, each proved to do what the corresponding function on the store's
    value says. */
module MemoryProvider {
  import opened Types
  import opened ClaimOrder
  import opened Lineage
  import opened Store
  import opened Claims

  // ---- sorting and picking -------------------------------------------------

  method FindLeast(keys: set<Key>) returns (m: Key)
    requires keys != {}
    ensures IsLeast(m, keys)
  {
    m :| m in keys;
    var todo := keys - {m};
    while todo != {}
      invariant m in keys && todo <= keys
      invariant forall k :: k in keys - todo ==> k == m || Less(m, k)
      decreases todo
    {
      var k :| k in todo;
      LessTotal(k, m);
      if Less(k, m) {
        forall j | j in keys - todo && j != m ensures Less(k, j) { LessTransitive(k, m, j); }
        m := k;
      }
      todo := todo - {k};
    }
  }

  method SortKeys(keys: set<Key>) returns (s: seq<Key>)
    ensures Sorted(s) && |s| == |keys| && (forall k :: k in s <==> k in keys)
  {
    s := [];
    var rest := keys;
    while rest != {}
      invariant rest <= keys && Sorted(s) && |s| + |rest| == |keys|
      invariant forall k :: k in s <==> k in keys - rest
      invariant forall i, k :: 0 <= i < |s| && k in rest ==> Less(s[i], k)
      decreases rest
    {
      var m := FindLeast(rest);
      assert forall i :: 0 <= i < |s| ==> Less(s[i], m);
      s := s + [m];
      rest := rest - {m};
    }
  }

  /** Sorting all keys and keeping the first `n` gives the `n` smallest. */
  lemma TruncatedSortIsSmallest(keys: set<Key>, s: seq<Key>, n: nat)
    requires Sorted(s) && |s| == |keys| && (forall k :: k in s <==> k in keys)
    ensures s[..Min(n, |s|)] == Smallest(keys, n)
  {
    var r := s[..Min(n, |s|)];
    forall i, k | 0 <= i < |r| && k in keys && k !in r ensures Less(r[i], k) {
      var j :| 0 <= j < |s| && s[j] == k;
      assert s[j] !in s[..Min(n, |s|)];
    }
    SmallestUnique(keys, n, r);
  }

  lemma ClaimOneMore(db: Db, ids: set<Id>, id: Id, req: DequeueRequest, now: int)
    requires id in db.workflows && id !in ids
    ensures ClaimAll(db, ids + {id}, req, now)
         == Put(ClaimAll(db, ids, req, now), id, ClaimedRow(db.workflows[id], req, now))
  {
    assert ClaimAll(db, ids + {id}, req, now).workflows
        == ClaimAll(db, ids, req, now).workflows[id := ClaimedRow(db.workflows[id], req, now)];
  }

  lemma {:induction false} KeepNotesTwice(notes: seq<Note>, a: set<Id>, b: set<Id>)
    ensures KeepNotes(KeepNotes(notes, a), b) == KeepNotes(notes, a + b)
  {
    if notes != [] {
      KeepNotesTwice(notes[1..], a, b);
      if notes[0].dest !in a {
        assert ([notes[0]] + KeepNotes(notes[1..], a))[1..] == KeepNotes(notes[1..], a);
      }
    }
  }

  lemma DeleteOneMore(db: Db, gone: set<Id>, id: Id)
    ensures Delete(Delete(db, gone), {id}) == Delete(db, gone + {id})
  {
    KeepNotesTwice(db.notes, gone, {id});
    var twice, once := Delete(Delete(db, gone), {id}), Delete(db, gone + {id});
    assert twice.workflows == once.workflows;
    assert twice.steps == once.steps;
    assert twice.streams == once.streams;
  }

  lemma {:induction false} KeepNoneGone(notes: seq<Note>)
    ensures KeepNotes(notes, {}) == notes
  {
    if notes != [] { KeepNoneGone(notes[1..]); }
  }

  lemma DeleteNothing(db: Db)
    ensures Delete(db, {}) == db
  {
    KeepNoneGone(db.notes);
    var none := Delete(db, {});
    assert none.workflows == db.workflows && none.steps == db.steps && none.streams == db.streams;
  }

  // ---- loops over the rows --------------------------------------------------

  /** The row is delayed, and its time has come. */
  predicate TimeHasCome(r: Row, now: int) {
    r.status == Delayed && r.delayUntilMs.Some? && now >= r.delayUntilMs.value
  }

  function DueIds(wf: map<Id, Row>, now: int): set<Id> {
    set id | id in wf && TimeHasCome(wf[id], now)
  }

  /** `wf'` has the due rows enqueued and the others as they were. */
  ghost predicate Promoted(wf: map<Id, Row>, now: int, wf': map<Id, Row>) {
    && wf'.Keys == wf.Keys
    && forall id :: id in wf ==>
         wf'[id] == if TimeHasCome(wf[id], now) then wf[id].(status := Enqueued, delayUntilMs := None) else wf[id]
  }

  /** Promote every due delayed row, counting them. */
  method ReleaseDue(wf: map<Id, Row>, now: int) returns (wf': map<Id, Row>, n: nat)
    ensures Promoted(wf, now, wf') && n == |DueIds(wf, now)|
  {
    var todo := wf.Keys;
    ghost var seen: set<Id> := {};
    wf', n := wf, 0;
    while todo != {}
      invariant todo <= wf.Keys && wf'.Keys == wf.Keys && |seen| == n
      invariant forall id :: id in seen <==> id in wf && id !in todo && TimeHasCome(wf[id], now)
      invariant forall id :: id in wf ==> wf'[id] == if id in todo then wf[id] else Released(wf[id], now)
      decreases todo
    {
      var id :| id in todo;
      todo := todo - {id};
      if Due(wf[id], now) {
        wf' := wf'[id := Released(wf[id], now)];
        n := n + 1;
        seen := seen + {id};
      }
    }
    assert seen == DueIds(wf, now);
  }

  lemma PromotedIs(db: Db, now: int, wf': map<Id, Row>)
    requires Promoted(db.workflows, now, wf')
    ensures db.(workflows := wf') == TransitionDelayed(db, now)
  {
    assert wf' == TransitionDelayed(db, now).workflows;
  }

  ghost function KeyIds(keys: seq<Key>): set<Id> {
    set i | 0 <= i < |keys| :: keys[i].id
  }

  lemma NothingClaimed(db: Db, req: DequeueRequest, now: int, latest: Option<string>)
    requires Budget(db, req, now) <= 0
    ensures Dequeue(db, req, now, latest) == db
  {
    assert ClaimedIds(db, req, now, latest) == {};
    assert ClaimAll(db, {}, req, now).workflows == db.workflows;
  }

  lemma OrderedByRows(wf: map<Id, Row>, req: DequeueRequest, latest: Option<string>, keys: set<Key>, n: nat, ids: seq<Key>)
    requires keys == (set id | id in wf && Eligible(wf[id], req, latest) :: KeyOf(wf[id])) && ids == Smallest(keys, n)
    requires forall i :: 0 <= i < |ids| ==> ids[i].id in wf && ids[i] == KeyOf(wf[ids[i].id])
    ensures forall i, j :: 0 <= i < j < |ids| ==> GoesFirst(wf[ids[i].id], wf[ids[j].id])
    ensures forall i, id :: 0 <= i < |ids| && id in wf && Claimable(wf[id], req, latest) && KeyOf(wf[id]) !in ids ==>
              GoesFirst(wf[ids[i].id], wf[id])
  {
    SmallestIsSmallest(keys, n);
    forall i, j | 0 <= i < j < |ids| ensures GoesFirst(wf[ids[i].id], wf[ids[j].id]) {
      assert Less(ids[i], ids[j]);
    }
    forall i, id | 0 <= i < |ids| && id in wf && Claimable(wf[id], req, latest) && KeyOf(wf[id]) !in ids
      ensures GoesFirst(wf[ids[i].id], wf[id])
    {
      EligibleOnRows(wf[id], req, latest);
      assert KeyOf(wf[id]) in keys;
      assert Less(ids[i], KeyOf(wf[id]));
    }
  }

  /** The first `n` eligible rows in claim order. */
  method OrderCandidates(wf: map<Id, Row>, req: DequeueRequest, latest: Option<string>, n: nat) returns (ids: seq<Key>)
    requires Keyed(Empty.(workflows := wf))
    ensures ids == Smallest(Candidates(Empty.(workflows := wf), req, latest), n)
    ensures Sorted(ids) && forall i :: 0 <= i < |ids| ==> ids[i].id in wf && ids[i] == KeyOf(wf[ids[i].id])
    ensures forall i, j :: 0 <= i < j < |ids| ==> GoesFirst(wf[ids[i].id], wf[ids[j].id])
    ensures forall i, id :: 0 <= i < |ids| && id in wf && Claimable(wf[id], req, latest) && KeyOf(wf[id]) !in ids ==>
              GoesFirst(wf[ids[i].id], wf[id])
  {
    var keys := set id | id in wf && Eligible(wf[id], req, latest) :: KeyOf(wf[id]);
    ids := SortKeys(keys);
    TruncatedSortIsSmallest(keys, ids, n);
    ids := ids[..Min(n, |ids|)];
    assert keys == Candidates(Empty.(workflows := wf), req, latest);
    forall i | 0 <= i < |ids| ensures ids[i].id in wf && ids[i] == KeyOf(wf[ids[i].id]) {
      assert ids[i] in keys;
    }
    OrderedByRows(wf, req, latest, keys, n, ids);
  }

  /** Claim the rows of `ids` one after the other. */
  method ClaimLoop(ghost db: Db, wf: map<Id, Row>, ids: seq<Key>, req: DequeueRequest, now: int)
    returns (claimed: seq<Row>, wf': map<Id, Row>)
    requires wf == db.workflows
    requires Sorted(ids) && forall i :: 0 <= i < |ids| ==> ids[i].id in wf && ids[i] == KeyOf(wf[ids[i].id])
    ensures wf' == ClaimAll(db, KeyIds(ids), req, now).workflows
    ensures |claimed| == |ids| && forall i :: 0 <= i < |ids| ==> claimed[i] == wf'[ids[i].id]
  {
    claimed, wf' := [], wf;
    ghost var done: set<Id> := {};
    assert ClaimAll(db, {}, req, now).workflows == wf;
    for i := 0 to |ids|
      invariant done == KeyIds(ids[..i])
      invariant wf' == ClaimAll(db, done, req, now).workflows
      invariant |claimed| == i && forall j :: 0 <= j < i ==> claimed[j] == wf'[ids[j].id]
    {
      var id := ids[i].id;
      assert ids[..i + 1] == ids[..i] + [ids[i]];
      forall j | 0 <= j < i ensures ids[j].id != id {
        assert Less(ids[j], ids[i]);
        LessTotal(ids[i], ids[i]);
      }
      ClaimOneMore(db, done, id, req, now);
      wf' := wf'[id := ClaimedRow(wf'[id], req, now)];
      claimed := claimed + [wf'[id]];
      done := done + {id};
    }
    assert ids[..|ids|] == ids;
  }

  method RetainNotes(notes: seq<Note>, id: Id) returns (kept: seq<Note>)
    ensures kept == KeepNotes(notes, {id})
  {
    kept := [];
    for i := 0 to |notes|
      invariant kept + KeepNotes(notes[i..], {id}) == KeepNotes(notes, {id})
    {
      assert notes[i..][1..] == notes[i + 1..];
      if notes[i].dest != id { kept := kept + [notes[i]]; }
    }
  }

  predicate Addressed(n: Note, id: Id, topic: string) {
    n.dest == id && n.topic == topic
  }

  /** Message `i` waits, none that waits is older, and none in front of it as old. */
  ghost predicate FirstOldest(notes: seq<Note>, id: Id, topic: string, i: nat)
    requires i < |notes|
  {
    && Addressed(notes[i], id, topic) && !notes[i].consumed
    && forall j :: 0 <= j < |notes| && Addressed(notes[j], id, topic) && !notes[j].consumed ==>
         if j < i then notes[i].createdAtMs < notes[j].createdAtMs else notes[i].createdAtMs <= notes[j].createdAtMs
  }

  lemma {:induction false} OldestIs(notes: seq<Note>, id: Id, topic: string, n: nat)
    requires n <= |notes|
    ensures match OldestAmong(notes, id, topic, n)
            case None => forall j :: 0 <= j < n && Addressed(notes[j], id, topic) ==> notes[j].consumed
            case Some(i) => i < n && FirstOldest(notes[..n], id, topic, i)
  {
    if n > 0 {
      OldestIs(notes, id, topic, n - 1);
      assert forall j :: 0 <= j < n - 1 ==> notes[..n][j] == notes[..n - 1][j];
    }
  }

  /** Message `i` is taken and checkpointed; if there is a row already, that one's
      value is the answer. */
  ghost predicate TakesNote(db: Db, db': Db, id: Id, topic: string, seqNo: int, name: string, v: Value, i: nat) {
    && i < |db.notes| && FirstOldest(db.notes, id, topic, i)
    && db' == db.(notes := db.notes[i := db.notes[i].(consumed := true)], steps := db'.steps)
    && if (id, seqNo) !in db.steps
       then v == db.notes[i].message && db'.steps == db.steps[(id, seqNo) := StepRow(name, Some(v), None, None)]
       else db'.steps == db.steps && v == if db.steps[(id, seqNo)].output.Some? then db.steps[(id, seqNo)].output.value else Null
  }

  /** The first of the oldest messages that wait is taken, if one waits. */
  ghost predicate Takes(db: Db, db': Db, id: Id, topic: string, seqNo: int, name: string, r: Option<Value>) {
    if r.Some? then exists i: nat :: TakesNote(db, db', id, topic, seqNo, name, r.value, i)
    else db' == db && forall j :: 0 <= j < |db.notes| && Addressed(db.notes[j], id, topic) ==> db.notes[j].consumed
  }

  lemma ConsumeTakes(db: Db, id: Id, topic: string, seqNo: int, name: string)
    ensures var db' := Consume(db, id, topic, seqNo, name);
            match Oldest(db.notes, id, topic)
            case None => Takes(db, db', id, topic, seqNo, name, None)
            case Some(_) =>
              (id, seqNo) in db'.steps
              && Takes(db, db', id, topic, seqNo, name,
                       Some(if db'.steps[(id, seqNo)].output.Some? then db'.steps[(id, seqNo)].output.value else Null))
  {
    OldestIs(db.notes, id, topic, |db.notes|);
    assert db.notes[..|db.notes|] == db.notes;
    if Oldest(db.notes, id, topic).Some? {
      var i, db' := Oldest(db.notes, id, topic).value, Consume(db, id, topic, seqNo, name);
      var v := if db'.steps[(id, seqNo)].output.Some? then db'.steps[(id, seqNo)].output.value else Null;
      assert TakesNote(db, db', id, topic, seqNo, name, v, i);
    }
  }

  /** A fork's row: the original's workflow and input, waiting on the given queue,
      of the given version or else the original's, and otherwise as new. */
  predicate IsFork(original: Row, r: Row, p: ForkParams, createdAt: int) {
    && r.id == p.newId && r.name == original.name && r.input == original.input && r.status == Enqueued
    && r.queueName == Some(p.queueName) && r.partitionKey == p.partitionKey && r.forkedFrom == Some(p.originalId)
    && r.appVersion == (if p.appVersion.Some? then p.appVersion.value else original.appVersion)
    && r.createdAt == createdAt && r.executorId == "" && r.priority == 0 && r.recoveryAttempts == 0 && !r.rateLimited
    && r.output == None && r.error == None && r.dedupId == None && r.parentId == None && r.timeoutMs == None
    && r.deadlineMs == None && r.startedAtMs == None && r.delayUntilMs == None && r.completedAtMs == None
  }

  /** The workflows a deletion is for: the given ones, or with their descendants. */
  ghost predicate Targeted(wf: map<Id, Row>, ids: seq<Id>, children: bool, id: Id) {
    id in ids || (children && id in wf && exists root :: root in ids && Descends(wf, root, id))
  }

  lemma TargetedIff(db: Db, ids: seq<Id>, children: bool, id: Id)
    ensures id in DeleteTargets(db, ids, children) <==> Targeted(db.workflows, ids, children, id)
  {
    InElements(ids, id);
    if id in ids { DescendsSelf(db.workflows, id); }
    forall root { InElements(ids, root); }
  }

  /** Nothing is left of the targeted workflows but their events, and everything of
      the others. */
  ghost predicate Removed(db: Db, db': Db, ids: seq<Id>, children: bool) {
    && (forall id :: id in db'.workflows <==> id in db.workflows && !Targeted(db.workflows, ids, children, id))
    && (forall id :: id in db'.workflows ==> db'.workflows[id] == db.workflows[id])
    && (forall k :: k in db'.steps <==> k in db.steps && !Targeted(db.workflows, ids, children, k.0))
    && (forall k :: k in db'.steps ==> db'.steps[k] == db.steps[k])
    && (forall k :: k in db'.streams <==> k in db.streams && !Targeted(db.workflows, ids, children, k.0))
    && (forall k :: k in db'.streams ==> db'.streams[k] == db.streams[k])
    && (forall n :: n in db'.notes <==> n in db.notes && !Targeted(db.workflows, ids, children, n.dest))
    && db'.events == db.events && db'.versions == db.versions
  }

  lemma {:induction false} KeptNotesIn(notes: seq<Note>, gone: set<Id>, n: Note)
    ensures n in KeepNotes(notes, gone) <==> n in notes && n.dest !in gone
  {
    if notes != [] { KeptNotesIn(notes[1..], gone, n); }
  }

  lemma DeleteRemoves(db: Db, ids: seq<Id>, children: bool)
    ensures Removed(db, Delete(db, DeleteTargets(db, ids, children)), ids, children)
  {
    forall id { TargetedIff(db, ids, children, id); }
    forall n { KeptNotesIn(db.notes, DeleteTargets(db, ids, children), n); }
  }

  // ---- the provider ----------------------------------------------------------

  datatype InsertResult = Inserted(row: Row, created: bool) | QueueDeduplicated

  class InMemoryProvider {
    var workflows: map<Id, Row>
    var steps: map<(Id, int), StepRow>
    var notifications: seq<Note>
    var events: map<(Id, string), Value>
    var streams: map<(Id, string), seq<Option<Value>>>
    var versions: map<string, int>

    constructor ()
      ensures State() == Empty
    {
      workflows, steps, notifications, events, streams, versions := map[], map[], [], map[], map[], map[];
    }

    ghost function State(): Db
      reads this
    {
      Db(workflows, steps, notifications, events, streams, versions)
    }

    method InsertWorkflowStatus(row: Row) returns (r: InsertResult)
      modifies this
      ensures State() == Insert(old(State()), row)
      ensures r.QueueDeduplicated? <==>
                row.queueName.Some? && row.dedupId.Some?
                && exists id :: id in old(workflows) && old(workflows)[id].id != row.id
                                && old(workflows)[id].queueName == row.queueName && old(workflows)[id].dedupId == row.dedupId
      ensures r.Inserted? ==> row.id in workflows && r == Inserted(workflows[row.id], row.id !in old(workflows))
      ensures workflows == if r.Inserted? && r.created then old(workflows)[row.id := row] else old(workflows)
    {
      if row.queueName.Some? && row.dedupId.Some?
         && exists id :: id in workflows && workflows[id].id != row.id
                         && HoldsSlot(workflows[id], row.queueName.value, row.dedupId.value) {
        return QueueDeduplicated;
      }
      var created := row.id !in workflows;
      if created { workflows := workflows[row.id := row]; }
      r := Inserted(workflows[row.id], created);
    }

    /** The slot's holder; which one, should several hold it, is left open. */
    method GetDeduplicatedWorkflow(queue: string, dedup: string) returns (r: Option<Id>)
      ensures r.Some? ==> exists id :: id in workflows && HoldsSlot(workflows[id], queue, dedup) && workflows[id].id == r.value
      ensures r.None? ==> forall id :: id in workflows ==> !HoldsSlot(workflows[id], queue, dedup)
    {
      var holders := set id | id in workflows && HoldsSlot(workflows[id], queue, dedup);
      if holders == {} {
        forall id | id in workflows ensures !HoldsSlot(workflows[id], queue, dedup) {
          assert id !in holders;
        }
        return None;
      }
      var id :| id in holders;
      return Some(workflows[id].id);
    }

    /** A completion of a cancelled workflow is refused, with nothing changed. */
    method SetWorkflowStatus(id: Id, status: Status, output: Option<Value>, error: Option<string>, now: int)
      returns (refused: bool)
      modifies this
      ensures State() == Update(old(State()), id, ToStatus(status, output, error, now))
      ensures refused <==> id in old(workflows) && (status == Success || status == Error) && old(workflows)[id].status == Cancelled
      ensures refused || id !in old(workflows) ==> State() == old(State())
      ensures id in old(workflows) && !refused ==>
                var r, over := old(workflows)[id], status in {Success, Error, Cancelled, MaxRecoveryAttemptsExceeded};
                workflows == old(workflows)[id := r.(status := status,
                                                     output := if output.Some? then output else r.output,
                                                     error := if error.Some? then error else r.error,
                                                     completedAtMs := if over then Some(now) else r.completedAtMs,
                                                     dedupId := if over then None else r.dedupId)]
    {
      if id !in workflows { return false; }
      var row := workflows[id];
      if (status == Success || status == Error) && row.status == Cancelled { return true; }
      row := row.(status := status);
      if output.Some? { row := row.(output := output); }
      if error.Some? { row := row.(error := error); }
      if IsTerminal(status) { row := row.(completedAtMs := Some(now), dedupId := None); }
      workflows := workflows[id := row];
      refused := false;
    }

    /** Afterwards the workflow, if there is one, is over. */
    method CancelWorkflow(id: Id, now: int)
      modifies this
      ensures State() == Update(old(State()), id, ToCancelled(now))
      ensures id in workflows ==> workflows[id].status in {Success, Error, Cancelled, MaxRecoveryAttemptsExceeded}
      ensures workflows == if id in old(workflows) && old(workflows)[id].status !in {Success, Error, Cancelled, MaxRecoveryAttemptsExceeded}
                           then old(workflows)[id := old(workflows)[id].(status := Cancelled, completedAtMs := Some(now),
                                                       startedAtMs := None, queueName := None, dedupId := None)]
                           else old(workflows)
    {
      if id in workflows && !IsTerminal(workflows[id].status) {
        workflows := workflows[id := workflows[id].(status := Cancelled, completedAtMs := Some(now), startedAtMs := None,
                                                    queueName := None, dedupId := None)];
      }
    }

    /** Finished workflows, cancelled ones apart, are not resumed. */
    method ResumeWorkflow(id: Id) returns (resumed: bool)
      modifies this
      ensures State() == Update(old(State()), id, ToResumed)
      ensures resumed <==> id in old(workflows) && old(workflows)[id].status !in {Success, Error, MaxRecoveryAttemptsExceeded}
      ensures workflows == if !resumed then old(workflows)
                           else old(workflows)[id := old(workflows)[id].(status := Pending, recoveryAttempts := 0,
                                                       deadlineMs := None, dedupId := None, startedAtMs := None,
                                                       completedAtMs := None)]
    {
      if id !in workflows { return false; }
      var row := workflows[id];
      if IsTerminal(row.status) && row.status != Cancelled { return false; }
      workflows := workflows[id := row.(status := Pending, recoveryAttempts := 0, deadlineMs := None, dedupId := None,
                                        startedAtMs := None, completedAtMs := None)];
      resumed := true;
    }

    method EnqueueExisting(id: Id, queue: string)
      modifies this
      ensures State() == Update(old(State()), id, ToQueue(queue))
      ensures workflows == if id !in old(workflows) then old(workflows)
                           else old(workflows)[id := old(workflows)[id].(status := Enqueued, queueName := Some(queue),
                                                       executorId := "", startedAtMs := None)]
    {
      if id in workflows {
        workflows := workflows[id := workflows[id].(status := Enqueued, queueName := Some(queue), executorId := "",
                                                    startedAtMs := None)];
      }
    }

    method SetWorkflowDelay(id: Id, until: int) returns (updated: bool)
      modifies this
      ensures State() == Update(old(State()), id, ToDelay(until))
      ensures updated <==> id in old(workflows) && old(workflows)[id].status == Delayed
      ensures workflows == if updated then old(workflows)[id := old(workflows)[id].(delayUntilMs := Some(until))]
                           else old(workflows)
    {
      updated := id in workflows && workflows[id].status == Delayed;
      if updated { workflows := workflows[id := workflows[id].(delayUntilMs := Some(until))]; }
    }

    /** The attempts counted so far; too many park the workflow. */
    method BumpRecoveryAttempts(id: Id, max: int) returns (attempts: int)
      modifies this
      ensures State() == Update(old(State()), id, ToBumped(max))
      ensures attempts == if id in old(workflows) then old(workflows)[id].recoveryAttempts + 1 else 0
      ensures id in old(workflows) ==>
                var r := old(workflows)[id].(recoveryAttempts := attempts);
                workflows == old(workflows)[id := if attempts <= max then r
                                                  else r.(status := MaxRecoveryAttemptsExceeded, dedupId := None)]
    {
      if id !in workflows { return 0; }
      var row := workflows[id];
      attempts := row.recoveryAttempts + 1;
      row := row.(recoveryAttempts := attempts);
      if attempts > max { row := row.(status := MaxRecoveryAttemptsExceeded, dedupId := None); }
      workflows := workflows[id := row];
    }

    method TransitionDelayedWorkflows(now: int) returns (n: nat)
      modifies this
      ensures State() == TransitionDelayed(old(State()), now)
      ensures Promoted(old(workflows), now, workflows) && n == |DueIds(old(workflows), now)|
    {
      workflows, n := ReleaseDue(workflows, now);
      PromotedIs(old(State()), now, workflows);
    }

    /** The registered version of greatest timestamp. */
    method LatestVersion() returns (latest: Option<string>)
      ensures IsLatestVersion(State(), latest)
      ensures latest.None? <==> versions == map[]
      ensures latest.Some? ==> latest.value in versions && forall v :: v in versions ==> versions[v] <= versions[latest.value]
    {
      if versions == map[] { return None; }
      assert versions.Keys != {};
      var best :| best in versions.Keys;
      var todo := versions.Keys - {best};
      while todo != {}
        invariant best in versions && todo <= versions.Keys
        invariant forall v :: v in versions.Keys - todo ==> versions[v] <= versions[best]
        decreases todo
      {
        var v :| v in todo;
        if versions[best] <= versions[v] { best := v; }
        todo := todo - {v};
      }
      return Some(best);
    }

    /** Register a version; a known one keeps its time stamp. */
    method CreateVersion(v: string, now: int)
      modifies this
      ensures State() == StampVersion(old(State()), v, now, true)
      ensures versions == if v in old(versions) then old(versions) else old(versions)[v := now]
    {
      if v !in versions { versions := versions[v := now]; }
    }

    /** Stamp a known version anew; from then on it is the latest, unless one has a
        later time stamp. */
    method SetLatestVersion(v: string, now: int) returns (known: bool)
      modifies this
      ensures State() == StampVersion(old(State()), v, now, false)
      ensures known == (v in old(versions)) && versions == if known then old(versions)[v := now] else old(versions)
      ensures known && (forall x :: x in old(versions) ==> old(versions)[x] <= now) ==> IsLatestVersion(State(), Some(v))
    {
      known := v in versions;
      if known { versions := versions[v := now]; }
    }

    method ClaimBudget(req: DequeueRequest, now: int) returns (maxTasks: int)
      ensures maxTasks == Budget(State(), req, now)
      ensures forall n :: n <= Max(maxTasks, 0) <==> WithinLimits(State(), req, now, n)
    {
      forall n { BudgetOnRows(State(), req, now, n); }
      maxTasks := req.maxTasks;
      if req.rateLimitMax.Some? && req.rateLimitPeriodMs.Some? {
        var cutoff := now - req.rateLimitPeriodMs.value;
        var recent := set id | id in workflows && CountsAsStart(workflows[id], req.queueName, req.partitionKey, cutoff);
        assert recent == RecentStarts(State(), req.queueName, req.partitionKey, cutoff);
        maxTasks := Min(maxTasks, Max(req.rateLimitMax.value - |recent|, 0));
      }
      if req.globalConcurrency.Some? {
        var pending := set id | id in workflows && InScope(workflows[id], req.queueName, req.partitionKey)
                                && workflows[id].status == Pending;
        assert pending == PendingIn(State(), req.queueName, req.partitionKey);
        maxTasks := Min(maxTasks, Max(req.globalConcurrency.value - |pending|, 0));
      }
    }

    /** Claim up to the request's budget of due work, in claim order. */
    method DequeueWorkflows(req: DequeueRequest, now: int) returns (claimed: seq<Row>, ghost latest: Option<string>)
      requires Keyed(State())
      modifies this
      ensures IsLatestVersion(old(State()), latest)
      ensures State() == Dequeue(old(State()), req, now, latest)
      ensures var c := Claimed(old(State()), req, now, latest);
              |claimed| == |c|
              && forall i :: 0 <= i < |c| ==> c[i].id in workflows && claimed[i] == workflows[c[i].id]
      ensures IsClaim(old(State()), State(), req, now, latest, claimed)
      ensures latest.None? <==> versions == map[]
      ensures latest.Some? ==> latest.value in versions && forall v :: v in versions ==> versions[v] <= versions[latest.value]
    {
      var maxTasks := ClaimBudget(req, now);
      var version := LatestVersion();
      latest := version;
      if maxTasks <= 0 {
        NothingClaimed(State(), req, now, version);
        DequeueIsClaim(State(), req, now, version, []);
        return [], version;
      }
      var ids := OrderCandidates(workflows, req, version, maxTasks);
      assert Claimed(State(), req, now, version) == ids;
      claimed, workflows := ClaimLoop(State(), workflows, ids, req, now);
      DequeueIsClaim(old(State()), req, now, version, claimed);
    }

    // ---- the operation log ---------------------------------------------------

    method GetStepResult(id: Id, seqNo: int) returns (r: Option<StepRow>)
      ensures r == if (id, seqNo) in steps then Some(steps[(id, seqNo)]) else None
    {
      r := if (id, seqNo) in steps then Some(steps[(id, seqNo)]) else None;
    }

    /** Record a row unless one is there; the row now stored is returned. */
    method RecordStepRow(id: Id, seqNo: int, row: StepRow) returns (canonical: StepRow)
      modifies this
      ensures State() == RecordRow(old(State()), id, seqNo, row)
      ensures (id, seqNo) in steps && canonical == steps[(id, seqNo)]
      ensures steps == if (id, seqNo) in old(steps) then old(steps) else old(steps)[(id, seqNo) := row]
    {
      if (id, seqNo) !in steps { steps := steps[(id, seqNo) := row]; }
      canonical := steps[(id, seqNo)];
    }

    // ---- messages, events, streams ------------------------------------------

    method InsertNotification(dest: Id, topic: string, message: Value, key: Option<string>, randomId: string, now: int)
      returns (found: bool)
      modifies this
      ensures State() == InsertNote(old(State()), dest, topic, message, key, randomId, now)
      ensures found == (dest in workflows)
      ensures var uuid := if key.Some? then key.value + "::" + dest else randomId;
              notifications == if found && !(key.Some? && exists i :: 0 <= i < |old(notifications)| && old(notifications)[i].uuid == uuid)
                               then old(notifications) + [Note(uuid, dest, topic, message, false, now)]
                               else old(notifications)
    {
      if dest !in workflows { return false; }
      var uuid := NoteUuid(dest, key, randomId);
      if key.Some? && exists i :: 0 <= i < |notifications| && notifications[i].uuid == uuid { return true; }
      notifications := notifications + [Note(uuid, dest, topic, message, false, now)];
      found := true;
    }

    /** Take the oldest waiting message and checkpoint it under `seqNo`. */
    method ConsumeNotification(id: Id, topic: string, seqNo: int, name: string) returns (r: Option<Value>)
      modifies this
      ensures State() == Consume(old(State()), id, topic, seqNo, name)
      ensures Takes(old(State()), State(), id, topic, seqNo, name, r)
    {
      ConsumeTakes(State(), id, topic, seqNo, name);
      var best: Option<nat> := None;
      for i := 0 to |notifications|
        invariant best == OldestAmong(notifications, id, topic, i)
      {
        if Waiting(notifications[i], id, topic)
           && (best.None? || notifications[i].createdAtMs < notifications[best.value].createdAtMs) {
          best := Some(i);
        }
      }
      if best.None? { return None; }
      var n := notifications[best.value];
      notifications := notifications[best.value := n.(consumed := true)];
      if (id, seqNo) !in steps { steps := steps[(id, seqNo) := StepRow(name, Some(n.message), None, None)]; }
      var row := steps[(id, seqNo)];
      r := Some(if row.output.Some? then row.output.value else Null);
    }

    method SetEvent(id: Id, key: string, value: Value)
      modifies this
      ensures State() == UpsertEvent(old(State()), id, key, value)
      ensures events == old(events)[(id, key) := value]
    {
      events := events[(id, key) := value];
    }

    method AppendStream(id: Id, key: string, value: Option<Value>) returns (ok: bool)
      modifies this
      ensures State() == WriteStream(old(State()), id, key, value)
      ensures var entries := if (id, key) in old(streams) then old(streams)[(id, key)] else [];
              && ok == (forall i :: 0 <= i < |entries| ==> entries[i].Some?)
              && streams == if ok then old(streams)[(id, key) := entries + [value]] else old(streams)
    {
      var entries := if (id, key) in streams then streams[(id, key)] else [];
      if exists i :: 0 <= i < |entries| && entries[i].None? { return false; }
      streams := streams[(id, key) := entries + [value]];
      ok := true;
    }

    // ---- deleting, exporting, forking ---------------------------------------

    method DeleteWorkflows(ids: seq<Id>, children: bool)
      modifies this
      ensures State() == Delete(old(State()), DeleteTargets(old(State()), ids, children))
      ensures Removed(old(State()), State(), ids, children)
    {
      DeleteRemoves(State(), ids, children);
      var targets := ids;
      if children { targets := CollectDescendants(workflows, ids); }
      RemoveAll(targets);
    }

    method RemoveAll(targets: seq<Id>)
      modifies this
      ensures State() == Delete(old(State()), Elements(targets))
    {
      ghost var db := State();
      ghost var gone: set<Id> := {};
      DeleteNothing(db);
      for i := 0 to |targets|
        invariant gone == Elements(targets[..i])
        invariant State() == Delete(db, gone)
      {
        var id := targets[i];
        DeleteOneMore(db, gone, id);
        assert targets[..i + 1] == targets[..i] + [id];
        ElementsAppend(targets[..i], id);
        RemoveWorkflow(id);
        gone := gone + {id};
      }
      assert targets[..|targets|] == targets;
    }

    /** `found` is whether there is an original to fork. */
    method ForkWorkflow(p: ForkParams, createdAt: int) returns (found: bool)
      modifies this
      ensures State() == Fork(old(State()), p, createdAt)
      ensures found == (p.originalId in old(workflows))
      ensures found ==> p.newId in workflows && IsFork(old(workflows)[p.originalId], workflows[p.newId], p, createdAt)
      ensures forall id :: id != p.newId ==> (id in workflows <==> id in old(workflows))
      ensures forall id :: id != p.newId && id in workflows ==> workflows[id] == old(workflows)[id]
    {
      if p.originalId !in workflows { return false; }
      workflows := workflows[p.newId := ForkedRow(workflows[p.originalId], p, createdAt)];
      steps := steps + Copied(steps, p);
      found := true;
    }

    method RemoveWorkflow(id: Id)
      modifies this
      ensures State() == Delete(old(State()), {id})
    {
      workflows := workflows - {id};
      steps := map k | k in steps && k.0 != id :: steps[k];
      streams := map k | k in streams && k.0 != id :: streams[k];
      notifications := RetainNotes(notifications, id);
      ghost var db' := Delete(old(State()), {id});
      assert steps == db'.steps;
      assert streams == db'.streams;
    }
  }

  /** The worklist of a delete: the given ids and all their descendants,
      whatever cycles the parent links form. */
  method CollectDescendants(wf: map<Id, Row>, ids: seq<Id>) returns (targets: seq<Id>)
    ensures Elements(targets) == Descendants(wf, Elements(ids))
  {
    targets := ids;
    var i := 0;
    RootsDescend(wf, Elements(ids));
    while i < |targets|
      invariant 0 <= i <= |targets|
      invariant Elements(ids) <= Elements(targets) <= Descendants(wf, Elements(ids))
      invariant Covered(wf, targets, i)
      decreases Unlisted(wf, targets), |targets| - i
    {
      var added := FindChildren(wf, targets, targets[i]);
      CollectOne(wf, ids, targets, i, added);
      targets := targets + added;
      i := i + 1;
    }
    AllCovered(wf, targets);
    ClosedIsDescendants(wf, Elements(ids), Elements(targets));
  }

  lemma RootsDescend(wf: map<Id, Row>, roots: set<Id>)
    ensures roots <= Descendants(wf, roots)
  {
    forall r | r in roots ensures r in Descendants(wf, roots) { DescendsSelf(wf, r); }
  }

  /** The children of the first `i` targets are targets. */
  ghost predicate Covered(wf: map<Id, Row>, targets: seq<Id>, i: nat) {
    i <= |targets| && forall p, c :: p in Elements(targets[..i]) && ChildOf(wf, c, p) ==> c in Elements(targets)
  }

  lemma AllCovered(wf: map<Id, Row>, targets: seq<Id>)
    requires Covered(wf, targets, |targets|)
    ensures forall p, c :: p in Elements(targets) && ChildOf(wf, c, p) ==> c in Elements(targets)
  {
    assert targets[..|targets|] == targets;
  }

  /** One scan of the store: the children of `parent` not yet listed. */
  method FindChildren(wf: map<Id, Row>, targets: seq<Id>, parent: Id) returns (added: seq<Id>)
    ensures Elements(added) == Children(wf, parent) - Elements(targets)
  {
    var kids := set c | c in wf && wf[c].parentId == Some(parent);
    added := KeepUnlisted(kids, targets);
  }

  method KeepUnlisted(kids: set<Id>, targets: seq<Id>) returns (added: seq<Id>)
    ensures Elements(added) == kids - Elements(targets)
  {
    added := [];
    var todo := kids;
    ghost var listed, got := Elements(targets), {};
    while todo != {}
      invariant todo <= kids && got == kids - todo - listed
      invariant Elements(added) == got
      decreases todo
    {
      var c :| c in todo;
      todo := todo - {c};
      if c !in targets {
        ElementsAppend(added, c);
        added := added + [c];
        assert c !in listed by { InElements(targets, c); }
        got := got + {c};
      } else {
        assert c in listed by { InElements(targets, c); }
      }
    }
  }

  /** How many stored workflows are not yet listed. */
  ghost function Unlisted(wf: map<Id, Row>, listed: seq<Id>): nat {
    |wf.Keys - Elements(listed)|
  }

  /** What one turn of the worklist keeps, and that it makes progress. */
  lemma CollectOne(wf: map<Id, Row>, ids: seq<Id>, targets: seq<Id>, i: nat, added: seq<Id>)
    requires i < |targets| && Elements(targets) <= Descendants(wf, Elements(ids)) && Covered(wf, targets, i)
    requires Elements(added) == Children(wf, targets[i]) - Elements(targets)
    ensures Elements(targets + added) == Elements(targets) + Elements(added) <= Descendants(wf, Elements(ids))
    ensures Covered(wf, targets + added, i + 1)
    ensures added == [] ==> targets + added == targets
    ensures added != [] ==> Unlisted(wf, targets + added) < Unlisted(wf, targets)
  {
    Appended(targets, added);
    ChildrenDescend(wf, ids, targets, i);
    CoverOne(wf, targets, i, added);
    if added != [] { Shrinks(wf.Keys, targets, added); }
  }

  lemma ChildrenDescend(wf: map<Id, Row>, ids: seq<Id>, targets: seq<Id>, i: nat)
    requires i < |targets| && Elements(targets) <= Descendants(wf, Elements(ids))
    ensures Children(wf, targets[i]) <= Descendants(wf, Elements(ids))
  {
    InElements(targets, targets[i]);
    var r :| r in Elements(ids) && Descends(wf, r, targets[i]);
    forall c | c in Children(wf, targets[i]) ensures c in Descendants(wf, Elements(ids)) {
      DescendsChild(wf, r, targets[i], c);
    }
  }

  lemma CoverOne(wf: map<Id, Row>, targets: seq<Id>, i: nat, added: seq<Id>)
    requires i < |targets| && Covered(wf, targets, i)
    requires Elements(added) == Children(wf, targets[i]) - Elements(targets)
    ensures Covered(wf, targets + added, i + 1)
  {
    var more := targets + added;
    assert more[..i + 1] == targets[..i] + [targets[i]];
    ElementsAppend(targets[..i], targets[i]);
    Appended(targets, added);
  }

  /** The ids an export covers: the root first, then its descendants, each
      exactly once. The walk ends exactly for a root that is not on a cycle of
      parent links. */
  method ExportIds(wf: map<Id, Row>, root: Id) returns (ids: seq<Id>)
    requires !OnCycle(wf, root)
    ensures |ids| > 0 && ids[0] == root && NoRepeats(ids)
    ensures Elements(ids) == Descendants(wf, {root})
  {
    ids := [root];
    var stack := [root];
    WalkStarts(wf, root);
    while stack != []
      invariant |ids| > 0 && ids[0] == root && NoRepeats(ids) && NoRepeats(stack)
      invariant Walked(wf, root, Elements(ids), Elements(stack))
      decreases |wf.Keys + {root} - Elements(ids)|, |stack|
    {
      var parent := stack[|stack| - 1];
      var rest := stack[..|stack| - 1];
      var children := SortIds(set id | id in wf && wf[id].parentId == Some(parent));
      assert Elements(children) == Children(wf, parent);
      ExportOne(wf, root, ids, stack, children);
      assert children == [] ==> ids + children == ids && |rest + children| == |stack| - 1;
      ids, stack := ids + children, rest + children;
    }
    ClosedIsDescendants(wf, {root}, Elements(ids));
  }

  lemma WalkStarts(wf: map<Id, Row>, root: Id)
    ensures Elements([root]) == {root} && Walked(wf, root, {root}, {root})
  {
    assert [root][..0] == [];
    DescendsSelf(wf, root);
  }

  lemma ExportOne(wf: map<Id, Row>, root: Id, ids: seq<Id>, stack: seq<Id>, children: seq<Id>)
    requires !OnCycle(wf, root) && stack != []
    requires NoRepeats(ids) && NoRepeats(stack) && Walked(wf, root, Elements(ids), Elements(stack))
    requires NoRepeats(children) && Elements(children) == Children(wf, stack[|stack| - 1])
    ensures var rest := stack[..|stack| - 1];
            && NoRepeats(ids + children) && NoRepeats(rest + children)
            && Walked(wf, root, Elements(ids + children), Elements(rest + children))
    ensures children != [] ==> |wf.Keys + {root} - Elements(ids + children)| < |wf.Keys + {root} - Elements(ids)|
  {
    var parent, rest := stack[|stack| - 1], stack[..|stack| - 1];
    PopElements(stack);
    WalkOn(wf, root, Elements(ids), Elements(stack), parent);
    Appended(ids, children);
    Appended(rest, children);
    if children != [] { Shrinks(wf.Keys + {root}, ids, children); }
  }

  /** One turn of the walk: an id is taken off the stack, its children go on. */
  ghost predicate Pops(wf: map<Id, Row>, stack: seq<Id>, stack': seq<Id>) {
    stack != [] && exists children :: Elements(children) == Children(wf, stack[|stack| - 1])
                                      && stack' == stack[..|stack| - 1] + children
  }

  /** Whatever is taken off, some id of the cycle is on the stack afterwards. */
  lemma CycleStaysOnStack(wf: map<Id, Row>, cycle: seq<Id>, stack: seq<Id>, stack': seq<Id>)
    requires |cycle| > 1 && ChainFromTo(wf, cycle, cycle[0], cycle[0]) && Pops(wf, stack, stack')
    requires exists i :: 0 <= i < |cycle| && cycle[i] in stack
    ensures exists i :: 0 <= i < |cycle| && cycle[i] in stack'
  {
    var children :| Elements(children) == Children(wf, stack[|stack| - 1]) && stack' == stack[..|stack| - 1] + children;
    var i :| 0 <= i < |cycle| && cycle[i] in stack;
    var rest := stack[..|stack| - 1];
    assert stack == rest + [stack[|stack| - 1]];
    if cycle[i] in rest {
      assert cycle[i] in rest + children;
    } else {
      var j := if i == |cycle| - 1 then 1 else i + 1;
      assert cycle[j] in Children(wf, stack[|stack| - 1]);
      InElements(children, cycle[j]);
      assert cycle[j] in rest + children;
    }
  }

  lemma {:induction false} CycleNeverLeaves(wf: map<Id, Row>, cycle: seq<Id>, stacks: seq<seq<Id>>, n: nat)
    requires |cycle| > 1 && ChainFromTo(wf, cycle, cycle[0], cycle[0]) && n < |stacks| && stacks[0] == [cycle[0]]
    requires forall i :: 0 < i < |stacks| ==> Pops(wf, stacks[i - 1], stacks[i])
    ensures exists i :: 0 <= i < |cycle| && cycle[i] in stacks[n]
  {
    if n > 0 {
      CycleNeverLeaves(wf, cycle, stacks, n - 1);
      CycleStaysOnStack(wf, cycle, stacks[n - 1], stacks[n]);
    } else {
      assert cycle[0] in stacks[0];
    }
  }

  /** On a cycle through the root the walk never ends: after any number of turns
      there is something on the stack. */
  lemma ExportNeverEndsOnCycle(wf: map<Id, Row>, root: Id, stacks: seq<seq<Id>>, n: nat)
    requires OnCycle(wf, root) && n < |stacks| && stacks[0] == [root]
    requires forall i :: 0 < i < |stacks| ==> Pops(wf, stacks[i - 1], stacks[i])
    ensures stacks[n] != []
  {
    var cycle :| |cycle| > 1 && ChainFromTo(wf, cycle, root, root);
    CycleNeverLeaves(wf, cycle, stacks, n);
  }

  lemma PopElements(stack: seq<Id>)
    requires stack != [] && NoRepeats(stack)
    ensures Elements(stack[..|stack| - 1]) == Elements(stack) - {stack[|stack| - 1]}
    ensures NoRepeats(stack[..|stack| - 1])
  {
    var parent, rest := stack[|stack| - 1], stack[..|stack| - 1];
    InElements(rest, parent);
  }

  lemma Shrinks(all: set<Id>, ids: seq<Id>, children: seq<Id>)
    requires children != [] && Elements(children) <= all && Elements(ids) !! Elements(children)
    ensures |all - Elements(ids + children)| < |all - Elements(ids)|
  {
    Appended(ids, children);
    InElements(children, children[0]);
    SubsetCard(all - Elements(ids + children), all - Elements(ids));
  }

  /** Children are visited in the order of their ids. */
  method SortIds(ids: set<Id>) returns (s: seq<Id>)
    ensures NoRepeats(s) && Elements(s) == ids
    ensures forall i, j :: 0 <= i < j < |s| ==> StringLess(s[i], s[j])
  {
    var keys := SortKeys(set id | id in ids :: Key(0, 0, id));
    s := seq(|keys|, i requires 0 <= i < |keys| => keys[i].id);
    forall i | 0 <= i < |keys| ensures keys[i].priority == keys[i].createdMs == 0 && s[i] in ids {
      assert keys[i] in keys;
    }
    forall i, j | 0 <= i < j < |s| ensures s[i] != s[j] && StringLess(s[i], s[j]) {
      assert Less(keys[i], keys[j]);
      StringLessTotal(s[i], s[i]);
    }
    forall id ensures id in Elements(s) <==> id in ids {
      InElements(s, id);
      if id in ids {
        assert Key(0, 0, id) in keys;
        var i :| 0 <= i < |keys| && keys[i] == Key(0, 0, id);
        assert s[i] == id;
      }
    }
  }

  lemma {:induction false} Appended(s: seq<Id>, t: seq<Id>)
    ensures Elements(s + t) == Elements(s) + Elements(t)
    ensures t == [] ==> s + t == s
    ensures NoRepeats(s) && NoRepeats(t) && Elements(s) !! Elements(t) ==> NoRepeats(s + t)
  {
    if t == [] {
      assert s + t == s;
    } else {
      var u := t[..|t| - 1];
      var x := t[|t| - 1];
      assert t == u + [x] && s + t == (s + u) + [x];
      Appended(s, u);
      ElementsAppend(u, x);
      ElementsAppend(s + u, x);
      InElements(u, x);
      InElements(s + u, x);
    }
  }
}
