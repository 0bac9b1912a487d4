/** The rate limiter: how many workflows a queue starts in any window of time. */
module RateLimit {
  import opened Types
  import opened ClaimOrder
  import opened Store
  import opened Claims
  import opened StoreRuns

  /** One queue (or one partition of it) under a rate limit. */
  datatype Limiter = Limiter(queue: string, scope: Option<string>, limit: int, period: int)

  /** A claim that started workflow `id`, stamped `at` by its dispatcher's clock. */
  datatype Start = Start(id: Id, at: int)

  /** Does the request claim for the limiter's queue and scope? */
  predicate Governs(l: Limiter, req: DequeueRequest) {
    req.queueName == l.queue && (l.scope.None? || req.partitionKey == l.scope)
  }

  /** The queue's dispatchers agree: they all carry its limit, and they all
      scope their requests to a partition or none of them does. Nothing says
      that their clocks, read before the lock is taken, agree with the order in
      which they take it. */
  predicate Configured(l: Limiter, req: DequeueRequest) {
    req.queueName == l.queue ==>
      && req.rateLimitMax == Some(l.limit) && req.rateLimitPeriodMs == Some(l.period)
      && (l.scope.None? <==> req.partitionKey.None?)
  }

  /** The row of a start the limiter has on record. */
  predicate OnRecord(l: Limiter, r: Row, at: int) {
    && InScope(r, l.queue, l.scope) && r.rateLimited && r.status != Enqueued && r.status != Delayed
    && r.startedAtMs == Some(at)
  }

  predicate Counted(l: Limiter, db: Db, id: Id) {
    id in db.workflows && db.workflows[id].startedAtMs.Some?
    && OnRecord(l, db.workflows[id], db.workflows[id].startedAtMs.value)
  }

  /** The changes that leave a start as it is: completions and other final
      statuses, recovery bumps, delays. */
  predicate LeavesStart(c: Change) {
    (c.ToStatus? && c.status != Enqueued && c.status != Delayed) || c.ToDelay? || c.ToBumped?
  }

  /** The calls under which the starts on record stay on record: cancelling,
      resuming, requeueing, deleting or replacing is all right for a row that is
      not on record, and so is everything that leaves a start as it is. */
  ghost predicate KeepsStarts(l: Limiter, db: Db, op: Op) {
    match op
    case ChangeOp(id, c) => LeavesStart(c) || !Counted(l, db, id) || !Changes(db, id, c)
    case DequeueOp(req, _, _) => Configured(l, req)
    case DeleteOp(ids, children) => forall id :: id in DeleteTargets(db, ids, children) ==> !Counted(l, db, id)
    case ForkOp(p, _) => p.originalId !in db.workflows || !Counted(l, db, p.newId)
    case _ => true
  }

  /** The starts a call makes under the limiter. */
  ghost function NewStarts(l: Limiter, db: Db, op: Op): seq<Start> {
    if op.DequeueOp? && Governs(l, op.req)
    then
      var c := Claimed(db, op.req, op.now, op.latest);
      seq(|c|, i requires 0 <= i < |c| => Start(c[i].id, op.now))
    else []
  }

  /** All starts of a run, in the order in which they were made. */
  ghost function Starts(l: Limiter, db: Db, ops: seq<Op>): seq<Start> {
    if ops == [] then []
    else Starts(l, db, ops[..|ops| - 1]) + NewStarts(l, After(db, ops[..|ops| - 1]), ops[|ops| - 1])
  }

  /** How many of the starts are stamped in [from, from + period). */
  function InWindow(s: seq<Start>, from: int, period: int): nat {
    if s == [] then 0
    else InWindow(s[..|s| - 1], from, period) + (if from <= s[|s| - 1].at < from + period then 1 else 0)
  }

  // ---- the starts are on record ------------------------------------------

  ghost predicate Recorded(l: Limiter, db: Db, s: seq<Start>) {
    && (forall i :: 0 <= i < |s| ==> s[i].id in db.workflows && OnRecord(l, db.workflows[s[i].id], s[i].at))
    && (forall i, j :: 0 <= i < j < |s| ==> s[i].id != s[j].id)
  }

  ghost predicate Kept(l: Limiter, db: Db, db': Db, id: Id, at: int) {
    id in db.workflows && OnRecord(l, db.workflows[id], at) ==> id in db'.workflows && OnRecord(l, db'.workflows[id], at)
  }

  lemma StartKept(l: Limiter, db: Db, op: Op, id: Id, at: int)
    requires Keyed(db) && KeepsStarts(l, db, op)
    ensures Kept(l, db, Apply(db, op), id, at)
  {
    if !ChangesRows(op) {
      OthersKeepRows(db, op);
    } else if op.DequeueOp? {
      if id in db.workflows && OnRecord(l, db.workflows[id], at) {
        DequeueKeepsOthers(db, op.req, op.now, op.latest, id);
      }
    } else if op.ChangeOp? {
      assert Apply(db, op) == Update(db, op.id, op.change);
      ChangeKeepsStart(l, db, op.id, op.change, id, at);
    }
  }

  lemma ChangeKeepsStart(l: Limiter, db: Db, changed: Id, c: Change, id: Id, at: int)
    requires LeavesStart(c) || !Counted(l, db, changed) || !Changes(db, changed, c)
    ensures Kept(l, db, Update(db, changed, c), id, at)
  {
  }

  /** A change that does not leave a counted start as it is takes it off record. */
  lemma ChangeForgetsStart(l: Limiter, db: Db, id: Id, c: Change)
    requires !LeavesStart(c) && Counted(l, db, id) && Changes(db, id, c)
    ensures !Kept(l, db, Update(db, id, c), id, db.workflows[id].startedAtMs.value)
  {
  }

  /** The premise is exact: apart from claims, a call is admitted if and only if
      every start on record stays on record. */
  lemma KeepsStartsExactly(l: Limiter, db: Db, op: Op)
    requires Keyed(db) && !op.DequeueOp?
    ensures KeepsStarts(l, db, op) <==> forall id, at :: Kept(l, db, Apply(db, op), id, at)
  {
    if KeepsStarts(l, db, op) {
      forall id, at ensures Kept(l, db, Apply(db, op), id, at) { StartKept(l, db, op, id, at); }
    } else {
      var id := LostStart(l, db, op);
      assert !Kept(l, db, Apply(db, op), id, db.workflows[id].startedAtMs.value);
    }
  }

  lemma LostStart(l: Limiter, db: Db, op: Op) returns (id: Id)
    requires !op.DequeueOp? && !KeepsStarts(l, db, op)
    ensures Counted(l, db, id) && !Kept(l, db, Apply(db, op), id, db.workflows[id].startedAtMs.value)
  {
    match op
    case ChangeOp(changed, c) => id := changed; ChangeForgetsStart(l, db, changed, c);
    case DeleteOp(ids, children) => id :| id in DeleteTargets(db, ids, children) && Counted(l, db, id);
    case ForkOp(p, _) => id := p.newId;
  }

  lemma ClaimedDistinct(db: Db, req: DequeueRequest, now: int, latest: Option<string>)
    requires Keyed(db)
    ensures var c := Claimed(db, req, now, latest); forall i, j :: 0 <= i < j < |c| ==> c[i].id != c[j].id
  {
    ClaimCorrectness(db, req, now, latest);
    var c := Claimed(db, req, now, latest);
    forall i, j | 0 <= i < j < |c| ensures c[i].id != c[j].id {
      assert Less(c[i], c[j]);
      LessTotal(c[i], c[i]);
    }
  }

  /** A claim under the limiter is itself on record afterwards, and was not before. */
  lemma ClaimRecorded(l: Limiter, db: Db, req: DequeueRequest, now: int, latest: Option<string>, id: Id)
    requires Keyed(db) && Configured(l, req) && Governs(l, req) && id in ClaimedIds(db, req, now, latest)
    ensures id in db.workflows && db.workflows[id].status == Enqueued
    ensures var w := Dequeue(db, req, now, latest).workflows; id in w && OnRecord(l, w[id], now)
  {
    ClaimedWereEnqueued(db, req, now, latest, id);
  }

  lemma RecordedStep(l: Limiter, db: Db, s: seq<Start>, op: Op)
    requires Keyed(db) && KeepsStarts(l, db, op) && Recorded(l, db, s)
    ensures Recorded(l, Apply(db, op), s + NewStarts(l, db, op))
  {
    var made := NewStarts(l, db, op);
    var all := s + made;
    var db' := Apply(db, op);
    forall i | 0 <= i < |all| ensures all[i].id in db'.workflows && OnRecord(l, db'.workflows[all[i].id], all[i].at) {
      if i < |s| {
        StartKept(l, db, op, s[i].id, s[i].at);
      } else {
        NewStartRecorded(l, db, op, i - |s|);
      }
    }
    NewStartsDistinct(l, db, s, op);
  }

  lemma NewStartsDistinct(l: Limiter, db: Db, s: seq<Start>, op: Op)
    requires Keyed(db) && KeepsStarts(l, db, op) && Recorded(l, db, s)
    ensures var all := s + NewStarts(l, db, op); forall i, j :: 0 <= i < j < |all| ==> all[i].id != all[j].id
  {
    var all := s + NewStarts(l, db, op);
    if |s| < |all| { ClaimedDistinct(db, op.req, op.now, op.latest); }
    forall i, j | 0 <= i < j < |all| ensures all[i].id != all[j].id {
      if i < |s| <= j {
        NewStartRecorded(l, db, op, j - |s|);
      }
    }
  }

  lemma NewStartRecorded(l: Limiter, db: Db, op: Op, k: nat)
    requires Keyed(db) && KeepsStarts(l, db, op) && k < |NewStarts(l, db, op)|
    ensures var st := NewStarts(l, db, op)[k];
            && st.id in db.workflows && db.workflows[st.id].status == Enqueued
            && st.id in Apply(db, op).workflows && OnRecord(l, Apply(db, op).workflows[st.id], st.at)
  {
    var c := Claimed(db, op.req, op.now, op.latest);
    assert c[k].id in ClaimedIds(db, op.req, op.now, op.latest);
    ClaimRecorded(l, db, op.req, op.now, op.latest, c[k].id);
  }

  // ---- counting --------------------------------------------------------------

  ghost function IdsInWindow(s: seq<Start>, from: int, period: int): set<Id> {
    set i | 0 <= i < |s| && from <= s[i].at < from + period :: s[i].id
  }

  lemma {:induction false} WindowCard(s: seq<Start>, from: int, period: int)
    requires forall i, j :: 0 <= i < j < |s| ==> s[i].id != s[j].id
    ensures InWindow(s, from, period) == |IdsInWindow(s, from, period)|
  {
    if s != [] {
      var n := |s| - 1;
      WindowCard(s[..n], from, period);
      IdsInWindowOfLast(s, from, period);
      assert forall i :: 0 <= i < n ==> s[..n][i].id != s[n].id;
    }
  }

  lemma IdsInWindowOfLast(s: seq<Start>, from: int, period: int)
    requires s != []
    ensures IdsInWindow(s, from, period)
         == IdsInWindow(s[..|s| - 1], from, period)
          + (if from <= s[|s| - 1].at < from + period then {s[|s| - 1].id} else {})
  {
    var u := s[..|s| - 1];
    assert forall i :: 0 <= i < |u| ==> u[i] == s[i];
    assert IdsInWindow(u, from, period) <= IdsInWindow(s, from, period);
  }

  /** The limiter sees every start of a window that its own clock falls in. */
  lemma WindowSeen(l: Limiter, db: Db, s: seq<Start>, from: int, now: int)
    requires Recorded(l, db, s) && from <= now < from + l.period
    ensures InWindow(s, from, l.period) <= |RecentStarts(db, l.queue, l.scope, now - l.period)|
  {
    WindowCard(s, from, l.period);
    Subset(IdsInWindow(s, from, l.period), RecentStarts(db, l.queue, l.scope, now - l.period));
  }

  lemma Subset(a: set<Id>, b: set<Id>)
    requires a <= b
    ensures |a| <= |b|
  {
    assert b == a + (b - a);
  }

  lemma {:induction false} WindowOfAppend(s: seq<Start>, t: seq<Start>, from: int, period: int)
    ensures InWindow(s + t, from, period) == InWindow(s, from, period) + InWindow(t, from, period)
  {
    if t == [] {
      assert s + t == s;
    } else {
      var u := t[..|t| - 1];
      assert (s + t)[..|s + t| - 1] == s + u;
      WindowOfAppend(s, u, from, period);
    }
  }

  lemma {:induction false} WindowOfOneInstant(t: seq<Start>, now: int, from: int, period: int)
    requires forall i :: 0 <= i < |t| ==> t[i].at == now
    ensures InWindow(t, from, period) == if from <= now < from + period then |t| else 0
  {
    if t != [] { WindowOfOneInstant(t[..|t| - 1], now, from, period); }
  }

  ghost predicate Bounded(l: Limiter, s: seq<Start>) {
    forall from :: InWindow(s, from, l.period) <= Max(l.limit, 0)
  }

  lemma BoundedStep(l: Limiter, db: Db, s: seq<Start>, op: Op, from: int)
    requires Keyed(db) && KeepsStarts(l, db, op) && Recorded(l, db, s) && Bounded(l, s)
    ensures InWindow(s + NewStarts(l, db, op), from, l.period) <= Max(l.limit, 0)
  {
    var made := NewStarts(l, db, op);
    WindowOfAppend(s, made, from, l.period);
    if made != [] {
      WindowOfOneInstant(made, op.now, from, l.period);
      if from <= op.now < from + l.period {
        WindowSeen(l, db, s, from, op.now);
        ClaimWithinLimit(l, db, op.req, op.now, op.latest);
      }
    }
  }

  /** A governed request claims no more than its window has room for. */
  lemma ClaimWithinLimit(l: Limiter, db: Db, req: DequeueRequest, now: int, latest: Option<string>)
    requires Keyed(db) && Configured(l, req) && Governs(l, req)
    ensures |Claimed(db, req, now, latest)| <= Max(l.limit - |RecentStarts(db, l.queue, l.scope, now - l.period)|, 0)
  {
    assert req.partitionKey == l.scope;
    ClaimCorrectness(db, req, now, latest);
  }

  /** In every run, every window of the limiter's period, wherever it starts,
      holds at most `limit` starts. */
  lemma {:induction false} RateLimitHolds(l: Limiter, db: Db, ops: seq<Op>, from: int)
    requires Keyed(db)
    requires forall k :: 0 <= k < |ops| ==> KeepsStarts(l, Before(db, ops, k), ops[k])
    ensures InWindow(Starts(l, db, ops), from, l.period) <= Max(l.limit, 0)
  {
    LimitKept(l, db, ops);
  }

  lemma {:induction false} LimitKept(l: Limiter, db: Db, ops: seq<Op>)
    requires Keyed(db)
    requires forall k :: 0 <= k < |ops| ==> KeepsStarts(l, Before(db, ops, k), ops[k])
    ensures Recorded(l, After(db, ops), Starts(l, db, ops)) && Bounded(l, Starts(l, db, ops))
  {
    if ops != [] {
      var n := |ops| - 1;
      var init := ops[..n];
      forall k | 0 <= k < n ensures KeepsStarts(l, Before(db, init, k), init[k]) {
        assert init[..k] == ops[..k];
        assert KeepsStarts(l, Before(db, ops, k), ops[k]);
      }
      LimitKept(l, db, init);
      KeyedRun(db, init);
      assert KeepsStarts(l, Before(db, ops, n), ops[n]);
      RecordedStep(l, After(db, init), Starts(l, db, init), ops[n]);
      forall from ensures InWindow(Starts(l, db, ops), from, l.period) <= Max(l.limit, 0) {
        BoundedStep(l, After(db, init), Starts(l, db, init), ops[n], from);
      }
    }
  }

  /** The premise is needed: cancelling a workflow whose start is still in the
      window takes that start off the record, and the next dispatcher is allowed
      one more although the window was full. */
  lemma CancelFreesTheWindow(l: Limiter, db: Db, req: DequeueRequest, now: int, latest: Option<string>, id: Id, at: int)
    requires Keyed(db) && Configured(l, req) && Governs(l, req)
    requires req.maxTasks > 0 && req.globalConcurrency == None
    requires id in RecentStarts(db, l.queue, l.scope, now - l.period) && !IsTerminal(db.workflows[id].status)
    requires |RecentStarts(db, l.queue, l.scope, now - l.period)| == l.limit
    requires EligibleIds(db, req, latest) != {}
    ensures Claimed(db, req, now, latest) == []
    ensures Claimed(Update(db, id, ToCancelled(at)), req, now, latest) != []
  {
    assert req.partitionKey == l.scope;
    ClaimWithinLimit(l, db, req, now, latest);
    CancelForgetsStart(l, db, id, now - l.period, at);
    CancelKeepsEligible(db, req, latest, id, at);
    RoomIsUsed(l, Update(db, id, ToCancelled(at)), req, now, latest);
  }

  /** A request with room in its window and something to claim claims something. */
  lemma RoomIsUsed(l: Limiter, db: Db, req: DequeueRequest, now: int, latest: Option<string>)
    requires Keyed(db) && Configured(l, req) && Governs(l, req) && req.maxTasks > 0 && req.globalConcurrency == None
    requires |RecentStarts(db, l.queue, l.scope, now - l.period)| < l.limit && EligibleIds(db, req, latest) != {}
    ensures Claimed(db, req, now, latest) != []
  {
    assert req.partitionKey == l.scope;
    ClaimCorrectness(db, req, now, latest);
  }

  lemma CancelKeepsEligible(db: Db, req: DequeueRequest, latest: Option<string>, id: Id, at: int)
    requires id in db.workflows && db.workflows[id].status != Enqueued
    ensures EligibleIds(Update(db, id, ToCancelled(at)), req, latest) == EligibleIds(db, req, latest)
  {
  }

  lemma CancelForgetsStart(l: Limiter, db: Db, id: Id, cutoff: int, at: int)
    requires id in RecentStarts(db, l.queue, l.scope, cutoff) && !IsTerminal(db.workflows[id].status)
    ensures |RecentStarts(Update(db, id, ToCancelled(at)), l.queue, l.scope, cutoff)|
         == |RecentStarts(db, l.queue, l.scope, cutoff)| - 1
  {
    var db' := Update(db, id, ToCancelled(at));
    assert RecentStarts(db', l.queue, l.scope, cutoff) == RecentStarts(db, l.queue, l.scope, cutoff) - {id};
  }

  // ---- a run with one start too many --------------------------------------------------------

  /** A queue without recent starts and with more to claim than its limit. */
  ghost predicate Waiting(l: Limiter, db: Db, req: DequeueRequest, now: int, latest: Option<string>) {
    && Keyed(db) && Configured(l, req) && Governs(l, req) && l.period > 0
    && req.globalConcurrency == None && req.maxTasks >= l.limit >= 1
    && RecentStarts(db, l.queue, l.scope, now - l.period) == {}
    && |EligibleIds(db, req, latest)| > l.limit
  }

  lemma FirstClaim(l: Limiter, db: Db, req: DequeueRequest, now: int, latest: Option<string>)
    requires Waiting(l, db, req, now, latest)
    ensures |Claimed(db, req, now, latest)| == l.limit == |ClaimedIds(db, req, now, latest)|
  {
    assert req.partitionKey == l.scope;
    ClaimCorrectness(db, req, now, latest);
  }

  /** After a first claim exactly the claimed rows are recent starts. */
  lemma ClaimedAreRecent(l: Limiter, db: Db, req: DequeueRequest, now: int, latest: Option<string>)
    requires Waiting(l, db, req, now, latest)
    ensures RecentStarts(Dequeue(db, req, now, latest), l.queue, l.scope, now - l.period) == ClaimedIds(db, req, now, latest)
  {
    var db' := Dequeue(db, req, now, latest);
    forall id ensures id in RecentStarts(db', l.queue, l.scope, now - l.period) <==> id in ClaimedIds(db, req, now, latest) {
      if id in ClaimedIds(db, req, now, latest) {
        ClaimRecorded(l, db, req, now, latest, id);
      } else if id in db.workflows {
        assert id !in RecentStarts(db, l.queue, l.scope, now - l.period);
      }
    }
  }

  /** And what was not claimed is still eligible. */
  lemma UnclaimedStayEligible(db: Db, req: DequeueRequest, now: int, latest: Option<string>)
    requires Keyed(db)
    ensures EligibleIds(db, req, latest) - ClaimedIds(db, req, now, latest)
         <= EligibleIds(Dequeue(db, req, now, latest), req, latest)
  {
  }

  lemma MoreRemains(all: set<Id>, claimed: set<Id>)
    requires |claimed| < |all|
    ensures all - claimed != {}
  {
    if all <= claimed { Subset(all, claimed); } else {
      var x :| x in all && x !in claimed;
      assert x in all - claimed;
    }
  }

  /** The window is full after the first claim; a cancellation makes room for one
      more. */
  lemma SecondClaim(l: Limiter, db: Db, req: DequeueRequest, now: int, latest: Option<string>, id: Id)
    requires Waiting(l, db, req, now, latest) && id in ClaimedIds(db, req, now, latest)
    ensures Claimed(Update(Dequeue(db, req, now, latest), id, ToCancelled(now)), req, now, latest) != []
  {
    var db1 := Dequeue(db, req, now, latest);
    FirstClaim(l, db, req, now, latest);
    ClaimedAreRecent(l, db, req, now, latest);
    ClaimRecorded(l, db, req, now, latest, id);
    UnclaimedStayEligible(db, req, now, latest);
    MoreRemains(EligibleIds(db, req, latest), ClaimedIds(db, req, now, latest));
    KeyedStep(db, DequeueOp(req, now, latest));
    assert EligibleIds(db1, req, latest) != {};
    CancelFreesTheWindow(l, db1, req, now, latest, id, now);
  }

  /** So a cancellation between two claims makes a run one of whose windows holds
      more starts than the limit. */
  lemma CancelledRunExceedsLimit(l: Limiter, db: Db, req: DequeueRequest, now: int, latest: Option<string>)
    returns (id: Id, ops: seq<Op>)
    requires Waiting(l, db, req, now, latest)
    ensures ops == [DequeueOp(req, now, latest), ChangeOp(id, ToCancelled(now)), DequeueOp(req, now, latest)]
    ensures InWindow(Starts(l, db, ops), now, l.period) > l.limit
  {
    id := SomeClaimed(l, db, req, now, latest);
    var claim, cancel := DequeueOp(req, now, latest), ChangeOp(id, ToCancelled(now));
    ops := [claim, cancel, claim];
    StartsOfThree(l, db, claim, cancel, claim);
    var db2 := Apply(Apply(db, claim), cancel);
    assert db2 == Update(Dequeue(db, req, now, latest), id, ToCancelled(now));
    AllNowInWindow(NewStarts(l, db, claim), NewStarts(l, db2, claim), now, l.period);
  }

  lemma SomeClaimed(l: Limiter, db: Db, req: DequeueRequest, now: int, latest: Option<string>) returns (id: Id)
    requires Waiting(l, db, req, now, latest)
    ensures |Claimed(db, req, now, latest)| == l.limit
    ensures Claimed(Update(Dequeue(db, req, now, latest), id, ToCancelled(now)), req, now, latest) != []
  {
    FirstClaim(l, db, req, now, latest);
    id :| id in ClaimedIds(db, req, now, latest);
    SecondClaim(l, db, req, now, latest, id);
  }

  lemma AllNowInWindow(a: seq<Start>, b: seq<Start>, now: int, period: int)
    requires period > 0 && forall i :: 0 <= i < |a| ==> a[i].at == now
    requires forall i :: 0 <= i < |b| ==> b[i].at == now
    ensures InWindow(a + b, now, period) == |a| + |b|
  {
    WindowOfAppend(a, b, now, period);
    WindowOfOneInstant(a, now, now, period);
    WindowOfOneInstant(b, now, now, period);
  }

  lemma StartsOfThree(l: Limiter, db: Db, x: Op, y: Op, z: Op)
    requires !y.DequeueOp?
    ensures Starts(l, db, [x, y, z]) == NewStarts(l, db, x) + NewStarts(l, Apply(Apply(db, x), y), z)
  {
    assert [x][..0] == [] && [x, y][..1] == [x] && [x, y, z][..2] == [x, y];
    assert After(db, [x]) == Apply(db, x) && After(db, [x, y]) == Apply(Apply(db, x), y);
    assert Starts(l, db, [x]) == NewStarts(l, db, x);
    assert Starts(l, db, [x, y]) == NewStarts(l, db, x);
  }
}
