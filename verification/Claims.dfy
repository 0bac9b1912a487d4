/** What one dequeue claims. */
module Claims {
  import opened Types
  import opened ClaimOrder
  import opened Store

  lemma ClaimedWereEnqueued(db: Db, req: DequeueRequest, now: int, latest: Option<string>, id: Id)
    requires Keyed(db) && id in ClaimedIds(db, req, now, latest)
    ensures id in db.workflows && Eligible(db.workflows[id], req, latest)
  {
    var b := Budget(db, req, now);
    SmallestIsSmallest(Candidates(db, req, latest), b);
    var c := Claimed(db, req, now, latest);
    var i :| 0 <= i < |c| && c[i].id == id;
    assert c[i] in Candidates(db, req, latest);
  }

  lemma DequeueKeepsOthers(db: Db, req: DequeueRequest, now: int, latest: Option<string>, id: Id)
    requires Keyed(db) && id in db.workflows && db.workflows[id].status != Enqueued
    ensures var w := Dequeue(db, req, now, latest).workflows; id in w && w[id] == db.workflows[id]
  {
    if id in ClaimedIds(db, req, now, latest) { ClaimedWereEnqueued(db, req, now, latest, id); }
  }

  // ---- claims -------------------------------------------------------------

  lemma CandidateIds(db: Db, req: DequeueRequest, latest: Option<string>)
    requires Keyed(db)
    ensures |Candidates(db, req, latest)| == |EligibleIds(db, req, latest)|
    ensures forall id :: id in EligibleIds(db, req, latest) ==> KeyOf(db.workflows[id]) in Candidates(db, req, latest)
  {
    CardOfKeys(db, req, latest, EligibleIds(db, req, latest));
    assert Candidates(db, req, latest)
        == set id | id in EligibleIds(db, req, latest) :: KeyOf(db.workflows[id]);
  }

  lemma {:induction false} CardOfKeys(db: Db, req: DequeueRequest, latest: Option<string>, ids: set<Id>)
    requires Keyed(db) && ids <= EligibleIds(db, req, latest)
    ensures |set id | id in ids :: KeyOf(db.workflows[id])| == |ids|
  {
    var keys := set id | id in ids :: KeyOf(db.workflows[id]);
    if ids != {} {
      var x :| x in ids;
      var rest := ids - {x};
      CardOfKeys(db, req, latest, rest);
      var restKeys := set id | id in rest :: KeyOf(db.workflows[id]);
      assert KeyOf(db.workflows[x]) !in restKeys;
      assert keys == restKeys + {KeyOf(db.workflows[x])};
    } else {
      assert keys == {};
    }
  }

  /** What one dequeue takes: as many rows as the budget and the eligible rows
      allow, all of them eligible, each handed out once, in claim order, and
      none passed over for a later one. */
  lemma ClaimCorrectness(db: Db, req: DequeueRequest, now: int, latest: Option<string>)
    requires Keyed(db)
    ensures var c := Claimed(db, req, now, latest);
            && |c| == Min(Max(Budget(db, req, now), 0), |EligibleIds(db, req, latest)|)
            && Sorted(c)
            && |ClaimedIds(db, req, now, latest)| == |c|
            && (forall i :: 0 <= i < |c| ==> c[i].id in EligibleIds(db, req, latest)
                                             && c[i] == KeyOf(db.workflows[c[i].id]))
            && (forall i, id :: 0 <= i < |c| && id in EligibleIds(db, req, latest) - ClaimedIds(db, req, now, latest) ==>
                  Less(c[i], KeyOf(db.workflows[id])))
  {
    var b := Budget(db, req, now);
    var c := Claimed(db, req, now, latest);
    var cands := Candidates(db, req, latest);
    CandidateIds(db, req, latest);
    if b > 0 {
      SmallestIsSmallest(cands, b);
      forall i, id | 0 <= i < |c| && id in EligibleIds(db, req, latest) - ClaimedIds(db, req, now, latest)
        ensures Less(c[i], KeyOf(db.workflows[id]))
      {
        assert KeyOf(db.workflows[id]) !in c;
      }
    }
    forall i, j | 0 <= i < j < |c| ensures c[i].id != c[j].id {
      assert Less(c[i], c[j]);
      LessTotal(c[i], c[i]);
    }
    DistinctCard(c);
  }

  // ---- claims, on the rows' own fields -------------------------------------------

  /** The row is waiting on the request's queue, in its partition if it asks for
      one, and of its version: the same, or none while the request's is the latest
      or no version is registered. */
  predicate Claimable(r: Row, req: DequeueRequest, latest: Option<string>) {
    && r.queueName == Some(req.queueName) && r.status == Enqueued
    && (req.partitionKey.Some? ==> r.partitionKey == req.partitionKey)
    && (r.appVersion == req.appVersion || (r.appVersion == "" && latest in {None, Some(req.appVersion)}))
  }

  /** Lower priority number, then earlier millisecond of creation, then smaller id. */
  predicate GoesFirst(a: Row, b: Row) {
    || a.priority < b.priority
    || (a.priority == b.priority
        && (|| a.createdAt / 1_000_000 < b.createdAt / 1_000_000
            || (a.createdAt / 1_000_000 == b.createdAt / 1_000_000 && StringLess(a.id, b.id))))
  }

  /** What the claim makes of the row: it is pending with the request's executor and
      version, started now, and its deadline, unless it has one, is its timeout
      from now. */
  predicate Started(r: Row, r': Row, req: DequeueRequest, now: int) {
    && r'.status == Pending && r'.executorId == req.executorId && r'.appVersion == req.appVersion
    && r'.startedAtMs == Some(now) && (r'.rateLimited <==> req.rateLimitMax.Some?)
    && (r.deadlineMs.None? && r.timeoutMs.Some? ==> r'.deadlineMs == Some(now + r.timeoutMs.value))
    && (r.deadlineMs.Some? || r.timeoutMs.None? ==> r'.deadlineMs == r.deadlineMs)
    && r' == r.(status := r'.status, executorId := r'.executorId, appVersion := r'.appVersion,
                startedAtMs := r'.startedAtMs, rateLimited := r'.rateLimited, deadlineMs := r'.deadlineMs)
  }

  /** The rows of the request's queue and partition that count against its rate. */
  function StartsInPeriod(db: Db, req: DequeueRequest, now: int, period: int): set<Id> {
    set id | id in db.workflows && var r := db.workflows[id];
             && r.queueName == Some(req.queueName) && (req.partitionKey.Some? ==> r.partitionKey == req.partitionKey)
             && r.rateLimited && r.status !in {Enqueued, Delayed}
             && r.startedAtMs.Some? && r.startedAtMs.value + period > now
  }

  function RunningNow(db: Db, req: DequeueRequest): set<Id> {
    set id | id in db.workflows && var r := db.workflows[id];
             r.queueName == Some(req.queueName) && (req.partitionKey.Some? ==> r.partitionKey == req.partitionKey)
             && r.status == Pending
  }

  /** `n` rows are within the request, its rate limit and its concurrency limit. */
  predicate WithinLimits(db: Db, req: DequeueRequest, now: int, n: int) {
    && n <= Max(req.maxTasks, 0)
    && (req.rateLimitMax.Some? && req.rateLimitPeriodMs.Some? ==>
          n <= Max(req.rateLimitMax.value - |StartsInPeriod(db, req, now, req.rateLimitPeriodMs.value)|, 0))
    && (req.globalConcurrency.Some? ==> n <= Max(req.globalConcurrency.value - |RunningNow(db, req)|, 0))
  }

  lemma BudgetOnRows(db: Db, req: DequeueRequest, now: int, n: int)
    ensures n <= Max(Budget(db, req, now), 0) <==> WithinLimits(db, req, now, n)
  {
    assert RunningNow(db, req) == PendingIn(db, req.queueName, req.partitionKey);
    if req.rateLimitPeriodMs.Some? {
      var period := req.rateLimitPeriodMs.value;
      assert StartsInPeriod(db, req, now, period) == RecentStarts(db, req.queueName, req.partitionKey, now - period);
    }
  }

  lemma EligibleOnRows(r: Row, req: DequeueRequest, latest: Option<string>)
    ensures Eligible(r, req, latest) <==> Claimable(r, req, latest)
  {
  }

  /** The rows handed out are claimable, and come in order. */
  lemma ClaimedInOrder(db: Db, req: DequeueRequest, now: int, latest: Option<string>, i: nat)
    requires Keyed(db) && i < |Claimed(db, req, now, latest)|
    ensures var c := Claimed(db, req, now, latest);
            && c[i].id in db.workflows && Claimable(db.workflows[c[i].id], req, latest)
            && forall j :: 0 <= j < i ==> c[j].id in db.workflows && GoesFirst(db.workflows[c[j].id], db.workflows[c[i].id])
  {
    ClaimCorrectness(db, req, now, latest);
    var c := Claimed(db, req, now, latest);
    forall j | 0 <= j < i ensures c[j].id in db.workflows && GoesFirst(db.workflows[c[j].id], db.workflows[c[i].id]) {
      assert Less(c[j], c[i]);
    }
  }

  /** A claimable row is left only if every row handed out goes before it, and one
      row more would be beyond the limits. */
  lemma PassedOver(db: Db, req: DequeueRequest, now: int, latest: Option<string>, id: Id)
    requires Keyed(db) && id in db.workflows && Claimable(db.workflows[id], req, latest)
    requires id !in ClaimedIds(db, req, now, latest)
    ensures var c := Claimed(db, req, now, latest);
            && !WithinLimits(db, req, now, |c| + 1)
            && forall i :: 0 <= i < |c| ==> c[i].id in db.workflows && GoesFirst(db.workflows[c[i].id], db.workflows[id])
  {
    ClaimCorrectness(db, req, now, latest);
    var c := Claimed(db, req, now, latest);
    assert id in EligibleIds(db, req, latest) - ClaimedIds(db, req, now, latest);
    MoreEligible(db, req, now, latest, id);
    BudgetOnRows(db, req, now, |c| + 1);
    forall i | 0 <= i < |c| ensures c[i].id in db.workflows && GoesFirst(db.workflows[c[i].id], db.workflows[id]) {
      assert Less(c[i], KeyOf(db.workflows[id]));
    }
  }

  /** No more rows are handed out than the limits allow, each once. */
  lemma ClaimedWithinLimits(db: Db, req: DequeueRequest, now: int, latest: Option<string>)
    requires Keyed(db)
    ensures WithinLimits(db, req, now, |Claimed(db, req, now, latest)|)
    ensures |ClaimedIds(db, req, now, latest)| == |Claimed(db, req, now, latest)|
  {
    ClaimCorrectness(db, req, now, latest);
    BudgetOnRows(db, req, now, |Claimed(db, req, now, latest)|);
  }

  /** Each is started, and every other row and table stays as it is. */
  lemma DequeueStarts(db: Db, req: DequeueRequest, now: int, latest: Option<string>, id: Id)
    requires id in db.workflows
    ensures var db' := Dequeue(db, req, now, latest);
            && db' == db.(workflows := db'.workflows) && db'.workflows.Keys == db.workflows.Keys
            && if id in ClaimedIds(db, req, now, latest) then Started(db.workflows[id], db'.workflows[id], req, now)
               else db'.workflows[id] == db.workflows[id]
  {
  }

  /** `claimed` is a proper answer to the request, on the rows' own fields. */
  ghost predicate IsClaim(db: Db, db': Db, req: DequeueRequest, now: int, latest: Option<string>, claimed: seq<Row>) {
    && WithinLimits(db, req, now, |claimed|)
    && (forall i :: 0 <= i < |claimed| ==>
          var id := claimed[i].id;
          id in db.workflows && Claimable(db.workflows[id], req, latest) && Started(db.workflows[id], claimed[i], req, now))
    && (forall i, j :: 0 <= i < j < |claimed| ==> GoesFirst(claimed[i], claimed[j]))
    && (forall id :: id in db'.workflows && Claimable(db'.workflows[id], req, latest) ==>
          Left(db, req, now, claimed, db'.workflows[id]))
  }

  /** A row that is left: all that were handed out go before it, and there was no
      room for one more. */
  ghost predicate Left(db: Db, req: DequeueRequest, now: int, claimed: seq<Row>, r: Row) {
    && !WithinLimits(db, req, now, |claimed| + 1)
    && forall i :: 0 <= i < |claimed| ==> GoesFirst(claimed[i], r)
  }

  lemma DequeueIsClaim(db: Db, req: DequeueRequest, now: int, latest: Option<string>, claimed: seq<Row>)
    requires Keyed(db) && |claimed| == |Claimed(db, req, now, latest)|
    requires forall i :: 0 <= i < |claimed| ==>
               var id := Claimed(db, req, now, latest)[i].id;
               id in db.workflows && claimed[i] == Dequeue(db, req, now, latest).workflows[id]
    ensures IsClaim(db, Dequeue(db, req, now, latest), req, now, latest, claimed)
  {
    var c, db' := Claimed(db, req, now, latest), Dequeue(db, req, now, latest);
    ClaimedWithinLimits(db, req, now, latest);
    forall i | 0 <= i < |claimed|
      ensures claimed[i].id == c[i].id && Claimable(db.workflows[c[i].id], req, latest)
              && Started(db.workflows[c[i].id], claimed[i], req, now)
    {
      assert c[i].id in ClaimedIds(db, req, now, latest);
      ClaimedInOrder(db, req, now, latest, i);
      DequeueStarts(db, req, now, latest, c[i].id);
    }
    forall i, j | 0 <= i < j < |claimed| ensures GoesFirst(claimed[i], claimed[j]) {
      ClaimedInOrder(db, req, now, latest, j);
    }
    forall id | id in db'.workflows && Claimable(db'.workflows[id], req, latest)
      ensures Left(db, req, now, claimed, db'.workflows[id])
    {
      DequeueStarts(db, req, now, latest, id);
      PassedOver(db, req, now, latest, id);
    }
  }

  lemma MoreEligible(db: Db, req: DequeueRequest, now: int, latest: Option<string>, id: Id)
    requires Keyed(db) && id in EligibleIds(db, req, latest) - ClaimedIds(db, req, now, latest)
    ensures |Claimed(db, req, now, latest)| == Max(Budget(db, req, now), 0)
  {
    ClaimCorrectness(db, req, now, latest);
    var ids, all := ClaimedIds(db, req, now, latest), EligibleIds(db, req, latest);
    forall x | x in ids ensures x in all { ClaimedWereEnqueued(db, req, now, latest, x); }
    assert ids + {id} <= all;
    assert all == (ids + {id}) + (all - ids - {id});
  }

  lemma {:induction false} DistinctCard(c: seq<Key>)
    requires forall i, j :: 0 <= i < j < |c| ==> c[i].id != c[j].id
    ensures |set i | 0 <= i < |c| :: c[i].id| == |c|
  {
    var all := set i | 0 <= i < |c| :: c[i].id;
    if c != [] {
      var n := |c| - 1;
      var d := c[..n];
      DistinctCard(d);
      var rest := set i | 0 <= i < |d| :: d[i].id;
      assert rest == set i | 0 <= i < n :: c[i].id;
      assert all == rest + {c[n].id};
    } else {
      assert all == {};
    }
  }
}
