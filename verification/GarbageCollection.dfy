/** Garbage collection of old workflows: list, then delete. */
module GarbageCollection {
  import opened Types
  import opened Lineage
  import opened Store
  import opened MemoryProvider

  datatype Bound = Bound(cutoff: Option<int>) | BadThreshold

  // ---- the n-th newest row ------------------------------------------------------

  /** `top` are `n` newest rows, `id` the oldest of them. */
  ghost predicate NthNewest(wf: map<Id, Row>, n: int, id: Id, top: set<Id>) {
    && id in top && top <= wf.Keys && |top| == n
    && (forall x :: x in top ==> wf[x].createdAt >= wf[id].createdAt)
    && (forall x :: x in wf.Keys - top ==> wf[x].createdAt <= wf[id].createdAt)
  }

  /** Rows created at the same instant may come in any order; the creation time
      of the n-th newest does not depend on it. */
  lemma NthNewestNotNewer(wf: map<Id, Row>, n: int, a: Id, topA: set<Id>, b: Id, topB: set<Id>)
    requires NthNewest(wf, n, a, topA) && NthNewest(wf, n, b, topB)
    ensures wf[a].createdAt <= wf[b].createdAt
  {
    if wf[a].createdAt > wf[b].createdAt {
      assert topA <= topB;
      assert b !in topA;
      SubsetCard(topA, topB);
    }
  }

  // ---- the bound --------------------------------------------------------------------

  predicate ValidThreshold(rowsThreshold: Option<int>) {
    rowsThreshold.Some? ==> rowsThreshold.value > 0
  }

  /** `c` is the newer of the two bounds: the absolute one, and the creation time
      of the row that is the threshold-th newest, if there are as many. */
  ghost predicate IsCutoff(wf: map<Id, Row>, cutoff: Option<int>, rowsThreshold: Option<int>, c: Option<int>) {
    if rowsThreshold.None? || |wf| < rowsThreshold.value then c == cutoff
    else exists id, top :: NthNewest(wf, rowsThreshold.value, id, top)
                           && c == Some(Max(Millis(wf[id].createdAt),
                                            if cutoff.Some? then cutoff.value else Millis(wf[id].createdAt)))
  }

  /** It is determined. */
  lemma CutoffUnique(wf: map<Id, Row>, cutoff: Option<int>, rowsThreshold: Option<int>, c: Option<int>, d: Option<int>)
    requires IsCutoff(wf, cutoff, rowsThreshold, c) && IsCutoff(wf, cutoff, rowsThreshold, d)
    ensures c == d
  {
    if rowsThreshold.Some? && |wf| >= rowsThreshold.value {
      var n := rowsThreshold.value;
      var a, topA :| NthNewest(wf, n, a, topA) && c == Some(Max(Millis(wf[a].createdAt),
                       if cutoff.Some? then cutoff.value else Millis(wf[a].createdAt)));
      var b, topB :| NthNewest(wf, n, b, topB) && d == Some(Max(Millis(wf[b].createdAt),
                       if cutoff.Some? then cutoff.value else Millis(wf[b].createdAt)));
      NthNewestNotNewer(wf, n, a, topA, b, topB);
      NthNewestNotNewer(wf, n, b, topB, a, topA);
    }
  }

  // ---- what is deleted ----------------------------------------------------------------

  /** The rows the default lists: finished, and created before the cutoff. */
  function Victims(wf: map<Id, Row>, c: int): set<Id> {
    set id | id in wf && IsTerminal(wf[id].status) && Millis(wf[id].createdAt) <= c - 1
  }

  /** The rows of the SQL statement: not in flight, and created before the cutoff. */
  function SqlVictims(wf: map<Id, Row>, c: int): set<Id> {
    set id | id in wf && Millis(wf[id].createdAt) < c && wf[id].status !in {Pending, Enqueued, Delayed}
  }

  lemma SameVictims(wf: map<Id, Row>, c: int)
    ensures Victims(wf, c) == SqlVictims(wf, c)
  {
    forall id | id in wf ensures IsTerminal(wf[id].status) <==> wf[id].status !in {Pending, Enqueued, Delayed} {
      FinishedOrInFlight(wf[id].status);
    }
  }

  lemma FinishedOrInFlight(s: Status)
    ensures IsTerminal(s) <==> s !in {Pending, Enqueued, Delayed}
  {
    match s {
      case Enqueued => case Delayed => case Pending =>
      case Success => case Error => case Cancelled => case MaxRecoveryAttemptsExceeded =>
    }
  }

  /** With only a row threshold, every deleted row has at least that many rows
      strictly newer than itself, and those stay. */
  lemma ThresholdKeepsNewest(wf: map<Id, Row>, n: int, c: Option<int>, x: Id) returns (newer: set<Id>)
    requires IsCutoff(wf, None, Some(n), c) && c.Some? && x in Victims(wf, c.value)
    ensures |newer| == n && newer <= wf.Keys - Victims(wf, c.value)
    ensures forall y :: y in newer ==> wf[y].createdAt > wf[x].createdAt
  {
    var id, top :| NthNewest(wf, n, id, top) && c == Some(Max(Millis(wf[id].createdAt), Millis(wf[id].createdAt)));
    newer := top;
  }

  lemma CardLe(a: set<Id>, b: set<Id>)
    requires a <= b
    ensures |a| <= |b|
  {
    if a != b { SubsetCard(a, b); }
  }

  /** So at least that many survive, or all if there are fewer. */
  lemma ThresholdSurvivors(wf: map<Id, Row>, n: int, c: Option<int>, kept: set<Id>)
    requires IsCutoff(wf, None, Some(n), c) && kept == wf.Keys - (if c.Some? then Victims(wf, c.value) else {})
    ensures |kept| >= n || kept == wf.Keys
  {
    if x :| x in wf.Keys && x !in kept {
      var newer := ThresholdKeepsNewest(wf, n, c, x);
      CardLe(newer, kept);
    } else {
      assert kept == wf.Keys;
    }
  }

  // ---- listing --------------------------------------------------------------------------

  predicate NewestFirst(wf: map<Id, Row>, ids: seq<Id>) {
    && (forall i :: 0 <= i < |ids| ==> ids[i] in wf)
    && (forall i, j :: 0 <= i < j < |ids| ==> wf[ids[i]].createdAt >= wf[ids[j]].createdAt)
  }

  lemma {:induction false} NoRepeatsCard(s: seq<Id>)
    requires NoRepeats(s)
    ensures |Elements(s)| == |s|
  {
    if s != [] {
      var init := s[..|s| - 1];
      NoRepeatsCard(init);
      InElements(init, s[|s| - 1]);
    }
  }

  method FindNewest(wf: map<Id, Row>, ids: set<Id>) returns (m: Id)
    requires ids != {} && ids <= wf.Keys
    ensures m in ids && forall x :: x in ids ==> wf[x].createdAt <= wf[m].createdAt
  {
    m :| m in ids;
    var todo := ids - {m};
    while todo != {}
      invariant m in ids && todo <= ids && forall x :: x in ids - todo ==> wf[x].createdAt <= wf[m].createdAt
      decreases todo
    {
      var x :| x in todo;
      if wf[x].createdAt > wf[m].createdAt { m := x; }
      todo := todo - {x};
    }
  }

  method ListNewestFirst(wf: map<Id, Row>) returns (ids: seq<Id>)
    ensures NewestFirst(wf, ids) && NoRepeats(ids) && (forall x :: x in ids <==> x in wf)
  {
    ids := [];
    var rest := wf.Keys;
    while rest != {}
      invariant rest <= wf.Keys && NewestFirst(wf, ids) && NoRepeats(ids)
      invariant forall x :: x in ids <==> x in wf.Keys - rest
      invariant forall i, x :: 0 <= i < |ids| && x in rest ==> wf[ids[i]].createdAt >= wf[x].createdAt
      decreases rest
    {
      var m := FindNewest(wf, rest);
      assert m !in ids;
      ids := ids + [m];
      rest := rest - {m};
    }
  }

  lemma ListedIsNth(wf: map<Id, Row>, ids: seq<Id>, n: int)
    requires NewestFirst(wf, ids) && NoRepeats(ids) && (forall x :: x in ids <==> x in wf) && 0 < n <= |ids|
    ensures NthNewest(wf, n, ids[n - 1], Elements(ids[..n]))
  {
    var top := ids[..n];
    NoRepeatsCard(top);
    forall x ensures x in top <==> x in Elements(top) { InElements(top, x); }
    assert ids[n - 1] == top[n - 1];
    forall x | x in wf.Keys - Elements(top) ensures wf[x].createdAt <= wf[ids[n - 1]].createdAt {
      var i :| 0 <= i < |ids| && ids[i] == x;
      assert x !in top && forall k :: 0 <= k < n ==> ids[k] == top[k];
    }
  }

  lemma ListedAll(wf: map<Id, Row>, ids: seq<Id>)
    requires NoRepeats(ids) && (forall x :: x in ids <==> x in wf)
    ensures |ids| == |wf|
  {
    NoRepeatsCard(ids);
    forall x ensures x in ids <==> x in Elements(ids) { InElements(ids, x); }
    assert Elements(ids) == wf.Keys;
  }

  /** The newer bound; a threshold that is not positive is refused. */
  method ResolveCutoff(wf: map<Id, Row>, cutoff: Option<int>, rowsThreshold: Option<int>) returns (r: Bound)
    ensures r.BadThreshold? <==> !ValidThreshold(rowsThreshold)
    ensures r.Bound? ==> IsCutoff(wf, cutoff, rowsThreshold, r.cutoff)
  {
    if rowsThreshold.Some? && rowsThreshold.value <= 0 { return BadThreshold; }
    var c := cutoff;
    if rowsThreshold.Some? {
      var ids := ListNewestFirst(wf);
      ListedAll(wf, ids);
      var n := rowsThreshold.value;
      if n <= |ids| {
        ListedIsNth(wf, ids, n);
        var rowsCutoff := Millis(wf[ids[n - 1]].createdAt);
        if cutoff.None? || rowsCutoff > cutoff.value { c := Some(rowsCutoff); }
      }
    }
    r := Bound(c);
  }

  method ListIds(all: set<Id>) returns (ids: seq<Id>)
    ensures Elements(ids) == all && |ids| == |all|
  {
    ids := [];
    var todo := all;
    while todo != {}
      invariant todo <= all && Elements(ids) == all - todo && |ids| + |todo| == |all|
      decreases todo
    {
      var x :| x in todo;
      ElementsAppend(ids, x);
      ids := ids + [x];
      todo := todo - {x};
    }
  }

  /** The default implementation on the in-memory provider: deletes exactly the
      rows the SQL statement would, and says how many. */
  method GarbageCollect(p: InMemoryProvider, cutoff: Option<int>, rowsThreshold: Option<int>)
    returns (r: Bound, deleted: nat)
    modifies p
    ensures r.BadThreshold? <==> !ValidThreshold(rowsThreshold)
    ensures r.Bound? ==> IsCutoff(old(p.State()).workflows, cutoff, rowsThreshold, r.cutoff)
    ensures r.Bound? && r.cutoff.Some? ==>
              && p.State() == Delete(old(p.State()), SqlVictims(old(p.State()).workflows, r.cutoff.value))
              && deleted == |SqlVictims(old(p.State()).workflows, r.cutoff.value)|
    ensures r.BadThreshold? || r.cutoff.None? ==> p.State() == old(p.State()) && deleted == 0
  {
    r := ResolveCutoff(p.workflows, cutoff, rowsThreshold);
    deleted := 0;
    if r.BadThreshold? || r.cutoff.None? { return; }
    SameVictims(p.workflows, r.cutoff.value);
    var ids := ListIds(Victims(p.workflows, r.cutoff.value));
    deleted := |ids|;
    p.DeleteWorkflows(ids, false);
  }
}
