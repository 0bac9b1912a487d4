/** The values every part of the engine stores and exchanges. */
module Types {

  /** Workflow ids; queue names, topics and event keys are strings too. */
  type Id = string

  datatype Option<+T> = None | Some(value: T)

  /** A stored payload: a JSON value, of which `Null` is the distinguished null. */
  datatype Value = Null | Bool(b: bool) | Num(n: int) | Text(s: string) | Arr(items: seq<Value>)

  /** The lifecycle states of the `status` column. */
  datatype Status = Enqueued | Delayed | Pending | Success | Error | Cancelled | MaxRecoveryAttemptsExceeded

  predicate IsTerminal(s: Status) {
    s in {Success, Error, Cancelled, MaxRecoveryAttemptsExceeded}
  }

  /** The two statuses that record the end of a run. */
  predicate IsCompletion(s: Status) {
    s == Success || s == Error
  }

  /** One `workflow_status` row. `createdAt` is in nanoseconds; every field
      ending in `Ms` is in epoch milliseconds. */
  datatype Row = Row(
    id: Id,
    name: string,
    status: Status,
    input: Value,
    output: Option<Value>,
    error: Option<string>,
    executorId: string,
    appVersion: string,
    queueName: Option<string>,
    partitionKey: Option<string>,
    priority: int,
    dedupId: Option<string>,
    recoveryAttempts: int,
    parentId: Option<Id>,
    timeoutMs: Option<int>,
    deadlineMs: Option<int>,
    startedAtMs: Option<int>,
    rateLimited: bool,
    delayUntilMs: Option<int>,
    completedAtMs: Option<int>,
    forkedFrom: Option<Id>,
    createdAt: int)

  /** A fresh row: everything optional is empty. */
  function NewRow(id: Id, name: string, input: Value, status: Status, executor: string, version: string, createdAt: int): Row {
    Row(id, name, status, input, None, None, executor, version, None, None, 0, None, 0, None, None, None, None, false,
        None, None, None, createdAt)
  }

  /** The whole milliseconds of a nanosecond instant, rounded down. */
  function Millis(nanos: int): int {
    nanos / 1_000_000
  }

  function Min(a: int, b: int): int {
    if a < b then a else b
  }

  function Max(a: int, b: int): int {
    if a < b then b else a
  }

  /** One `operation_outputs` row: a step's output, its recorded error, a
      started child, or (all three absent) a patch marker. */
  datatype StepRow = StepRow(name: string, output: Option<Value>, error: Option<string>, childId: Option<Id>)

  /** What a recorded row represents when it is read back. */
  datatype StepOutcome = Output(value: Value) | Failure(message: string)

  function OutcomeOf(r: StepRow): StepOutcome {
    match r.error
    case Some(e) => Failure(e)
    case None => Output(if r.output.Some? then r.output.value else Null)
  }

  /** One message in a workflow's mailbox. */
  datatype Note = Note(uuid: string, dest: Id, topic: string, message: Value, consumed: bool, createdAtMs: int)

  /** One dispatcher's request for work. */
  datatype DequeueRequest = DequeueRequest(
    queueName: string,
    executorId: string,
    appVersion: string,
    partitionKey: Option<string>,
    maxTasks: int,
    globalConcurrency: Option<int>,
    rateLimitMax: Option<int>,
    rateLimitPeriodMs: Option<int>)
}

/** The order in which a queue hands out work: priority, then creation
    millisecond, then id. */
module ClaimOrder {
  import opened Types

  /** Lexicographic order on ids by code point, which is Rust's byte order on UTF-8. */
  predicate StringLess(a: string, b: string) {
    if a == [] then b != []
    else b != [] && (a[0] < b[0] || (a[0] == b[0] && StringLess(a[1..], b[1..])))
  }

  datatype Key = Key(priority: int, createdMs: int, id: Id)

  predicate Less(a: Key, b: Key) {
    || a.priority < b.priority
    || (a.priority == b.priority && a.createdMs < b.createdMs)
    || (a.priority == b.priority && a.createdMs == b.createdMs && StringLess(a.id, b.id))
  }

  lemma {:induction false} StringLessTotal(a: string, b: string)
    ensures StringLess(a, b) || a == b || StringLess(b, a)
    ensures !(StringLess(a, b) && StringLess(b, a))
    ensures !StringLess(a, a)
  {
    if a != [] {
      StringLessTotal(a[1..], if b == [] then [] else b[1..]);
      if b != [] && a[0] == b[0] && a[1..] == b[1..] {
        assert a == [a[0]] + a[1..] && b == [b[0]] + b[1..];
      }
    }
  }

  lemma {:induction false} StringLessTransitive(a: string, b: string, c: string)
    requires StringLess(a, b) && StringLess(b, c)
    ensures StringLess(a, c)
  {
    if a != [] && a[0] == b[0] == c[0] {
      StringLessTransitive(a[1..], b[1..], c[1..]);
    }
  }

  /** Where the two part, the smaller one ends or has the smaller character. */
  predicate PartsAt(a: string, b: string, n: nat) {
    && n <= |a| && n < |b| && a[..n] == b[..n] && (n == |a| || a[n] < b[n])
  }

  lemma {:induction false} StringLessIff(a: string, b: string)
    ensures StringLess(a, b) <==> exists n :: 0 <= n < |b| && PartsAt(a, b, n)
  {
    if a != [] && b != [] {
      StringLessIff(a[1..], b[1..]);
      if StringLess(a, b) {
        if a[0] < b[0] { assert PartsAt(a, b, 0); }
        else {
          var n :| 0 <= n < |b[1..]| && PartsAt(a[1..], b[1..], n);
          assert a[..n + 1] == [a[0]] + a[1..][..n] && b[..n + 1] == [b[0]] + b[1..][..n];
          assert PartsAt(a, b, n + 1);
        }
      }
      if n :| 0 <= n < |b| && PartsAt(a, b, n) {
        if n > 0 {
          assert a[0] == a[..n][0] && b[0] == b[..n][0];
          assert a[1..][..n - 1] == a[..n][1..] && b[1..][..n - 1] == b[..n][1..];
          assert PartsAt(a[1..], b[1..], n - 1);
        }
      }
    } else if a == [] && b != [] {
      assert PartsAt(a, b, 0);
    }
  }

  lemma LessTotal(a: Key, b: Key)
    ensures Less(a, b) || a == b || Less(b, a)
    ensures !(Less(a, b) && Less(b, a))
    ensures !Less(a, a)
  {
    StringLessTotal(a.id, b.id);
    StringLessTotal(a.id, a.id);
  }

  lemma LessTransitive(a: Key, b: Key, c: Key)
    requires Less(a, b) && Less(b, c)
    ensures Less(a, c)
  {
    if StringLess(a.id, b.id) && StringLess(b.id, c.id) {
      StringLessTransitive(a.id, b.id, c.id);
    }
  }

  ghost predicate IsLeast(m: Key, keys: set<Key>) {
    m in keys && forall k :: k in keys ==> k == m || Less(m, k)
  }

  lemma LeastExists(keys: set<Key>)
    requires keys != {}
    ensures exists m :: IsLeast(m, keys)
  {
    var k :| k in keys;
    if keys == {k} {
      assert IsLeast(k, keys);
    } else {
      var rest := keys - {k};
      assert keys == rest + {k};
      LeastExists(rest);
      var m :| IsLeast(m, rest);
      LessTotal(k, m);
      if Less(k, m) {
        forall j | j in keys ensures j == k || Less(k, j) {
          if j != k && j != m { LessTransitive(k, m, j); }
        }
        assert IsLeast(k, keys);
      } else {
        assert IsLeast(m, keys);
      }
    }
  }

  ghost function Least(keys: set<Key>): (m: Key)
    requires keys != {}
    ensures IsLeast(m, keys)
  {
    LeastExists(keys);
    var m :| IsLeast(m, keys); m
  }

  /** The `n` first keys in claim order (all of them if there are fewer). */
  ghost function Smallest(keys: set<Key>, n: nat): (r: seq<Key>)
    decreases n
  {
    if n == 0 || keys == {} then [] else [Least(keys)] + Smallest(keys - {Least(keys)}, n - 1)
  }

  ghost predicate Sorted(s: seq<Key>) {
    forall i, j :: 0 <= i < j < |s| ==> Less(s[i], s[j])
  }

  /** `r` is what sorting `keys` and keeping the first `n` gives: sorted, drawn
      from `keys`, as many as possible, and nothing left out goes before
      anything taken. */
  ghost predicate IsSmallest(keys: set<Key>, n: nat, r: seq<Key>) {
    && Sorted(r)
    && (forall i :: 0 <= i < |r| ==> r[i] in keys)
    && |r| == Min(n, |keys|)
    && (forall i, k :: 0 <= i < |r| && k in keys && k !in r ==> Less(r[i], k))
  }

  lemma {:induction false} SmallestIsSmallest(keys: set<Key>, n: nat)
    ensures IsSmallest(keys, n, Smallest(keys, n))
    decreases n
  {
    if n != 0 && keys != {} {
      var m := Least(keys);
      var rest := keys - {m};
      SmallestIsSmallest(rest, n - 1);
      var r := Smallest(rest, n - 1);
      var all := Smallest(keys, n);
      assert all == [m] + r;
      forall i, j | 0 <= i < j < |all| ensures Less(all[i], all[j]) {
        if i == 0 { assert all[j] == r[j - 1]; }
        else { assert all[i] == r[i - 1] && all[j] == r[j - 1]; }
      }
      forall i, k | 0 <= i < |all| && k in keys && k !in all ensures Less(all[i], k) {
        if i > 0 { assert all[i] == r[i - 1] && k in rest && k !in r; }
      }
    }
  }

  /** The claim is determined: only one sequence meets its specification. */
  lemma {:induction false} SmallestUnique(keys: set<Key>, n: nat, r: seq<Key>)
    requires IsSmallest(keys, n, r)
    ensures r == Smallest(keys, n)
    decreases n
  {
    if n != 0 && keys != {} {
      var m := Least(keys);
      LessTotal(m, r[0]);
      assert r[0] == m;
      var rest := keys - {m};
      var t := r[1..];
      forall i | 0 <= i < |t| ensures t[i] in rest {
        assert Less(r[0], r[i + 1]);
        LessTotal(m, m);
      }
      forall i, k | 0 <= i < |t| && k in rest && k !in t ensures Less(t[i], k) {
        assert t[i] == r[i + 1];
        assert r == [m] + t;
      }
      assert |rest| == |keys| - 1;
      SmallestUnique(rest, n - 1, t);
    } else {
      assert r == [];
    }
  }
}
