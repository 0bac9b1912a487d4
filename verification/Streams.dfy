/** Reading an append-only stream while its producer is still writing.

    What goes on meanwhile is a sequence of moments; every backend call a reader
    makes sees the next one. The sequence is as long as one likes, and a reader
    that reaches its end has simply not finished yet. */
module Streams {
  import opened Types
  import opened Store

  /** The entries of one stream (`None` is the close sentinel) and the status of
      the workflow that writes it. */
  datatype Moment = Moment(entries: seq<Option<Value>>, status: Option<Status>)

  // ---- entries and values -----------------------------------------------------

  /** The values in front of the close sentinel. */
  function Values(entries: seq<Option<Value>>): seq<Value> {
    if entries == [] || entries[0].None? then [] else [entries[0].value] + Values(entries[1..])
  }

  predicate Closed(entries: seq<Option<Value>>) {
    exists i :: 0 <= i < |entries| && entries[i].None?
  }

  /** The values are the entries, up to the first sentinel or all of them. */
  lemma {:induction false} ValuesAre(entries: seq<Option<Value>>)
    ensures |Values(entries)| <= |entries|
    ensures forall i :: 0 <= i < |Values(entries)| ==> entries[i] == Some(Values(entries)[i])
    ensures |Values(entries)| < |entries| ==> entries[|Values(entries)|] == None
  {
    if entries != [] { ValuesAre(entries[1..]); }
  }

  lemma {:induction false} ValuesFrom(entries: seq<Option<Value>>, offset: nat)
    requires offset <= |Values(entries)|
    ensures offset <= |entries|
    ensures Values(entries[offset..]) == Values(entries)[offset..]
    ensures Closed(entries[offset..]) <==> Closed(entries)
  {
    if offset > 0 {
      var rest := entries[1..];
      ValuesFrom(rest, offset - 1);
      assert rest[offset - 1..] == entries[offset..];
      ClosedTail(entries);
    } else {
      assert entries[offset..] == entries;
    }
  }

  lemma ClosedTail(entries: seq<Option<Value>>)
    requires entries != [] && entries[0].Some?
    ensures Closed(entries[1..]) <==> Closed(entries)
  {
    if Closed(entries) {
      var i :| 0 <= i < |entries| && entries[i].None?;
      assert entries[1..][i - 1].None?;
    }
    if Closed(entries[1..]) {
      var i :| 0 <= i < |entries[1..]| && entries[1..][i].None?;
      assert entries[i + 1].None?;
    }
  }

  /** Appending keeps the values read so far; after the close there are no more. */
  lemma {:induction false} ValuesGrow(a: seq<Option<Value>>, b: seq<Option<Value>>)
    requires a <= b
    ensures Values(a) <= Values(b)
    ensures Closed(a) ==> Closed(b) && Values(a) == Values(b)
  {
    if a != [] && a[0].Some? {
      assert a[1..] <= b[1..];
      ValuesGrow(a[1..], b[1..]);
      ClosedTail(a);
      ClosedTail(b);
    } else if a != [] {
      assert b[0].None?;
    }
  }

  // ---- moments -----------------------------------------------------------------

  /** Between two moments the stream is only appended to. */
  ghost predicate Appending(ms: seq<Moment>) {
    forall i, j :: 0 <= i <= j < |ms| ==> ms[i].entries <= ms[j].entries
  }

  /** This is what the store's own write does. */
  lemma WritesAppend(db: Db, id: Id, key: string, id': Id, key': string, value: Option<Value>)
    ensures StreamOf(db, id, key) <= StreamOf(WriteStream(db, id', key', value), id, key)
    ensures Closed(StreamOf(db, id, key)) ==>
              StreamOf(WriteStream(db, id', key', value), id, key) == StreamOf(db, id, key)
  {
  }

  /** The readers' own test. */
  predicate Active(s: Status) {
    s == Pending || s == Enqueued
  }

  /** The producer has ended, one way or the other, or is delayed: its status is
      neither pending nor enqueued. */
  predicate SeenInactive(m: Moment) {
    m.status.Some? && m.status.value !in {Pending, Enqueued}
  }

  ghost predicate NoAppendAfter(ms: seq<Moment>, t: nat) {
    forall j :: t <= j < |ms| ==> ms[j].entries == ms[t].entries
  }

  /** A reader may stop with what it read at moment `last` if that was closed, or
      if it had seen the producer inactive at an earlier moment `basis`. */
  predicate MayStop(ms: seq<Moment>, last: nat, basis: Option<nat>) {
    && last < |ms|
    && match basis
       case None => Closed(ms[last].entries)
       case Some(t) => t < last && SeenInactive(ms[t])
  }

  lemma {:induction false} ValuesAppend(a: seq<Option<Value>>, b: seq<Option<Value>>)
    requires !Closed(a)
    ensures Values(a + b) == Values(a) + Values(b)
  {
    if a == [] {
      assert a + b == b;
    } else {
      assert a[0].Some?;
      ClosedTail(a);
      ValuesAppend(a[1..], b);
      assert (a + b)[0] == a[0] && (a + b)[1..] == a[1..] + b;
      assert Values(a + b) == [a[0].value] + (Values(a[1..]) + Values(b));
    }
  }

  /** No value came after what was read at moment `last`. */
  ghost predicate ReadsAll(ms: seq<Moment>, last: nat)
    requires last < |ms| && Appending(ms)
  {
    var read, there := ms[last].entries, ms[|ms| - 1].entries;
    Closed(read) || |there| == |read| || there[|read|].None?
  }

  /** What was read at one moment is everything there is in the end, if and only if
      the stream was closed, or no value came after. */
  lemma ReadsAllIff(ms: seq<Moment>, last: nat)
    requires Appending(ms) && last < |ms|
    ensures Values(ms[|ms| - 1].entries) == Values(ms[last].entries) <==> ReadsAll(ms, last)
  {
    var read, there := ms[last].entries, ms[|ms| - 1].entries;
    if Closed(read) {
      ValuesGrow(read, there);
    } else {
      var tail := there[|read|..];
      assert there == read + tail;
      ValuesAppend(read, tail);
      assert tail != [] ==> tail[0] == there[|read|];
    }
  }

  /** Nothing is appended after an inactive status. */
  ghost predicate QuietWhenInactive(ms: seq<Moment>) {
    forall t :: 0 <= t < |ms| && SeenInactive(ms[t]) ==> NoAppendAfter(ms, t)
  }

  /** Then a reader that may stop has read it all. */
  lemma StopsWithAll(ms: seq<Moment>, last: nat, basis: Option<nat>)
    requires Appending(ms) && MayStop(ms, last, basis) && (basis.Some? ==> NoAppendAfter(ms, basis.value))
    ensures ReadsAll(ms, last)
  {
    if basis.Some? {
      assert ms[last].entries == ms[basis.value].entries && ms[|ms| - 1].entries == ms[basis.value].entries;
    }
  }

  /** What a reader that may stop has read. */
  lemma Stopped(ms: seq<Moment>, last: nat, basis: Option<nat>)
    requires Appending(ms) && MayStop(ms, last, basis)
    ensures Values(ms[last].entries) == Values(ms[|ms| - 1].entries) <==> ReadsAll(ms, last)
    ensures QuietWhenInactive(ms) ==> Values(ms[last].entries) == Values(ms[|ms| - 1].entries)
  {
    ReadsAllIff(ms, last);
    if QuietWhenInactive(ms) { StopsWithAll(ms, last, basis); }
  }

  // ---- one read -------------------------------------------------------------------

  /** The entries from an offset on, up to the close sentinel. */
  method ReadStream(entries: seq<Option<Value>>, fromOffset: int) returns (values: seq<Value>, closed: bool)
    ensures var from := Min(Max(fromOffset, 0), |entries|);
            values == Values(entries[from..]) && closed == Closed(entries[from..])
  {
    values, closed := [], false;
    var from := Min(Max(fromOffset, 0), |entries|);
    var i := from;
    while i < |entries|
      invariant from <= i <= |entries|
      invariant Values(entries[from..]) == values + Values(entries[i..])
      invariant Closed(entries[from..]) <==> Closed(entries[i..])
    {
      assert entries[i..][0] == entries[i] && entries[i..][1..] == entries[i + 1..];
      if entries[i].None? {
        closed := true;
        return;
      }
      values := values + [entries[i].value];
      ClosedTail(entries[i..]);
      i := i + 1;
    }
  }

  // ---- draining ---------------------------------------------------------------------

  datatype Drained = Complete(values: seq<Value>) | NoWorkflow | Unfinished

  /** What draining comes to that is about to read at moment `2 * n`: it stops at
      the close or on its final pass, and otherwise asks for the producer. */
  function Drains(ms: seq<Moment>, n: nat, finalRead: bool): Drained
    decreases |ms| - n
  {
    if 2 * n >= |ms| then Unfinished
    else if Closed(ms[2 * n].entries) || finalRead then Complete(Values(ms[2 * n].entries))
    else if 2 * n + 1 == |ms| then Unfinished
    else if ms[2 * n + 1].status.None? then NoWorkflow
    else Drains(ms, n + 1, !Active(ms[2 * n + 1].status.value))
  }

  method ReadOn(ms: seq<Moment>, i: nat, all: seq<Value>) returns (all': seq<Value>, closed: bool)
    requires i < |ms| && Appending(ms) && all <= Values(ms[i].entries)
    ensures all' == Values(ms[i].entries) && closed == Closed(ms[i].entries)
    ensures i + 2 < |ms| ==> all' <= Values(ms[i + 2].entries)
  {
    ValuesFrom(ms[i].entries, |all|);
    var values: seq<Value>;
    values, closed := ReadStream(ms[i].entries, |all|);
    all' := all + values;
    if i + 2 < |ms| { ValuesGrow(ms[i].entries, ms[i + 2].entries); }
  }

  /** Read on until the close, the final pass or the last moment. */
  method DrainLoop(ms: seq<Moment>) returns (r: Drained, last: nat, basis: Option<nat>)
    requires Appending(ms)
    ensures r == Drains(ms, 0, false)
    ensures r.Complete? ==> MayStop(ms, last, basis) && r.values == Values(ms[last].entries)
    ensures r.NoWorkflow? ==> last < |ms| && ms[last].status.None?
  {
    var all: seq<Value> := [];
    var finalRead, n, closed := false, 0, false;
    last, basis := 0, None;
    while 2 * n < |ms|
      invariant 0 <= n && Drains(ms, n, finalRead) == Drains(ms, 0, false)
      invariant 2 * n < |ms| ==> all <= Values(ms[2 * n].entries)
      invariant if finalRead then 0 < 2 * n <= |ms| && basis == Some(2 * n - 1) && SeenInactive(ms[2 * n - 1]) else basis.None?
    {
      last := 2 * n;
      all, closed := ReadOn(ms, last, all);
      if closed { return Complete(all), last, None; }
      if finalRead { return Complete(all), last, basis; }
      if 2 * n + 1 < |ms| {
        last := 2 * n + 1;
        if ms[last].status.None? { return NoWorkflow, last, basis; }
        if !Active(ms[last].status.value) { finalRead, basis := true, Some(last); }
      }
      n := n + 1;
    }
    r := Unfinished;
  }

  /** Read to the end. `last` is the moment of the last call. What it returns is the
      whole stream if and only if no value came after its last read, and so it is
      if nothing is appended after an inactive status. */
  method DrainStream(ms: seq<Moment>) returns (r: Drained, last: nat, basis: Option<nat>)
    requires Appending(ms)
    ensures r == Drains(ms, 0, false)
    ensures r.Complete? ==> MayStop(ms, last, basis) && r.values == Values(ms[last].entries)
    ensures r.Complete? ==> (r.values == Values(ms[|ms| - 1].entries) <==> ReadsAll(ms, last))
    ensures r.Complete? && QuietWhenInactive(ms) ==> r.values == Values(ms[|ms| - 1].entries)
    ensures r.NoWorkflow? ==> last < |ms| && ms[last].status.None?
  {
    r, last, basis := DrainLoop(ms);
    if r.Complete? { Stopped(ms, last, basis); }
  }

  // ---- pulling one value at a time -----------------------------------------------------

  datatype Pulled = Item(v: Value) | End | Gone | NotYet

  /** What a reader comes to that at moment `i` has `got` the values so far: it
      reads on while there is something, and otherwise stops at the close or on
      its final pass, or asks for the producer. */
  function Outcome(ms: seq<Moment>, i: nat, got: seq<Value>, finalRead: bool): Drained
    decreases |ms| - i
  {
    if i >= |ms| then Unfinished
    else
      var there := Values(ms[i].entries);
      if |there| > |got| then Outcome(ms, i + 1, there, finalRead)
      else if Closed(ms[i].entries) || finalRead then Complete(got)
      else if i + 1 == |ms| then Unfinished
      else if ms[i + 1].status.None? then NoWorkflow
      else Outcome(ms, i + 2, got, !Active(ms[i + 1].status.value))
  }

  /** Once closed, the stream is read to its end with two more reads. */
  lemma {:induction false} ClosedIsRead(ms: seq<Moment>, i: nat, got: seq<Value>, finalRead: bool, t: nat)
    requires Appending(ms) && t + 2 < |ms| && Closed(ms[t].entries) && i <= t + 1
    requires got <= Values(ms[i].entries)
    ensures !Outcome(ms, i, got, finalRead).Unfinished?
    decreases t + 1 - i
  {
    var there := Values(ms[i].entries);
    if i < t {
      ValuesGrow(ms[i].entries, ms[i + 1].entries);
      ValuesGrow(ms[i + 1].entries, ms[i + 2].entries);
      if |there| > |got| { ClosedIsRead(ms, i + 1, there, finalRead, t); }
      else if !(Closed(ms[i].entries) || finalRead) && ms[i + 1].status.Some? {
        ClosedIsRead(ms, i + 2, got, !Active(ms[i + 1].status.value), t);
      }
    } else {
      ValuesGrow(ms[t].entries, ms[i].entries);
      ValuesGrow(ms[i].entries, ms[i + 1].entries);
    }
  }

  /** And once the producer stays inactive and writes no more, with at most four. */
  lemma {:induction false} InactiveIsRead(ms: seq<Moment>, i: nat, got: seq<Value>, finalRead: bool, t: nat)
    requires Appending(ms) && t + 4 < |ms| && NoAppendAfter(ms, t) && i <= t + 1 && got <= Values(ms[i].entries)
    requires forall j :: t <= j < |ms| ==> SeenInactive(ms[j])
    ensures !Outcome(ms, i, got, finalRead).Unfinished?
    decreases t + 1 - i
  {
    var there := Values(ms[i].entries);
    if i < t {
      ValuesGrow(ms[i].entries, ms[i + 1].entries);
      ValuesGrow(ms[i + 1].entries, ms[i + 2].entries);
      if |there| > |got| { InactiveIsRead(ms, i + 1, there, finalRead, t); }
      else if !(Closed(ms[i].entries) || finalRead) && ms[i + 1].status.Some? {
        InactiveIsRead(ms, i + 2, got, !Active(ms[i + 1].status.value), t);
      }
    } else {
      assert ms[i].entries == ms[i + 1].entries == ms[i + 2].entries == ms[i + 3].entries;
      assert SeenInactive(ms[i + 1]) && SeenInactive(ms[i + 2]);
      assert !Outcome(ms, i + 2, there, true).Unfinished? && !Outcome(ms, i + 3, there, true).Unfinished?;
    }
  }

  /** The incremental reader: values read but not yet handed out are buffered. */
  class StreamReader {
    var offset: nat
    var buffer: seq<Value>
    var finalRead: bool
    var done: bool
    var at: nat               // the next moment
    ghost var handedOut: seq<Value>
    ghost var last: nat
    ghost var basis: Option<nat>

    ghost predicate Valid(ms: seq<Moment>)
      reads this
    {
      && offset == |handedOut| + |buffer|
      && last <= at <= |ms|
      && (at < |ms| ==> handedOut + buffer <= Values(ms[at].entries))
      && (finalRead <==> basis.Some?)
      && (basis.Some? ==> basis.value < at && SeenInactive(ms[basis.value]))
    }

    constructor (ms: seq<Moment>)
      ensures Valid(ms) && handedOut == [] && !done && Expected(ms) == Outcome(ms, 0, [], false)
    {
      offset, buffer, finalRead, done, at := 0, [], false, false, 0;
      handedOut, last, basis := [], 0, None;
    }

    method HandOut() returns (v: Value)
      requires buffer != []
      modifies this`buffer, this`handedOut
      ensures handedOut == old(handedOut) + [v]
      ensures handedOut + buffer == old(handedOut + buffer) && |buffer| == |old(buffer)| - 1
    {
      v := buffer[0];
      assert handedOut + buffer == handedOut + [v] + buffer[1..];
      handedOut, buffer := handedOut + [v], buffer[1..];
    }

    /** Read the next batch into the empty buffer. */
    method ReadBatch(ms: seq<Moment>) returns (closed: bool)
      requires Appending(ms) && Valid(ms) && at < |ms| && buffer == []
      modifies this`offset, this`buffer, this`at, this`last
      ensures Valid(ms) && at == old(at) + 1 && last == old(at)
      ensures handedOut + buffer == Values(ms[last].entries) && closed == Closed(ms[last].entries)
    {
      ValuesFrom(ms[at].entries, offset);
      assert handedOut + buffer == handedOut;
      buffer, closed := ReadStream(ms[at].entries, offset);
      offset := offset + |buffer|;
      last := at;
      at := at + 1;
      if at < |ms| { ValuesGrow(ms[last].entries, ms[at].entries); }
    }

    /** Is the producer still there, and still active? */
    method CheckProducer(ms: seq<Moment>)
      requires Appending(ms) && Valid(ms) && at < |ms|
      modifies this`finalRead, this`basis, this`at, this`done
      ensures Valid(ms) && at == old(at) + 1
      ensures done <==> old(done) || ms[old(at)].status.None?
      ensures finalRead <==> old(finalRead) || SeenInactive(ms[old(at)])
    {
      if ms[at].status.None? {
        done := true;
      } else if !Active(ms[at].status.value) {
        finalRead, basis := true, Some(at);
      }
      at := at + 1;
      if at < |ms| { ValuesGrow(ms[at - 1].entries, ms[at].entries); }
    }

    /** `p` is a proper answer, now that `got` was handed out before. */
    ghost predicate Answers(ms: seq<Moment>, p: Pulled, got: seq<Value>)
      reads this
    {
      match p
      case Item(v) => handedOut == got + [v] && !done
      case End =>
        && (MayStop(ms, last, None) || MayStop(ms, last, basis))
        && handedOut == got && got == Values(ms[last].entries)
      case Gone => handedOut == got && done && 0 < at <= |ms| && ms[at - 1].status.None?
      case NotYet => handedOut == got && at == |ms| && buffer == [] && !done
    }

    /** What the reader will come to. */
    ghost function Expected(ms: seq<Moment>): Drained
      reads this
    {
      Outcome(ms, at, handedOut + buffer, finalRead)
    }

    /** The answer is the one expected, or a value on the way to it. */
    ghost predicate Keeps(ms: seq<Moment>, p: Pulled, expected: Drained)
      reads this
    {
      match p
      case Item(_) => Expected(ms) == expected
      case End => expected == Complete(handedOut)
      case Gone => expected == NoWorkflow
      case NotYet => expected == Unfinished
    }

    /** Read once; if that gives nothing, check on the producer. */
    method Round(ms: seq<Moment>) returns (p: Option<Pulled>)
      requires Appending(ms) && Valid(ms) && buffer == [] && !done
      modifies this
      ensures Valid(ms) && old(at) <= at
      ensures p.Some? ==> Answers(ms, p.value, old(handedOut)) && Keeps(ms, p.value, old(Expected(ms)))
      ensures p.Some? && p.value.Item? ==> old(at) < at
      ensures p.None? ==> handedOut == old(handedOut) && buffer == [] && !done && at == old(at) + 2
      ensures p.None? ==> Expected(ms) == old(Expected(ms))
    {
      assert handedOut + [] == handedOut;
      if at == |ms| { return Some(NotYet); }
      var closed := ReadBatch(ms);
      if buffer != [] {
        var v := HandOut();
        return Some(Item(v));
      }
      assert handedOut + buffer == handedOut;
      if closed || finalRead { return Some(End); }
      if at == |ms| { return Some(NotYet); }
      CheckProducer(ms);
      p := if done then Some(Gone) else None;
    }

    /** The next value, or the end. */
    method Pull(ms: seq<Moment>) returns (p: Pulled)
      requires Appending(ms) && Valid(ms)
      modifies this
      ensures Valid(ms) && old(at) <= at
      ensures if old(done) then p.End? && done && handedOut == old(handedOut)
              else Answers(ms, p, old(handedOut)) && Keeps(ms, p, old(Expected(ms)))
      ensures p.Item? ==> old(at) < at || |buffer| < |old(buffer)|
    {
      if done { return End; }
      if buffer != [] {
        var v := HandOut();
        return Item(v);
      }
      while true
        invariant Valid(ms) && old(at) <= at && handedOut == old(handedOut) && !done && buffer == []
        invariant Expected(ms) == old(Expected(ms))
        decreases |ms| - at
      {
        var answer := Round(ms);
        if answer.Some? { return answer.value; }
      }
    }
  }

  /** Pull until the end: what is handed out, taken together. */
  method Collect(ms: seq<Moment>) returns (r: Drained, ghost last: nat, ghost basis: Option<nat>)
    requires Appending(ms)
    ensures r == Outcome(ms, 0, [], false)
    ensures r.Complete? ==> MayStop(ms, last, basis) && r.values == Values(ms[last].entries)
    ensures r.Complete? ==> (r.values == Values(ms[|ms| - 1].entries) <==> ReadsAll(ms, last))
    ensures r.Complete? && QuietWhenInactive(ms) ==> r.values == Values(ms[|ms| - 1].entries)
    ensures r.NoWorkflow? ==> last < |ms| && ms[last].status.None?
  {
    var reader := new StreamReader(ms);
    var all: seq<Value> := [];
    last, basis := 0, None;
    while true
      invariant fresh(reader) && reader.Valid(ms) && !reader.done && reader.handedOut == all
      invariant reader.Expected(ms) == Outcome(ms, 0, [], false)
      decreases |ms| - reader.at, |reader.buffer|
    {
      var p := reader.Pull(ms);
      match p {
        case Item(v) => all := all + [v];
        case End =>
          last, basis := reader.last, if MayStop(ms, reader.last, None) then None else reader.basis;
          Stopped(ms, last, basis);
          return Complete(all), last, basis;
        case Gone => return NoWorkflow, reader.at - 1, None;
        case NotYet => return Unfinished, 0, None;
      }
    }
  }

  // ---- when they stop -------------------------------------------------------------------------

  /** The producer is at work or waiting to be. */
  predicate AtWork(m: Moment) {
    m.status == Some(Pending) || m.status == Some(Enqueued)
  }

  /** The producer has ended, one way or the other, or is delayed. */
  predicate NotAtWork(m: Moment) {
    m.status in {Some(Success), Some(Error), Some(Cancelled), Some(MaxRecoveryAttemptsExceeded), Some(Delayed)}
  }

  lemma AtWorkOrNot(m: Moment)
    ensures m.status.Some? ==> (AtWork(m) <==> Active(m.status.value)) && (NotAtWork(m) <==> !Active(m.status.value))
  {
    if m.status.Some? {
      match m.status.value {
        case Enqueued => case Delayed => case Pending =>
        case Success => case Error => case Cancelled => case MaxRecoveryAttemptsExceeded =>
      }
    }
  }

  /** The first `n` reads found the stream open, and the producer at work after. */
  predicate Open(ms: seq<Moment>, n: nat) {
    2 * n <= |ms| && forall m :: 0 <= m < n ==> !Closed(ms[2 * m].entries) && AtWork(ms[2 * m + 1])
  }

  /** What draining does next: it stops at a close, ends with one more read if the
      producer is not at work, reports a missing workflow, and otherwise reads on. */
  lemma {:induction false} DrainsWhileOpen(ms: seq<Moment>, n: nat, i: nat)
    requires Open(ms, n) && i <= n
    ensures Drains(ms, i, false) == Drains(ms, n, false)
    decreases n - i
  {
    if i < n {
      assert !Closed(ms[2 * i].entries) && AtWork(ms[2 * i + 1]);
      AtWorkOrNot(ms[2 * i + 1]);
      DrainsWhileOpen(ms, n, i + 1);
    }
  }

  /** In full: after `n` reads that found the stream open and the producer at work. */
  lemma DrainsAfterOpen(ms: seq<Moment>, n: nat)
    requires Open(ms, n)
    ensures Drains(ms, 0, false) ==
            if 2 * n == |ms| then Unfinished
            else if Closed(ms[2 * n].entries) then Complete(Values(ms[2 * n].entries))
            else if 2 * n + 1 == |ms| then Unfinished
            else if ms[2 * n + 1].status == None then NoWorkflow
            else if NotAtWork(ms[2 * n + 1]) then
              if 2 * n + 2 < |ms| then Complete(Values(ms[2 * n + 2].entries)) else Unfinished
            else Drains(ms, n + 1, false)
  {
    DrainsWhileOpen(ms, n, 0);
    if 2 * n + 1 < |ms| { AtWorkOrNot(ms[2 * n + 1]); }
  }

  /** Neither reader ends while the stream is open and the producer at work. */
  lemma {:induction false} ReadsOn(ms: seq<Moment>, i: nat, got: seq<Value>)
    requires forall j :: 0 <= j < |ms| ==> !Closed(ms[j].entries) && AtWork(ms[j])
    ensures Outcome(ms, i, got, false) == Unfinished
    decreases |ms| - i
  {
    if i < |ms| {
      var there := Values(ms[i].entries);
      if |there| > |got| {
        ReadsOn(ms, i + 1, there);
      } else if i + 1 < |ms| {
        assert AtWork(ms[i + 1]);
        AtWorkOrNot(ms[i + 1]);
        ReadsOn(ms, i + 2, got);
      }
    }
  }

  lemma OpenIsUnfinished(ms: seq<Moment>)
    requires forall j :: 0 <= j < |ms| ==> !Closed(ms[j].entries) && AtWork(ms[j])
    ensures Drains(ms, 0, false) == Unfinished && Outcome(ms, 0, [], false) == Unfinished
  {
    ReadsOn(ms, 0, []);
    assert Open(ms, |ms| / 2);
    DrainsAfterOpen(ms, |ms| / 2);
  }

  /** Once the producer stays not at work and writes no more, both end, with the
      whole stream. */
  lemma EndsWhenNotAtWork(ms: seq<Moment>, t: nat)
    requires Appending(ms) && t + 4 < |ms| && NoAppendAfter(ms, t)
    requires forall j :: t <= j < |ms| ==> NotAtWork(ms[j])
    requires forall j :: 0 <= j < t ==> AtWork(ms[j])
    ensures Outcome(ms, 0, [], false) == Drains(ms, 0, false) == Complete(Values(ms[|ms| - 1].entries))
  {
    forall j | 0 <= j < |ms| ensures SeenInactive(ms[j]) <==> j >= t {
      assert j < t ==> AtWork(ms[j]);
      AtWorkOrNot(ms[j]);
    }
    InactiveIsRead(ms, 0, [], false, t);
    OutcomeIsFound(ms, 0, [], false);
    DrainsEnds(ms, 0, t);
    assert QuietWhenInactive(ms) by {
      forall j | 0 <= j < |ms| && SeenInactive(ms[j]) ensures NoAppendAfter(ms, j) { }
    }
    ReadersAgree(ms);
  }

  /** Whoever always finds the workflow does not report it missing. */
  lemma {:induction false} OutcomeIsFound(ms: seq<Moment>, i: nat, got: seq<Value>, finalRead: bool)
    requires forall j :: 0 <= j < |ms| ==> ms[j].status.Some?
    ensures !Outcome(ms, i, got, finalRead).NoWorkflow?
    decreases |ms| - i
  {
    if i < |ms| {
      OutcomeIsFound(ms, i + 1, Values(ms[i].entries), finalRead);
      if i + 1 < |ms| && ms[i + 1].status.Some? { OutcomeIsFound(ms, i + 2, got, !Active(ms[i + 1].status.value)); }
    }
  }

  lemma {:induction false} DrainsEnds(ms: seq<Moment>, n: nat, t: nat)
    requires t + 4 < |ms| && 2 * n <= t + 1 && forall j :: 0 <= j < |ms| ==> ms[j].status.Some?
    requires forall j :: t <= j < |ms| ==> SeenInactive(ms[j])
    ensures Drains(ms, n, false).Complete?
    decreases t + 2 - 2 * n
  {
    assert ms[2 * n + 1].status.Some?;
    if !Closed(ms[2 * n].entries) && Active(ms[2 * n + 1].status.value) {
      assert !SeenInactive(ms[2 * n + 1]);
      DrainsEnds(ms, n + 1, t);
    }
  }

  // ---- the two readers compared ------------------------------------------------------------

  /** If nothing is appended after an inactive status, what the incremental reader
      has handed out when it ends is the whole stream. */
  lemma {:induction false} OutcomeIsAll(ms: seq<Moment>, i: nat, got: seq<Value>, finalRead: bool, basis: nat)
    requires Appending(ms) && QuietWhenInactive(ms) && (i < |ms| ==> got <= Values(ms[i].entries))
    requires finalRead ==> basis < i && basis < |ms| && SeenInactive(ms[basis])
    ensures var r := Outcome(ms, i, got, finalRead); r.Complete? ==> r.values == Values(ms[|ms| - 1].entries)
    decreases |ms| - i
  {
    if i < |ms| {
      var there := Values(ms[i].entries);
      if i + 1 < |ms| { ValuesGrow(ms[i].entries, ms[i + 1].entries); }
      if i + 2 < |ms| { ValuesGrow(ms[i].entries, ms[i + 2].entries); }
      if |there| > |got| {
        OutcomeIsAll(ms, i + 1, there, finalRead, basis);
      } else if Closed(ms[i].entries) || finalRead {
        assert got == there;
        Stopped(ms, i, if Closed(ms[i].entries) then None else Some(basis));
      } else if i + 1 < |ms| && ms[i + 1].status.Some? {
        OutcomeIsAll(ms, i + 2, got, !Active(ms[i + 1].status.value), i + 1);
      }
    }
  }

  lemma {:induction false} DrainsIsAll(ms: seq<Moment>, n: nat, finalRead: bool)
    requires Appending(ms) && QuietWhenInactive(ms)
    requires finalRead ==> 0 < 2 * n <= |ms| && SeenInactive(ms[2 * n - 1])
    ensures var r := Drains(ms, n, finalRead); r.Complete? ==> r.values == Values(ms[|ms| - 1].entries)
    decreases |ms| - n
  {
    if 2 * n < |ms| {
      if Closed(ms[2 * n].entries) || finalRead {
        Stopped(ms, 2 * n, if Closed(ms[2 * n].entries) then None else Some(2 * n - 1));
      } else if 2 * n + 1 < |ms| && ms[2 * n + 1].status.Some? {
        DrainsIsAll(ms, n + 1, !Active(ms[2 * n + 1].status.value));
      }
    }
  }

  /** Over one history in which nothing is appended after an inactive status, both
      readers, if they finish, return the same: the whole stream. */
  lemma ReadersAgree(ms: seq<Moment>)
    requires Appending(ms) && QuietWhenInactive(ms)
    requires Outcome(ms, 0, [], false).Complete? && Drains(ms, 0, false).Complete?
    ensures Outcome(ms, 0, [], false) == Drains(ms, 0, false) == Complete(Values(ms[|ms| - 1].entries))
  {
    OutcomeIsAll(ms, 0, [], false, 0);
    DrainsIsAll(ms, 0, false);
  }

  /** Otherwise values can be missed: a producer with any inactive status (delayed;
      or cancelled, with a write that was past its status check) that writes on
      after it was seen. Both readers end without the value. */
  lemma InactiveProducerMissed(entries: seq<Option<Value>>, v: Value, status: Status, later: Option<Status>)
    requires !Closed(entries) && status !in {Pending, Enqueued}
    ensures var m := Moment(entries, Some(status));
            var ms := [m, m, m, m, Moment(entries + [Some(v)], later)];
            && Appending(ms)
            && Outcome(ms, 0, [], false) == Drains(ms, 0, false) == Complete(Values(entries))
            && Values(ms[4].entries) == Values(entries) + [v]
  {
    var m := Moment(entries, Some(status));
    var ms := [m, m, m, m, Moment(entries + [Some(v)], later)];
    ValuesAppend(entries, [Some(v)]);
    assert Values([Some(v)]) == [v] by { assert [Some(v)][1..] == []; }
    assert Drains(ms, 1, true) == Complete(Values(entries));
    var all := Values(entries);
    assert Outcome(ms, 2, all, true) == Complete(all) && Outcome(ms, 3, all, true) == Complete(all);
    assert Outcome(ms, 1, all, false) == Outcome(ms, 3, all, true);
    if all == [] { assert Outcome(ms, 0, [], false) == Outcome(ms, 2, [], true); }
    else { assert Outcome(ms, 0, [], false) == Outcome(ms, 1, all, false); }
  }
}
