/** Debouncing one key: producers that start a collector or nudge a running one,
    and the collectors, in any interleaving. A collector is a workflow, so a crash
    only repeats its current step; what its steps return is durable. */
module Debounce {
  import opened Types

  // ---- the collector's loop --------------------------------------------------------

  /** The run is never scheduled later than the cap, if there is one. */
  function Cap(start: int, timeoutMs: int, t: int): int {
    if timeoutMs > 0 && t > start + timeoutMs then start + timeoutMs else t
  }

  datatype Msg = Msg(input: Value, delayMs: int, to: int)

  /** One turn of the loop: the time read, and the message received, if any. */
  datatype Turn = Turn(now: int, received: Option<Msg>)

  /** The first `n` turns all brought a message. */
  predicate Pushes(turns: seq<Turn>, n: nat)
    requires n <= |turns|
  {
    forall i :: 0 <= i < n ==> turns[i].received.Some?
  }

  /** The input and the target time after `n` messages. */
  function After(initial: Value, start: int, delayMs: int, timeoutMs: int, turns: seq<Turn>, n: nat): (Value, int)
    requires n <= |turns| && Pushes(turns, n)
  {
    if n == 0 then (initial, Cap(start, timeoutMs, start + delayMs))
    else
      var t := turns[n - 1];
      (t.received.value.input, Cap(start, timeoutMs, t.now + t.received.value.delayMs))
  }

  /** The last push wins, or else the first call: its input, and its delay counted
      from when it was taken, but never later than the cap. */
  predicate Settled(initial: Value, start: int, delayMs: int, timeoutMs: int, turns: seq<Turn>, n: nat, input: Value, targetMs: int) {
    && n <= |turns| && (n > 0 ==> turns[n - 1].received.Some?)
    && input == (if n == 0 then initial else turns[n - 1].received.value.input)
    && var asked := if n == 0 then start + delayMs else turns[n - 1].now + turns[n - 1].received.value.delayMs;
       targetMs == if timeoutMs > 0 then Min(asked, start + timeoutMs) else asked
  }

  lemma AfterSettles(initial: Value, start: int, delayMs: int, timeoutMs: int, turns: seq<Turn>, n: nat)
    requires n <= |turns| && Pushes(turns, n)
    ensures var (input, targetMs) := After(initial, start, delayMs, timeoutMs, turns, n);
            Settled(initial, start, delayMs, timeoutMs, turns, n, input, targetMs)
  {
  }

  /** Collect pushed-back inputs until the time is up or no message comes.
      `done` is false if the turns ran out first. */
  method CollectInputs(initial: Value, start: int, delayMs: int, timeoutMs: int, turns: seq<Turn>)
    returns (done: bool, input: Value, targetMs: int, taken: nat)
    ensures taken <= |turns| && Pushes(turns, taken)
    ensures (input, targetMs) == After(initial, start, delayMs, timeoutMs, turns, taken)
    ensures Settled(initial, start, delayMs, timeoutMs, turns, taken, input, targetMs)
    ensures forall i :: 0 <= i < taken ==> turns[i].now < After(initial, start, delayMs, timeoutMs, turns, i).1
    ensures if done then taken < |turns| && (targetMs <= turns[taken].now || turns[taken].received.None?) else taken == |turns|
  {
    input := initial;
    targetMs := Cap(start, timeoutMs, start + delayMs);
    taken := 0;
    while taken < |turns|
      invariant taken <= |turns| && Pushes(turns, taken)
      invariant (input, targetMs) == After(initial, start, delayMs, timeoutMs, turns, taken)
      invariant forall i :: 0 <= i < taken ==> turns[i].now < After(initial, start, delayMs, timeoutMs, turns, i).1
    {
      var turn := turns[taken];
      if targetMs - turn.now <= 0 || turn.received.None? { return true, input, targetMs, taken; }
      input := turn.received.value.input;
      targetMs := Cap(start, timeoutMs, turn.now + turn.received.value.delayMs);
      taken := taken + 1;
    }
    done := false;
  }

  // ---- producers and collectors together ------------------------------------------------

  datatype Stage =
    | Queued            // enqueued, not started
    | Looping           // about to read the clock
    | Receiving(now: int)
    | Acking(m: int)    // took message `m`, about to acknowledge it
    | Launching         // about to start, or starting again, the target
    | Over              // finished or cancelled

  /** `firstCall` is when the producer that won the slot called, `start` when the collector
      began, `asked` the time last asked for and `targetMs` that time, capped. */
  datatype Collector = Collector(
    targetId: Id, initial: Value, delayMs: int, timeoutMs: int,
    firstCall: int, start: int, input: Value, asked: int, targetMs: int,
    mailbox: seq<int>, taken: seq<int>, stage: Stage)

  datatype Progress =
    | Trying
    | Found(c: int)
    | Sent(c: int, m: int)
    | Returned(c: int, via: Option<int>)   // got the target id of `c`

  datatype Producer = Producer(input: Value, delayMs: int, calledAt: int, progress: Progress)

  /** `slot` is the deduplication slot of the key; `targets` the target rows with
      their input, `starts` how often each was created. */
  datatype World = World(
    slot: Option<int>, collectors: map<int, Collector>, msgs: map<int, Msg>, acked: set<int>,
    targets: map<Id, Value>, starts: map<Id, nat>, producers: map<int, Producer>)

  datatype Event =
    | Call(p: int, input: Value, delayMs: int, now: int)
    | Enqueue(p: int, c: int, target: Id, timeoutMs: int, now: int)
    | Lookup(p: int)
    | Send(p: int, m: int)
    | SeeAck(p: int)
    | GiveUp(p: int)
    | Begin(c: int, now: int)
    | ReadClock(c: int, now: int)
    | Receive(c: int)
    | Ack(c: int)
    | TimeOut(c: int)
    | Launch(c: int)
    | Finish(c: int)
    | Cancel(c: int)

  predicate Has(w: World, p: int, progress: Progress) {
    p in w.producers && w.producers[p].progress == progress
  }

  predicate AtStage(w: World, c: int, stage: Stage) {
    c in w.collectors && w.collectors[c].stage == stage
  }

  predicate FreshTarget(w: World, target: Id) {
    target !in w.targets && forall c :: c in w.collectors ==> w.collectors[c].targetId != target
  }

  predicate Enabled(w: World, ev: Event) {
    match ev
    case Call(p, _, _, _) => p !in w.producers
    case Enqueue(p, c, target, _, _) => Has(w, p, Trying) && c !in w.collectors && FreshTarget(w, target)
    case Lookup(p) => Has(w, p, Trying)
    case Send(p, m) => p in w.producers && w.producers[p].progress.Found? && m !in w.msgs
    case SeeAck(p) => p in w.producers && w.producers[p].progress.Sent? && w.producers[p].progress.m in w.acked
    case GiveUp(p) => p in w.producers && w.producers[p].progress.Sent?
    case Begin(c, _) => AtStage(w, c, Queued)
    case ReadClock(c, _) => AtStage(w, c, Looping)
    case Receive(c) => c in w.collectors && w.collectors[c].stage.Receiving? && w.collectors[c].mailbox != []
    case Ack(c) => c in w.collectors && w.collectors[c].stage.Acking?
    case TimeOut(c) => c in w.collectors && w.collectors[c].stage.Receiving?
    case Launch(c) => AtStage(w, c, Launching)
    case Finish(c) => AtStage(w, c, Launching) && w.collectors[c].targetId in w.targets
    case Cancel(c) => c in w.collectors && w.collectors[c].stage != Over
  }

  function PutProducer(w: World, p: int, progress: Progress): World
    requires p in w.producers
  {
    w.(producers := w.producers[p := w.producers[p].(progress := progress)])
  }

  function PutCollector(w: World, c: int, k: Collector): World {
    w.(collectors := w.collectors[c := k])
  }

  function Count(starts: map<Id, nat>, t: Id): nat {
    if t in starts then starts[t] else 0
  }

  /** An insert creates the target's row once. */
  function StartTarget(w: World, k: Collector): World {
    if k.targetId in w.targets then w
    else w.(targets := w.targets[k.targetId := k.input], starts := w.starts[k.targetId := Count(w.starts, k.targetId) + 1])
  }

  /** The first call wins the slot and starts a collector; later ones are refused. */
  function DoEnqueue(w: World, p: int, c: int, target: Id, timeoutMs: int, now: int): World
    requires p in w.producers
  {
    if w.slot.Some? then w
    else
      var x := w.producers[p];
      var k := Collector(target, x.input, x.delayMs, timeoutMs, x.calledAt, now, x.input, now, now, [], [], Queued);
      PutProducer(PutCollector(w.(slot := Some(c)), c, k), p, Returned(c, None))
  }

  function DoReceive(w: World, c: int): World
    requires c in w.collectors && w.collectors[c].stage.Receiving? && w.collectors[c].mailbox != []
  {
    var k := w.collectors[c];
    var m := k.mailbox[0];
    if m !in w.msgs then w
    else
      PutCollector(w, c, k.(input := w.msgs[m].input, asked := k.stage.now + w.msgs[m].delayMs,
                            targetMs := Cap(k.start, k.timeoutMs, k.stage.now + w.msgs[m].delayMs),
                            mailbox := k.mailbox[1..], taken := k.taken + [m], stage := Acking(m)))
  }

  function DoSend(w: World, p: int, m: int): World
    requires p in w.producers && w.producers[p].progress.Found?
  {
    var x := w.producers[p];
    var c := x.progress.c;
    if c !in w.collectors then w
    else
      var k := w.collectors[c];
      PutProducer(PutCollector(w.(msgs := w.msgs[m := Msg(x.input, x.delayMs, c)]), c, k.(mailbox := k.mailbox + [m])),
                  p, Sent(c, m))
  }

  function Next(w: World, ev: Event): World
    requires Enabled(w, ev)
  {
    match ev
    case Call(p, input, delayMs, now) => w.(producers := w.producers[p := Producer(input, delayMs, now, Trying)])
    case Enqueue(p, c, target, timeoutMs, now) => DoEnqueue(w, p, c, target, timeoutMs, now)
    case Lookup(p) => if w.slot.Some? then PutProducer(w, p, Found(w.slot.value)) else w
    case Send(p, m) => DoSend(w, p, m)
    case SeeAck(p) =>
      var sent := w.producers[p].progress;
      PutProducer(w, p, Returned(sent.c, Some(sent.m)))
    case GiveUp(p) => PutProducer(w, p, Trying)
    case Begin(c, now) =>
      var k := w.collectors[c];
      PutCollector(w, c, k.(start := now, asked := now + k.delayMs, targetMs := Cap(now, k.timeoutMs, now + k.delayMs),
                            stage := Looping))
    case ReadClock(c, now) =>
      var k := w.collectors[c];
      PutCollector(w, c, k.(stage := if k.targetMs - now <= 0 then Launching else Receiving(now)))
    case Receive(c) => DoReceive(w, c)
    case Ack(c) => PutCollector(w.(acked := w.acked + {w.collectors[c].stage.m}), c, w.collectors[c].(stage := Looping))
    case TimeOut(c) => PutCollector(w, c, w.collectors[c].(stage := Launching))
    case Launch(c) => StartTarget(w, w.collectors[c])
    case Finish(c) => PutCollector(w.(slot := None), c, w.collectors[c].(stage := Over))
    case Cancel(c) => PutCollector(w.(slot := None), c, w.collectors[c].(stage := Over))
  }

  // ---- what every step keeps ---------------------------------------------------------------

  /** The input of the last message taken, or the initial one. */
  predicate HasLastInput(w: World, k: Collector) {
    if k.taken == [] then k.input == k.initial
    else k.taken[|k.taken| - 1] in w.msgs && k.input == w.msgs[k.taken[|k.taken| - 1]].input
  }

  predicate Collecting(k: Collector) {
    k.stage != Launching && k.stage != Over
  }

  ghost predicate CollectorOk(w: World, c: int, k: Collector) {
    && (k.stage != Over <==> w.slot == Some(c))
    && HasLastInput(w, k)
    && k.targetMs == Cap(k.start, k.timeoutMs, k.asked)
    && (k.targetId in w.targets ==> !Collecting(k) && w.targets[k.targetId] == k.input)
    && (forall i :: 0 <= i < |k.mailbox| ==> k.mailbox[i] in w.msgs && w.msgs[k.mailbox[i]].to == c)
    && (forall i :: 0 <= i < |k.taken| ==> k.taken[i] in w.msgs && w.msgs[k.taken[i]].to == c)
    && (k.stage.Acking? ==> k.stage.m in k.taken)
  }

  ghost predicate TargetsOk(w: World) {
    && (forall c, d :: c in w.collectors && d in w.collectors && c != d ==> w.collectors[c].targetId != w.collectors[d].targetId)
    && (forall t :: Count(w.starts, t) == if t in w.targets then 1 else 0)
  }

  ghost predicate AcksOk(w: World) {
    forall m :: m in w.acked ==> m in w.msgs && w.msgs[m].to in w.collectors && m in w.collectors[w.msgs[m].to].taken
  }

  ghost predicate ProducerOk(w: World, x: Producer) {
    match x.progress
    case Trying => true
    case Found(c) => c in w.collectors
    case Sent(c, m) => c in w.collectors && m in w.msgs && w.msgs[m] == Msg(x.input, x.delayMs, c)
    case Returned(c, via) =>
      && c in w.collectors
      && match via
         case None => w.collectors[c].initial == x.input
         case Some(m) => m in w.msgs && m in w.collectors[c].taken && w.msgs[m].input == x.input
  }

  ghost predicate Inv(w: World) {
    && (w.slot.Some? ==> w.slot.value in w.collectors)
    && (forall c :: c in w.collectors ==> CollectorOk(w, c, w.collectors[c]))
    && TargetsOk(w) && AcksOk(w)
    && (forall p :: p in w.producers ==> ProducerOk(w, w.producers[p]))
  }

  /** Collectors keep their initial input and their target, and only take more;
      messages do not change. */
  ghost predicate Extends(w: World, w': World) {
    && (forall c :: c in w.collectors ==>
          && c in w'.collectors && w'.collectors[c].initial == w.collectors[c].initial
          && w'.collectors[c].targetId == w.collectors[c].targetId && w.collectors[c].taken <= w'.collectors[c].taken)
    && (forall m :: m in w.msgs ==> m in w'.msgs && w'.msgs[m] == w.msgs[m])
  }

  lemma ProducersKept(w: World, w': World)
    requires Inv(w) && Extends(w, w')
    ensures forall p :: p in w.producers ==> ProducerOk(w', w.producers[p])
  {
    forall p | p in w.producers ensures ProducerOk(w', w.producers[p]) {
      assert ProducerOk(w, w.producers[p]);
    }
  }

  lemma AcksKept(w: World, w': World)
    requires AcksOk(w) && Extends(w, w') && w'.acked == w.acked
    ensures AcksOk(w')
  {
  }

  /** Collector `c` moves on to `k`, and maybe gives up the slot. */
  lemma CollectorMoves(w: World, w': World, c: int, k: Collector)
    requires Inv(w) && c in w.collectors && w'.collectors == w.collectors[c := k] && w'.producers == w.producers
    requires w'.msgs == w.msgs && w'.targets == w.targets && w'.starts == w.starts
    requires w'.slot == w.slot || (w.slot == Some(c) && w'.slot == None)
    requires k.targetId == w.collectors[c].targetId && k.initial == w.collectors[c].initial
    requires w.collectors[c].taken <= k.taken && CollectorOk(w', c, k) && AcksOk(w')
    ensures Inv(w')
  {
    ProducersKept(w, w');
    forall d | d in w'.collectors ensures CollectorOk(w', d, w'.collectors[d]) {
      if d != c { assert CollectorOk(w, d, w.collectors[d]); }
    }
    TargetsKept(w, w');
  }

  lemma TargetsKept(w: World, w': World)
    requires TargetsOk(w) && w'.targets == w.targets && w'.starts == w.starts && w'.collectors.Keys == w.collectors.Keys
    requires forall c :: c in w.collectors ==> w'.collectors[c].targetId == w.collectors[c].targetId
    ensures TargetsOk(w')
  {
  }

  lemma ProducerMoves(w: World, p: int, x: Producer)
    requires Inv(w) && ProducerOk(w, x)
    ensures Inv(w.(producers := w.producers[p := x]))
  {
    var w' := w.(producers := w.producers[p := x]);
    forall c | c in w'.collectors ensures CollectorOk(w', c, w'.collectors[c]) {
      assert CollectorOk(w, c, w.collectors[c]);
    }
    TargetsKept(w, w');
    forall q | q in w'.producers ensures ProducerOk(w', w'.producers[q]) {
      assert q != p ==> ProducerOk(w, w.producers[q]);
    }
  }

  lemma ReceiveKeeps(w: World, c: int)
    requires Inv(w) && Enabled(w, Receive(c))
    ensures Inv(DoReceive(w, c))
  {
    var k := w.collectors[c];
    assert CollectorOk(w, c, k);
    var m := k.mailbox[0];
    var w' := DoReceive(w, c);
    var k' := w'.collectors[c];
    assert k'.taken[|k'.taken| - 1] == m;
    AcksKept(w, w');
    CollectorMoves(w, w', c, k');
  }

  lemma AckKeeps(w: World, c: int)
    requires Inv(w) && Enabled(w, Ack(c))
    ensures Inv(Next(w, Ack(c)))
  {
    var k := w.collectors[c];
    assert CollectorOk(w, c, k);
    CollectorMoves(w, Next(w, Ack(c)), c, k.(stage := Looping));
  }

  /** A collector that has not finished goes to another stage; finishing gives up
      the slot. */
  lemma StageKeeps(w: World, c: int, stage: Stage)
    requires Inv(w) && c in w.collectors && w.collectors[c].stage != Over && !stage.Acking?
    requires Collecting(w.collectors[c].(stage := stage)) ==> Collecting(w.collectors[c])
    ensures var slot := if stage == Over then None else w.slot;
            Inv(PutCollector(w.(slot := slot), c, w.collectors[c].(stage := stage)))
  {
    var k := w.collectors[c];
    assert CollectorOk(w, c, k);
    var w' := PutCollector(w.(slot := if stage == Over then None else w.slot), c, k.(stage := stage));
    AcksKept(w, w');
    CollectorMoves(w, w', c, k.(stage := stage));
  }

  lemma BeginKeeps(w: World, c: int, now: int)
    requires Inv(w) && Enabled(w, Begin(c, now))
    ensures Inv(Next(w, Begin(c, now)))
  {
    assert CollectorOk(w, c, w.collectors[c]);
    AcksKept(w, Next(w, Begin(c, now)));
    CollectorMoves(w, Next(w, Begin(c, now)), c, Next(w, Begin(c, now)).collectors[c]);
  }

  /** The target's row is created with what the collector has, and only by it. */
  lemma LaunchKeeps(w: World, c: int)
    requires Inv(w) && Enabled(w, Launch(c))
    ensures Inv(Next(w, Launch(c)))
  {
    var w' := Next(w, Launch(c));
    assert CollectorOk(w, c, w.collectors[c]);
    forall d | d in w'.collectors ensures CollectorOk(w', d, w'.collectors[d]) {
      assert CollectorOk(w, d, w.collectors[d]);
    }
    ProducersKept(w, w');
    AcksKept(w, w');
    LaunchTargets(w, c);
  }

  lemma LaunchTargets(w: World, c: int)
    requires TargetsOk(w) && Enabled(w, Launch(c))
    ensures TargetsOk(Next(w, Launch(c)))
  {
  }

  lemma EnqueueKeeps(w: World, p: int, c: int, target: Id, timeoutMs: int, now: int)
    requires Inv(w) && Enabled(w, Enqueue(p, c, target, timeoutMs, now))
    ensures Inv(DoEnqueue(w, p, c, target, timeoutMs, now))
  {
    if w.slot.None? {
      var x := w.producers[p];
      var k := Collector(target, x.input, x.delayMs, timeoutMs, x.calledAt, now, x.input, now, now, [], [], Queued);
      var w' := PutCollector(w.(slot := Some(c)), c, k);
      forall d | d in w'.collectors ensures CollectorOk(w', d, w'.collectors[d]) {
        if d != c { assert CollectorOk(w, d, w.collectors[d]); }
      }
      ProducersKept(w, w');
      AcksKept(w, w');
      EnqueueTargets(w, w', c, k);
      ProducerMoves(w', p, x.(progress := Returned(c, None)));
    }
  }

  lemma EnqueueTargets(w: World, w': World, c: int, k: Collector)
    requires TargetsOk(w) && c !in w.collectors && FreshTarget(w, k.targetId)
    requires w' == PutCollector(w.(slot := Some(c)), c, k)
    ensures TargetsOk(w')
  {
  }

  /** A message arrives for collector `c`. */
  lemma ArrivalKeeps(w: World, m: int, msg: Msg)
    requires Inv(w) && m !in w.msgs && msg.to in w.collectors
    ensures var k := w.collectors[msg.to];
            Inv(PutCollector(w.(msgs := w.msgs[m := msg]), msg.to, k.(mailbox := k.mailbox + [m])))
  {
    var c, k := msg.to, w.collectors[msg.to];
    var w' := PutCollector(w.(msgs := w.msgs[m := msg]), c, k.(mailbox := k.mailbox + [m]));
    forall d | d in w'.collectors ensures CollectorOk(w', d, w'.collectors[d]) { ArrivalCollector(w, w', c, m, msg, d); }
    ArrivalExtends(w, m, msg);
    ProducersKept(w, w');
    AcksKept(w, w');
    TargetsKept(w, w');
  }

  lemma ArrivalExtends(w: World, m: int, msg: Msg)
    requires m !in w.msgs && msg.to in w.collectors
    ensures var k := w.collectors[msg.to];
            Extends(w, PutCollector(w.(msgs := w.msgs[m := msg]), msg.to, k.(mailbox := k.mailbox + [m])))
  {
  }

  lemma ArrivalCollector(w: World, w': World, c: int, m: int, msg: Msg, d: int)
    requires c in w.collectors && d in w.collectors && CollectorOk(w, d, w.collectors[d]) && m !in w.msgs
    requires w'.collectors == w.collectors[c := w.collectors[c].(mailbox := w.collectors[c].mailbox + [m])]
    requires w'.msgs == w.msgs[m := msg] && msg.to == c
    requires w'.slot == w.slot && w'.targets == w.targets
    ensures CollectorOk(w', d, w'.collectors[d])
  {
  }

  lemma SendKeeps(w: World, p: int, m: int)
    requires Inv(w) && Enabled(w, Send(p, m))
    ensures Inv(DoSend(w, p, m))
  {
    var x := w.producers[p];
    assert ProducerOk(w, x);
    var c := x.progress.c;
    var k := w.collectors[c];
    ArrivalKeeps(w, m, Msg(x.input, x.delayMs, c));
    var w' := PutCollector(w.(msgs := w.msgs[m := Msg(x.input, x.delayMs, c)]), c, k.(mailbox := k.mailbox + [m]));
    ProducerMoves(w', p, x.(progress := Sent(c, m)));
  }

  lemma ProducersKeep(w: World, ev: Event)
    requires Inv(w) && Enabled(w, ev) && (ev.Call? || ev.Lookup? || ev.SeeAck? || ev.GiveUp?)
    ensures Inv(Next(w, ev))
  {
    if ev.Call? {
      ProducerMoves(w, ev.p, Producer(ev.input, ev.delayMs, ev.now, Trying));
    } else {
      assert ProducerOk(w, w.producers[ev.p]);
      var w' := Next(w, ev);
      ProducerMoves(w, ev.p, w'.producers[ev.p]);
      assert w' == w.(producers := w.producers[ev.p := w'.producers[ev.p]]);
    }
  }

  lemma InvStep(w: World, ev: Event)
    requires Inv(w) && Enabled(w, ev)
    ensures Inv(Next(w, ev))
  {
    match ev
    case Enqueue(p, c, target, timeoutMs, now) => EnqueueKeeps(w, p, c, target, timeoutMs, now);
    case Send(p, m) => SendKeeps(w, p, m);
    case Receive(c) => ReceiveKeeps(w, c);
    case Ack(c) => AckKeeps(w, c);
    case Launch(c) => LaunchKeeps(w, c);
    case Call(_, _, _, _) => ProducersKeep(w, ev);
    case Lookup(_) => ProducersKeep(w, ev);
    case SeeAck(_) => ProducersKeep(w, ev);
    case GiveUp(_) => ProducersKeep(w, ev);
    case Begin(c, now) => BeginKeeps(w, c, now);
    case ReadClock(c, now) => StageKeeps(w, c, Next(w, ev).collectors[c].stage);
    case TimeOut(c) => StageKeeps(w, c, Launching);
    case Finish(c) => StageKeeps(w, c, Over);
    case Cancel(c) => StageKeeps(w, c, Over);
  }

  // ---- whole runs --------------------------------------------------------------------------

  const EMPTY := World(None, map[], map[], {}, map[], map[], map[])

  ghost predicate Runs(es: seq<Event>)
    decreases |es|, 0
  {
    es == [] || (Runs(es[..|es| - 1]) && Enabled(Final(es[..|es| - 1]), es[|es| - 1]))
  }

  ghost function Final(es: seq<Event>): World
    requires Runs(es)
    decreases |es|, 1
  {
    if es == [] then EMPTY else Next(Final(es[..|es| - 1]), es[|es| - 1])
  }

  lemma {:induction false} InvRun(es: seq<Event>)
    requires Runs(es)
    ensures Inv(Final(es))
  {
    if es != [] {
      InvRun(es[..|es| - 1]);
      InvStep(Final(es[..|es| - 1]), es[|es| - 1]);
    }
  }

  /** What the target of `k` runs with was this producer's input, or a later one:
      its input was the initial one or was accepted. */
  ghost predicate InputCounted(w: World, k: Collector, input: Value) {
    k.initial == input || exists i :: 0 <= i < |k.taken| && k.taken[i] in w.msgs && w.msgs[k.taken[i]].input == input
  }

  /** In every run: no target is started twice; a started target runs with the
      last input its collector accepted, and it accepts no more from then on; a
      producer that was handed a target id had its input counted there; and the
      run is scheduled no later than the collector's start plus the timeout. */
  lemma Coalesces(es: seq<Event>, p: int)
    requires Runs(es) && p in Final(es).producers && Final(es).producers[p].progress.Returned?
    ensures var w := Final(es); var c := w.producers[p].progress.c;
            && c in w.collectors
            && Count(w.starts, w.collectors[c].targetId) <= 1
            && InputCounted(w, w.collectors[c], w.producers[p].input)
            && (w.collectors[c].targetId in w.targets ==>
                  && !Collecting(w.collectors[c]) && HasLastInput(w, w.collectors[c])
                  && w.targets[w.collectors[c].targetId] == w.collectors[c].input)
            && (w.collectors[c].timeoutMs > 0 ==>
                  w.collectors[c].targetMs <= w.collectors[c].start + w.collectors[c].timeoutMs)
  {
    InvRun(es);
    var w := Final(es);
    var x := w.producers[p];
    assert ProducerOk(w, x);
    var k := w.collectors[x.progress.c];
    assert CollectorOk(w, x.progress.c, k);
    if x.progress.via.Some? {
      var i :| 0 <= i < |k.taken| && k.taken[i] == x.progress.via.value;
    }
  }

  // ---- only collectors start targets -----------------------------------------------------------

  ghost predicate Owned(w: World, t: Id) {
    exists c :: c in w.collectors && w.collectors[c].targetId == t
  }

  lemma OwnedStep(w: World, ev: Event, t: Id)
    requires Enabled(w, ev) && (t in w.targets ==> Owned(w, t)) && t in Next(w, ev).targets
    ensures Owned(Next(w, ev), t)
  {
    if t in w.targets {
      var c :| c in w.collectors && w.collectors[c].targetId == t;
      assert Next(w, ev).collectors[c].targetId == t;
    } else {
      assert Next(w, ev).collectors[ev.c].targetId == t;
    }
  }

  /** In every run a target that was started is some collector's. */
  lemma {:induction false} TargetsAreOwned(es: seq<Event>, t: Id)
    requires Runs(es) && t in Final(es).targets
    ensures Owned(Final(es), t)
  {
    var init := es[..|es| - 1];
    if t in Final(init).targets { TargetsAreOwned(init, t); }
    OwnedStep(Final(init), es[|es| - 1], t);
  }

  // ---- accepted before the start --------------------------------------------------------------

  /** A collector past its loop takes nothing more. */
  lemma NothingAfterStart(w: World, ev: Event, c: int)
    requires Enabled(w, ev) && c in w.collectors && CollectorOk(w, c, w.collectors[c])
    requires w.collectors[c].targetId in w.targets
    ensures c in Next(w, ev).collectors && Next(w, ev).collectors[c].taken == w.collectors[c].taken
    ensures Next(w, ev).collectors[c].targetId == w.collectors[c].targetId
  {
  }

  /** A target row, once there, keeps its input. */
  lemma TargetStays(w: World, ev: Event, t: Id)
    requires Enabled(w, ev) && t in w.targets
    ensures t in Next(w, ev).targets && Next(w, ev).targets[t] == w.targets[t]
  {
  }

  lemma {:induction false} PrefixRuns(es: seq<Event>, n: nat)
    requires Runs(es) && n <= |es|
    ensures Runs(es[..n])
  {
    if n < |es| {
      PrefixRuns(es[..|es| - 1], n);
      assert es[..|es| - 1][..n] == es[..n];
    } else {
      assert es[..n] == es;
    }
  }

  /** The world before event `n`. */
  ghost function Moment(es: seq<Event>, n: nat): World
    requires Runs(es) && n <= |es|
  {
    PrefixRuns(es, n);
    Final(es[..n])
  }

  /** From the moment the target is there, what the collector took is settled. */
  lemma {:induction false} TakenIsSettled(es: seq<Event>, n: nat, c: int)
    requires Runs(es) && n <= |es| && Runs(es[..n]) && c in Final(es[..n]).collectors
    requires Final(es[..n]).collectors[c].targetId in Final(es[..n]).targets
    ensures var w, w' := Final(es[..n]), Final(es);
            && c in w'.collectors && w'.collectors[c].taken == w.collectors[c].taken
            && w'.collectors[c].targetId == w.collectors[c].targetId && w.collectors[c].targetId in w'.targets
  {
    if n < |es| {
      var init := es[..|es| - 1];
      assert init[..n] == es[..n];
      TakenIsSettled(init, n, c);
      InvRun(init);
      NothingAfterStart(Final(init), es[|es| - 1], c);
      TargetStays(Final(init), es[|es| - 1], Final(init).collectors[c].targetId);
    } else {
      assert es[..n] == es;
    }
  }

  /** The event creates the target's row: it is a launch, which takes nothing. */
  lemma StartIsLaunch(w: World, ev: Event, c: int)
    requires Enabled(w, ev) && c in w.collectors && w.collectors[c].targetId !in w.targets
    requires w.collectors[c].targetId in Next(w, ev).targets
    ensures ev.Launch? && Next(w, ev).collectors == w.collectors
  {
  }

  /** In every run: when the target of a collector starts, with event `n`, every
      producer that is ever handed its id has already been counted: its input is
      the initial one, or its message has been taken. */
  lemma AcceptedBeforeStart(es: seq<Event>, n: nat, c: int, p: int)
    requires Runs(es) && n < |es| && c in Moment(es, n).collectors
    requires var t := Moment(es, n).collectors[c].targetId; t !in Moment(es, n).targets && t in Moment(es, n + 1).targets
    requires p in Final(es).producers && Final(es).producers[p].progress.Returned? && Final(es).producers[p].progress.c == c
    ensures var x, k := Final(es).producers[p], Moment(es, n).collectors[c];
            match x.progress.via
            case None => x.input == k.initial
            case Some(m) => m in k.taken && m in Final(es).msgs && Final(es).msgs[m].input == x.input
  {
    PrefixRuns(es, n);
    PrefixRuns(es, n + 1);
    assert es[..n + 1][..n] == es[..n];
    StartIsLaunch(Final(es[..n]), es[n], c);
    TakenIsSettled(es, n + 1, c);
    InvRun(es);
    assert ProducerOk(Final(es), Final(es).producers[p]);
    InitialStays(es, n, c);
  }

  lemma InitialKept(w: World, ev: Event, c: int)
    requires Enabled(w, ev) && c in w.collectors
    ensures c in Next(w, ev).collectors && Next(w, ev).collectors[c].initial == w.collectors[c].initial
  {
  }

  lemma {:induction false} InitialStays(es: seq<Event>, n: nat, c: int)
    requires Runs(es) && n <= |es| && Runs(es[..n]) && c in Final(es[..n]).collectors
    ensures c in Final(es).collectors && Final(es).collectors[c].initial == Final(es[..n]).collectors[c].initial
  {
    if n < |es| {
      var init := es[..|es| - 1];
      assert init[..n] == es[..n];
      InitialStays(init, n, c);
      InitialKept(Final(init), es[|es| - 1], c);
    } else {
      assert es[..n] == es;
    }
  }

  // ---- the collectors run the loop ---------------------------------------------------------------

  /** The collector is in its loop or past it. */
  predicate Begun(w: World, k: Collector) {
    (k.stage != Queued && k.stage != Over) || k.targetId in w.targets
  }

  /** Collector `k` is where the loop is after these turns: they brought the messages
      it took, each before the time the run was then scheduled for. */
  ghost predicate Follows(w: World, k: Collector, turns: seq<Turn>) {
    && |turns| == |k.taken|
    && (forall i :: 0 <= i < |turns| ==> k.taken[i] in w.msgs && turns[i].received == Some(w.msgs[k.taken[i]]))
    && (k.stage == Queued ==> k.taken == [])
    && (forall i :: 0 <= i < |turns| ==> turns[i].now < After(k.initial, k.start, k.delayMs, k.timeoutMs, turns, i).1)
    && (Begun(w, k) ==> (k.input, k.targetMs) == After(k.initial, k.start, k.delayMs, k.timeoutMs, turns, |turns|))
    && (k.stage.Receiving? ==> k.stage.now < k.targetMs)
  }

  lemma BeginFollows(w: World, c: int, now: int, turns: seq<Turn>)
    requires Inv(w) && Enabled(w, Begin(c, now)) && Follows(w, w.collectors[c], turns)
    ensures Follows(Next(w, Begin(c, now)), Next(w, Begin(c, now)).collectors[c], turns)
  {
    assert CollectorOk(w, c, w.collectors[c]);
  }

  lemma AfterPrefix(k: Collector, turns: seq<Turn>, t: Turn, i: nat)
    requires i <= |turns| && Pushes(turns, |turns|)
    ensures Pushes(turns + [t], i)
    ensures After(k.initial, k.start, k.delayMs, k.timeoutMs, turns + [t], i) == After(k.initial, k.start, k.delayMs, k.timeoutMs, turns, i)
  {
    assert forall j :: 0 <= j < i ==> (turns + [t])[j] == turns[j];
  }

  lemma ReceiveFollows(w: World, c: int, turns: seq<Turn>) returns (turns': seq<Turn>)
    requires Inv(w) && Enabled(w, Receive(c)) && Follows(w, w.collectors[c], turns)
    ensures Follows(DoReceive(w, c), DoReceive(w, c).collectors[c], turns')
    ensures !DoReceive(w, c).collectors[c].stage.Receiving?
    ensures |turns'| == |turns| + 1 && turns'[..|turns|] == turns && turns'[|turns|].now == w.collectors[c].stage.now
  {
    var k := w.collectors[c];
    assert CollectorOk(w, c, k);
    var m := k.mailbox[0];
    assert m in w.msgs;
    turns' := turns + [Turn(k.stage.now, Some(w.msgs[m]))];
    PushFollows(w, DoReceive(w, c), k, DoReceive(w, c).collectors[c], turns, m);
  }

  lemma PushFollows(w: World, w': World, k: Collector, k': Collector, turns: seq<Turn>, m: int)
    requires Follows(w, k, turns) && k.stage.Receiving? && m in w.msgs && w'.msgs == w.msgs
    requires k' == k.(input := w.msgs[m].input, asked := k.stage.now + w.msgs[m].delayMs,
                      targetMs := Cap(k.start, k.timeoutMs, k.stage.now + w.msgs[m].delayMs),
                      mailbox := k'.mailbox, taken := k.taken + [m], stage := Acking(m))
    ensures Follows(w', k', turns + [Turn(k.stage.now, Some(w.msgs[m]))])
  {
    var t := Turn(k.stage.now, Some(w.msgs[m]));
    var turns' := turns + [t];
    forall i | 0 <= i < |turns'| ensures k'.taken[i] in w.msgs && turns'[i].received == Some(w.msgs[k'.taken[i]]) {
      assert i < |turns| ==> turns'[i] == turns[i] && k'.taken[i] == k.taken[i];
    }
    forall i | 0 <= i < |turns'| ensures turns'[i].now < After(k.initial, k.start, k.delayMs, k.timeoutMs, turns', i).1 {
      AfterPrefix(k, turns, t, i);
      assert i < |turns| ==> turns'[i] == turns[i];
    }
  }

  /** Everything else leaves the turns as they are. */
  lemma OthersFollow(w: World, ev: Event, c: int, turns: seq<Turn>)
    requires Inv(w) && Enabled(w, ev) && c in w.collectors && Follows(w, w.collectors[c], turns)
    requires ev != Receive(c) && !(ev.Begin? && ev.c == c)
    ensures c in Next(w, ev).collectors && Follows(Next(w, ev), Next(w, ev).collectors[c], turns)
  {
    var k, w' := w.collectors[c], Next(w, ev);
    assert CollectorOk(w, c, k);
    OthersKeepLoop(w, ev, c);
    var k' := w'.collectors[c];
    forall i | 0 <= i < |turns| ensures k'.taken[i] in w'.msgs && turns[i].received == Some(w'.msgs[k'.taken[i]]) {
      MessagesStay(w, ev, k.taken[i]);
    }
  }

  lemma MessagesStay(w: World, ev: Event, m: int)
    requires Enabled(w, ev) && m in w.msgs
    ensures m in Next(w, ev).msgs && Next(w, ev).msgs[m] == w.msgs[m]
  {
  }

  lemma OthersKeepLoop(w: World, ev: Event, c: int)
    requires Enabled(w, ev) && c in w.collectors && ev != Receive(c) && !(ev.Begin? && ev.c == c)
    requires CollectorOk(w, c, w.collectors[c]) && TargetsOk(w)
    ensures c in Next(w, ev).collectors
    ensures var k, k' := w.collectors[c], Next(w, ev).collectors[c];
            && k' == k.(stage := k'.stage, mailbox := k'.mailbox)
            && (k'.stage == Queued ==> k.stage == Queued)
            && (Begun(Next(w, ev), k') ==> Begun(w, k))
            && (k'.stage.Receiving? ==> (k'.stage == k.stage || k'.stage.now < k.targetMs))
  {
  }

  /** The collector read this time. */
  ghost predicate ReadBy(es: seq<Event>, c: int, now: int) {
    exists m :: 0 <= m < |es| && es[m] == ReadClock(c, now)
  }

  ghost predicate ReadTimes(es: seq<Event>, c: int, k: Collector, turns: seq<Turn>) {
    && (forall i :: 0 <= i < |turns| ==> ReadBy(es, c, turns[i].now))
    && (k.stage.Receiving? ==> ReadBy(es, c, k.stage.now))
  }

  lemma ReadTimesGrow(es: seq<Event>, c: int, k: Collector, k': Collector, turns: seq<Turn>)
    requires es != [] && ReadTimes(es[..|es| - 1], c, k, turns)
    requires k'.stage.Receiving? ==> k'.stage == k.stage || es[|es| - 1] == ReadClock(c, k'.stage.now)
    ensures ReadTimes(es, c, k', turns)
  {
    forall now | ReadBy(es[..|es| - 1], c, now) ensures ReadBy(es, c, now) {
      var m :| 0 <= m < |es| - 1 && es[..|es| - 1][m] == ReadClock(c, now);
      assert es[m] == ReadClock(c, now);
    }
    if k'.stage.Receiving? && k'.stage != k.stage { assert ReadBy(es, c, k'.stage.now); }
  }

  lemma StageFrom(w: World, ev: Event, c: int)
    requires Enabled(w, ev) && c in w.collectors && c in Next(w, ev).collectors
    ensures var k, k' := w.collectors[c], Next(w, ev).collectors[c];
            k'.stage.Receiving? ==> k'.stage == k.stage || ev == ReadClock(c, k'.stage.now)
  {
  }

  lemma FollowsStep(w: World, ev: Event, c: int, before: seq<Turn>) returns (turns: seq<Turn>)
    requires Inv(w) && Enabled(w, ev) && c in w.collectors && Follows(w, w.collectors[c], before)
    ensures c in Next(w, ev).collectors && Follows(Next(w, ev), Next(w, ev).collectors[c], turns)
    ensures || turns == before
            || (&& w.collectors[c].stage.Receiving? && !Next(w, ev).collectors[c].stage.Receiving?
                && |turns| == |before| + 1 && turns[..|before|] == before && turns[|before|].now == w.collectors[c].stage.now)
  {
    turns := before;
    if ev == Receive(c) { turns := ReceiveFollows(w, c, before); }
    else if ev.Begin? && ev.c == c { BeginFollows(w, c, ev.now, turns); }
    else { OthersFollow(w, ev, c, turns); }
  }

  lemma NewFollows(w: World, ev: Event, c: int)
    requires Enabled(w, ev) && c !in w.collectors && c in Next(w, ev).collectors && Inv(Next(w, ev))
    ensures Follows(Next(w, ev), Next(w, ev).collectors[c], []) && Next(w, ev).collectors[c].stage == Queued
  {
    assert CollectorOk(Next(w, ev), c, Next(w, ev).collectors[c]);
  }

  /** In every run, every collector does what its loop does: there are turns, with
      times it read and the messages it took, after which the loop has its input and
      its target time. */
  lemma {:induction false} CollectorRunsLoop(es: seq<Event>, c: int) returns (turns: seq<Turn>)
    requires Runs(es) && c in Final(es).collectors
    ensures Follows(Final(es), Final(es).collectors[c], turns)
    ensures ReadTimes(es, c, Final(es).collectors[c], turns)
  {
    var init, ev := es[..|es| - 1], es[|es| - 1];
    var w := Final(init);
    InvRun(init);
    InvRun(es);
    if c !in w.collectors {
      turns := [];
      NewFollows(w, ev, c);
    } else {
      var before := CollectorRunsLoop(init, c);
      turns := FollowsStep(w, ev, c, before);
      StageFrom(w, ev, c);
      if turns == before { ReadTimesGrow(es, c, w.collectors[c], Final(es).collectors[c], turns); }
      else { ReadTimesOfReceive(es, c, w.collectors[c], Final(es).collectors[c], before, turns); }
    }
  }

  /** So the input and the target time of a collector that has begun, and the input
      its target runs with, are those of the last push, capped. */
  lemma LastPushWins(es: seq<Event>, c: int) returns (turns: seq<Turn>)
    requires Runs(es) && c in Final(es).collectors && Begun(Final(es), Final(es).collectors[c])
    ensures var w := Final(es); var k := w.collectors[c];
            && Follows(w, k, turns) && ReadTimes(es, c, k, turns)
            && Settled(k.initial, k.start, k.delayMs, k.timeoutMs, turns, |turns|, k.input, k.targetMs)
            && (k.targetId in w.targets ==> w.targets[k.targetId] == k.input)
  {
    turns := CollectorRunsLoop(es, c);
    var k := Final(es).collectors[c];
    AfterSettles(k.initial, k.start, k.delayMs, k.timeoutMs, turns, |turns|);
    InvRun(es);
    assert CollectorOk(Final(es), c, k);
  }

  lemma ReadTimesOfReceive(es: seq<Event>, c: int, k: Collector, k': Collector, turns: seq<Turn>, turns': seq<Turn>)
    requires es != [] && ReadTimes(es[..|es| - 1], c, k, turns) && k.stage.Receiving? && !k'.stage.Receiving?
    requires |turns'| == |turns| + 1 && turns'[..|turns|] == turns && turns'[|turns|].now == k.stage.now
    ensures ReadTimes(es, c, k', turns')
  {
    ReadTimesGrow(es, c, k, k, turns);
    forall i | 0 <= i < |turns'| ensures ReadBy(es, c, turns'[i].now) {
      assert i < |turns| ==> turns'[i] == turns[i];
    }
  }

  // ---- messages are taken in order, once -------------------------------------------------------------

  /** The messages sent to a collector, in order. */
  ghost function SentTo(es: seq<Event>, c: int): seq<int>
    requires Runs(es)
  {
    if es == [] then []
    else
      var init, ev := es[..|es| - 1], es[|es| - 1];
      SentTo(init, c) +
      if ev.Send? && Final(init).producers[ev.p].progress.c == c && c in Final(init).collectors then [ev.m] else []
  }

  lemma TakenStep(w: World, ev: Event, c: int)
    requires Inv(w) && Enabled(w, ev) && c in w.collectors
    ensures c in Next(w, ev).collectors
    ensures var k, k' := w.collectors[c], Next(w, ev).collectors[c];
            k'.taken + k'.mailbox ==
            k.taken + k.mailbox + if ev.Send? && w.producers[ev.p].progress.c == c then [ev.m] else []
  {
    var k := w.collectors[c];
    assert k.mailbox + [] == k.mailbox && k.taken + k.mailbox + [] == k.taken + k.mailbox;
    match ev
    case Receive(d) => if c == d { TakenByReceive(w, c); }
    case Send(p, m) => TakenBySend(w, p, m, c);
    case _ => NoneTaken(w, ev, c);
  }

  lemma TakenByReceive(w: World, c: int)
    requires Inv(w) && Enabled(w, Receive(c))
    ensures c in DoReceive(w, c).collectors
    ensures var k, k' := w.collectors[c], DoReceive(w, c).collectors[c]; k'.taken + k'.mailbox == k.taken + k.mailbox
  {
    assert CollectorOk(w, c, w.collectors[c]);
    var k := w.collectors[c];
    assert k.mailbox == [k.mailbox[0]] + k.mailbox[1..];
  }

  lemma TakenBySend(w: World, p: int, m: int, c: int)
    requires Inv(w) && Enabled(w, Send(p, m)) && c in w.collectors
    ensures c in DoSend(w, p, m).collectors
    ensures var k, k' := w.collectors[c], DoSend(w, p, m).collectors[c];
            k'.taken == k.taken && k'.mailbox == k.mailbox + if w.producers[p].progress.c == c then [m] else []
  {
    assert ProducerOk(w, w.producers[p]);
  }

  lemma NoneTaken(w: World, ev: Event, c: int)
    requires Enabled(w, ev) && c in w.collectors && !ev.Receive? && !ev.Send?
    ensures c in Next(w, ev).collectors && Next(w, ev).collectors[c].taken == w.collectors[c].taken
    ensures Next(w, ev).collectors[c].mailbox == w.collectors[c].mailbox
  {
  }

  lemma NothingTaken(w: World, ev: Event, c: int)
    requires Enabled(w, ev) && c !in w.collectors && c in Next(w, ev).collectors
    ensures Next(w, ev).collectors[c].taken == [] && Next(w, ev).collectors[c].mailbox == [] && !ev.Send?
  {
  }

  /** In every run: what a collector has taken and what still waits for it are, in
      this order, the messages sent to it. */
  lemma {:induction false} TakenInOrder(es: seq<Event>, c: int)
    requires Runs(es)
    ensures c in Final(es).collectors ==> Final(es).collectors[c].taken + Final(es).collectors[c].mailbox == SentTo(es, c)
    ensures c !in Final(es).collectors ==> SentTo(es, c) == []
  {
    if es != [] {
      var init, ev := es[..|es| - 1], es[|es| - 1];
      InvRun(init);
      TakenInOrder(init, c);
      if c in Final(init).collectors { TakenStep(Final(init), ev, c); }
      else if c in Final(es).collectors { NothingTaken(Final(init), ev, c); }
    }
  }

  lemma {:induction false} SentAreMessages(es: seq<Event>, c: int)
    requires Runs(es)
    ensures forall i :: 0 <= i < |SentTo(es, c)| ==> SentTo(es, c)[i] in Final(es).msgs
    ensures forall i, j :: 0 <= i < j < |SentTo(es, c)| ==> SentTo(es, c)[i] != SentTo(es, c)[j]
  {
    if es != [] {
      var init, ev := es[..|es| - 1], es[|es| - 1];
      InvRun(init);
      SentAreMessages(init, c);
      forall m | m in Final(init).msgs ensures m in Final(es).msgs { MessagesStay(Final(init), ev, m); }
    }
  }

  /** So each message is taken at most once. */
  lemma TakenOnce(es: seq<Event>, c: int, i: nat, j: nat)
    requires Runs(es) && c in Final(es).collectors && i < j < |Final(es).collectors[c].taken|
    ensures Final(es).collectors[c].taken[i] != Final(es).collectors[c].taken[j]
  {
    TakenInOrder(es, c);
    SentAreMessages(es, c);
    var k := Final(es).collectors[c];
    assert (k.taken + k.mailbox)[i] == k.taken[i] && (k.taken + k.mailbox)[j] == k.taken[j];
  }

  // ---- what it all goes back to --------------------------------------------------------------------

  /** Producer `p` called with this input and delay at this time. */
  ghost predicate Called(es: seq<Event>, p: int, input: Value, delayMs: int, at: int) {
    exists q :: 0 <= q < |es| && es[q] == Call(p, input, delayMs, at)
  }

  lemma CalledStill(es: seq<Event>, p: int, input: Value, delayMs: int, at: int)
    requires es != [] && Called(es[..|es| - 1], p, input, delayMs, at)
    ensures Called(es, p, input, delayMs, at)
  {
    var q :| 0 <= q < |es| - 1 && es[..|es| - 1][q] == Call(p, input, delayMs, at);
    assert es[q] == Call(p, input, delayMs, at);
  }

  lemma ProducerStays(w: World, ev: Event, p: int)
    requires Enabled(w, ev) && p in Next(w, ev).producers
    ensures if p in w.producers then Next(w, ev).producers[p] == w.producers[p].(progress := Next(w, ev).producers[p].progress)
            else ev == Call(p, Next(w, ev).producers[p].input, Next(w, ev).producers[p].delayMs, Next(w, ev).producers[p].calledAt)
  {
  }

  /** In every run: a producer holds what it called with. */
  lemma {:induction false} ProducerCalled(es: seq<Event>, p: int)
    requires Runs(es) && p in Final(es).producers
    ensures var x := Final(es).producers[p]; Called(es, p, x.input, x.delayMs, x.calledAt)
  {
    var init := es[..|es| - 1];
    ProducerStays(Final(init), es[|es| - 1], p);
    if p in Final(init).producers {
      ProducerCalled(init, p);
      var x := Final(init).producers[p];
      CalledStill(es, p, x.input, x.delayMs, x.calledAt);
    } else {
      assert es[|es| - 1].Call?;
    }
  }

  lemma MessageStays(w: World, ev: Event, m: int)
    requires Inv(w) && Enabled(w, ev) && m in Next(w, ev).msgs
    ensures if m in w.msgs then Next(w, ev).msgs[m] == w.msgs[m]
            else ev.Send? && ev.p in w.producers
                 && Next(w, ev).msgs[m].input == w.producers[ev.p].input && Next(w, ev).msgs[m].delayMs == w.producers[ev.p].delayMs
  {
  }

  /** Every message carries the input and the delay of a call. */
  lemma {:induction false} MessageWasCalled(es: seq<Event>, m: int) returns (p: int, at: int)
    requires Runs(es) && m in Final(es).msgs
    ensures Called(es, p, Final(es).msgs[m].input, Final(es).msgs[m].delayMs, at)
  {
    var init, ev := es[..|es| - 1], es[|es| - 1];
    InvRun(init);
    MessageStays(Final(init), ev, m);
    if m in Final(init).msgs {
      p, at := MessageWasCalled(init, m);
    } else {
      p, at := ev.p, Final(init).producers[ev.p].calledAt;
      ProducerCalled(init, p);
    }
    CalledStill(es, p, Final(es).msgs[m].input, Final(es).msgs[m].delayMs, at);
  }

  lemma CollectorStays(w: World, ev: Event, c: int)
    requires Enabled(w, ev) && c in Next(w, ev).collectors
    ensures var k' := Next(w, ev).collectors[c];
            if c in w.collectors then
              var k := w.collectors[c];
              k'.initial == k.initial && k'.delayMs == k.delayMs && k'.timeoutMs == k.timeoutMs && k'.firstCall == k.firstCall
              && k'.targetId == k.targetId
            else
              && ev == Enqueue(ev.p, c, k'.targetId, k'.timeoutMs, ev.now) && ev.p in w.producers
              && k'.initial == w.producers[ev.p].input && k'.delayMs == w.producers[ev.p].delayMs
              && k'.firstCall == w.producers[ev.p].calledAt
  {
  }

  /** In every run: a collector goes back to the call of the producer that enqueued
      it, with that call's input, delay and time, under the target id and timeout it
      was enqueued with. */
  lemma {:induction false} CollectorWasCalled(es: seq<Event>, c: int) returns (p: int, n: nat)
    requires Runs(es) && c in Final(es).collectors
    ensures var k := Final(es).collectors[c];
            && Called(es, p, k.initial, k.delayMs, k.firstCall)
            && n < |es| && es[n].Enqueue? && es[n].p == p && es[n].c == c
            && es[n].target == k.targetId && es[n].timeoutMs == k.timeoutMs
  {
    var init, ev := es[..|es| - 1], es[|es| - 1];
    CollectorStays(Final(init), ev, c);
    var k := Final(es).collectors[c];
    if c in Final(init).collectors {
      p, n := CollectorWasCalled(init, c);
    } else {
      p, n := ev.p, |es| - 1;
      ProducerCalled(init, p);
    }
    CalledStill(es, p, k.initial, k.delayMs, k.firstCall);
  }

  /** The collector stopped waiting: it read a time at or past its target time, or
      nothing came. */
  ghost predicate StoppedWaiting(es: seq<Event>, c: int, targetMs: int) {
    exists m :: 0 <= m < |es| && (es[m] == TimeOut(c) || (es[m].ReadClock? && es[m].c == c && es[m].now >= targetMs))
  }

  lemma LaunchingFrom(w: World, ev: Event, c: int)
    requires Enabled(w, ev) && AtStage(Next(w, ev), c, Launching)
    ensures c in w.collectors && Next(w, ev).collectors[c].targetMs == w.collectors[c].targetMs
    ensures AtStage(w, c, Launching) || ev == TimeOut(c) || (ev.ReadClock? && ev.c == c && ev.now >= w.collectors[c].targetMs)
  {
  }

  /** In every run: a collector starts its target only after it has stopped waiting. */
  lemma {:induction false} LaunchesWhenDue(es: seq<Event>, c: int)
    requires Runs(es) && AtStage(Final(es), c, Launching)
    ensures StoppedWaiting(es, c, Final(es).collectors[c].targetMs)
  {
    var init, ev := es[..|es| - 1], es[|es| - 1];
    LaunchingFrom(Final(init), ev, c);
    if AtStage(Final(init), c, Launching) {
      LaunchesWhenDue(init, c);
      var m :| 0 <= m < |init| && (init[m] == TimeOut(c)
                 || (init[m].ReadClock? && init[m].c == c && init[m].now >= Final(init).collectors[c].targetMs));
      assert es[m] == init[m];
    } else {
      assert es[|es| - 1] == ev;
    }
  }

  // ---- the cap ------------------------------------------------------------------------------------

  /** The cap counts from the collector's start, not from the first call. In every
      run, a collector's target time is within the timeout of the first call if
      and only if it started without waiting, or the time asked for was. */
  lemma WithinTimeoutOfFirstCallIff(es: seq<Event>, c: int)
    requires Runs(es) && c in Final(es).collectors && Final(es).collectors[c].timeoutMs > 0
    ensures var k := Final(es).collectors[c];
            k.targetMs <= k.firstCall + k.timeoutMs <==> k.start <= k.firstCall || k.asked <= k.firstCall + k.timeoutMs
  {
    InvRun(es);
    assert CollectorOk(Final(es), c, Final(es).collectors[c]);
  }

  /** A run in which it is not: the collector waits `late` in its queue. */
  lemma LateStartExceedsCap(v: Value, delayMs: int, timeoutMs: int, target: Id, late: int) returns (es: seq<Event>)
    requires 0 < timeoutMs <= delayMs && late > 0
    ensures Runs(es) && 0 in Final(es).collectors
    ensures var k := Final(es).collectors[0];
            k.timeoutMs == timeoutMs && k.targetMs == k.firstCall + timeoutMs + late
  {
    es := [];
    es := ExtendRun(es, Call(0, v, delayMs, 0));
    es := ExtendRun(es, Enqueue(0, 0, target, timeoutMs, 0));
    es := ExtendRun(es, Begin(0, late));
  }

  lemma ExtendRun(es: seq<Event>, ev: Event) returns (es': seq<Event>)
    requires Runs(es) && Enabled(Final(es), ev)
    ensures Runs(es') && Final(es') == Next(Final(es), ev)
  {
    es' := es + [ev];
    assert es'[..|es|] == es;
  }
}
