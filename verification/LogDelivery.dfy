/**
 * The log delivery queue: writers under one lock, a bounded channel, one worker that
 * writes and flushes, and a close that waits for it.
 */
module LogDelivery {
  import opened Results

  type Record = seq<int>

  /** Capacity is at least one, as the runtime's configuration demands. */
  datatype Limits = Limits(capacity: nat, maxBytes: nat, noop: bool)

  /** Where the worker stands: between records, with one in hand, having written it, or ending. */
  datatype Worker =
    | Receiving
    | Holding(record: Record)
    | Tallying(ok: bool)
    | Flushing
    | FlushTally(ok: bool)
    | Ending
    | Gone
    | Crashed

  datatype Counts = Counts(accepted: nat, written: nat, dropped: nat, failed: nat)

  /**
   * The sender is there until stopped; `counting` is a writer that has sent and still
   * holds the lock. The history: what was sent, what the worker finished with and how,
   * what the sink received, what a crash lost, how the flush went, other failures, how
   * many records were offered and how many dropped elsewhere.
   */
  datatype Delivery = Delivery(
    sending: bool, counting: bool, queue: seq<Record>, worker: Worker, done: bool, counts: Counts,
    sent: seq<Record>, handled: seq<Record>, results: seq<bool>, sink: seq<Record>, lost: seq<Record>,
    flushed: Option<bool>,
    otherFailures: nat, offered: nat, otherDrops: nat)

  datatype Step =
    | Write(record: Record)
    | CountAccepted
    | Stop
    | Receive
    | WriteOut(ok: bool)
    | Tally
    | EndLoop
    | Flush(ok: bool)
    | TallyFlush
    | SetDone
    | Panic
    | Fail
    | DropRecord

  function Initial(limits: Limits): Delivery {
    Delivery(!limits.noop, false, [], if limits.noop then Gone else Receiving, limits.noop, Counts(0, 0, 0, 0),
             [], [], [], [], [], None, 0, 0, 0)
  }

  predicate Alive(w: Worker) {
    !w.Crashed? && !w.Gone?
  }

  /** Writers and stop wait for the lock; the worker takes its steps in order. */
  predicate Enabled(d: Delivery, s: Step) {
    match s
    case Write(_) => !d.counting
    case CountAccepted => d.counting
    case Stop => !d.counting
    case Receive => d.worker.Receiving? && d.queue != []
    case WriteOut(_) => d.worker.Holding?
    case Tally => d.worker.Tallying?
    case EndLoop => d.worker.Receiving? && d.queue == [] && !d.sending
    case Flush(_) => d.worker.Flushing?
    case TallyFlush => d.worker.FlushTally?
    case SetDone => d.worker.Ending?
    case Panic => d.worker.Holding? || d.worker.Flushing?
    case Fail => true
    case DropRecord => true
  }

  function Dropped(d: Delivery): Delivery {
    d.(counts := d.counts.(dropped := d.counts.dropped + 1))
  }

  function Failed(d: Delivery): Delivery {
    d.(counts := d.counts.(failed := d.counts.failed + 1))
  }

  function Written(limits: Limits, d: Delivery, record: Record): Delivery {
    if limits.noop then d
    else
      var now := d.(offered := d.offered + 1);
      if |record| > limits.maxBytes then Dropped(now)
      else if d.sending && Alive(d.worker) && |d.queue| < limits.capacity
      then now.(queue := d.queue + [record], sent := d.sent + [record], counting := true)
      else Dropped(now)
  }

  function Next(limits: Limits, d: Delivery, s: Step): Delivery
    requires Enabled(d, s)
  {
    match s
    case Write(record) => Written(limits, d, record)
    case CountAccepted => d.(counting := false, counts := d.counts.(accepted := d.counts.accepted + 1))
    case Stop => d.(sending := false)
    case Receive => d.(worker := Holding(d.queue[0]), queue := d.queue[1..])
    case WriteOut(ok) =>
      d.(worker := Tallying(ok), handled := d.handled + [d.worker.record], results := d.results + [ok],
         sink := if ok then d.sink + [d.worker.record] else d.sink)
    case Tally =>
      if d.worker.ok then d.(worker := Receiving, counts := d.counts.(written := d.counts.written + 1))
      else Failed(d.(worker := Receiving))
    case EndLoop => d.(worker := Flushing)
    case Flush(ok) => d.(worker := FlushTally(ok), flushed := Some(ok))
    case TallyFlush => if d.worker.ok then d.(worker := Ending) else Failed(d.(worker := Ending))
    case SetDone => d.(worker := Gone, done := true)
    case Panic =>
      d.(worker := Crashed, lost := (if d.worker.Holding? then [d.worker.record] else []) + d.queue, queue := [])
    case Fail => Failed(d.(otherFailures := d.otherFailures + 1))
    case DropRecord => Dropped(d.(otherDrops := d.otherDrops + 1))
  }

  /**
   * A writer's record is sent exactly when it fits, the sink is open, its worker lives and
   * the channel has room; otherwise it is counted as dropped. A silent sink does neither.
   */
  lemma WritesExactly(limits: Limits, d: Delivery, record: Record)
    ensures var after := Written(limits, d, record);
            && (limits.noop ==> after == d)
            && (!limits.noop ==>
                  if |record| <= limits.maxBytes && d.sending && !d.worker.Crashed? && !d.worker.Gone?
                     && |d.queue| < limits.capacity
                  then
                    && after.queue == d.queue + [record] && after.sent == d.sent + [record]
                    && after.counts.dropped == d.counts.dropped
                  else
                    && after.queue == d.queue && after.sent == d.sent
                    && after.counts.dropped == d.counts.dropped + 1)
  {
  }

  /** What further steps make of a delivery; a step that is not ready does not happen. */
  function After(limits: Limits, d: Delivery, steps: seq<Step>): Delivery {
    if steps == [] then d
    else
      var n := |steps| - 1;
      var before := After(limits, d, steps[..n]);
      if Enabled(before, steps[n]) then Next(limits, before, steps[n]) else before
  }

  function Run(limits: Limits, steps: seq<Step>): Delivery {
    After(limits, Initial(limits), steps)
  }

  // ---- What every step keeps -------------------------------------------------------------------------------

  function InHand(w: Worker): seq<Record> {
    if w.Holding? then [w.record] else []
  }

  function CountOf(results: seq<bool>, ok: bool): nat {
    if results == [] then 0 else CountOf(results[..|results| - 1], ok) + if results[|results| - 1] == ok then 1 else 0
  }

  /** The records whose writes succeeded, in the order they were handled. */
  function Succeeded(handled: seq<Record>, results: seq<bool>): seq<Record>
    requires |handled| == |results|
  {
    if handled == [] then []
    else
      var n := |handled| - 1;
      Succeeded(handled[..n], results[..n]) + if results[n] then [handled[n]] else []
  }

  /** Nothing is out of place: sent is handled, lost, in hand and queued, in that order. */
  predicate InOrder(d: Delivery) {
    && d.sent == d.handled + d.lost + InHand(d.worker) + d.queue
    && |d.handled| == |d.results|
    && d.sink == Succeeded(d.handled, d.results)
    && (!d.worker.Crashed? ==> d.lost == [])
  }

  function FlushFailures(d: Delivery): nat {
    if d.flushed == Some(false) && !(d.worker.FlushTally? && !d.worker.ok) then 1 else 0
  }

  /** Every counter says what has happened, up to the step in progress. */
  predicate Counted(d: Delivery) {
    && d.counts.accepted + (if d.counting then 1 else 0) == |d.sent|
    && d.counts.dropped + |d.sent| == d.offered + d.otherDrops
    && d.counts.written + (if d.worker == Tallying(true) then 1 else 0) == CountOf(d.results, true)
    && d.counts.failed + (if d.worker == Tallying(false) then 1 else 0)
       == CountOf(d.results, false) + FlushFailures(d) + d.otherFailures
  }

  predicate Finishing(w: Worker) {
    w.Flushing? || w.FlushTally? || w.Ending? || w.Gone?
  }

  /** The worker ends only after the sender is gone and the queue is empty, and only then is done set. */
  predicate Ended(limits: Limits, d: Delivery) {
    && |d.queue| <= limits.capacity
    && (Finishing(d.worker) ==> !d.sending && d.queue == [])
    && (d.done <==> d.worker.Gone?)
    && (!limits.noop ==>
          && (d.worker.Flushing? || d.worker.Receiving? || d.worker.Holding? || d.worker.Tallying? ==> d.flushed.None?)
          && (d.worker.FlushTally? ==> d.flushed == Some(d.worker.ok))
          && (d.worker.Ending? || d.worker.Gone? ==> d.flushed.Some?))
    && (limits.noop ==> d.sent == [] && !d.sending && d.worker.Gone?)
  }

  predicate Sound(limits: Limits, d: Delivery) {
    InOrder(d) && Counted(d) && Ended(limits, d)
  }

  lemma OneMoreResult(results: seq<bool>, ok: bool)
    ensures CountOf(results + [ok], true) == CountOf(results, true) + if ok then 1 else 0
    ensures CountOf(results + [ok], false) == CountOf(results, false) + if ok then 0 else 1
  {
    assert (results + [ok])[..|results|] == results;
  }

  lemma OneMoreHandled(handled: seq<Record>, results: seq<bool>, record: Record, ok: bool)
    requires |handled| == |results|
    ensures Succeeded(handled + [record], results + [ok]) == Succeeded(handled, results) + if ok then [record] else []
  {
    assert (handled + [record])[..|handled|] == handled && (results + [ok])[..|handled|] == results;
  }

  /** Records only move along: from the queue to the hand, from the hand to the handled or the lost. */
  lemma Moves(handled: seq<Record>, record: Record, queue: seq<Record>)
    ensures handled + [] + [] + ([record] + queue) == handled + [] + [record] + queue
    ensures handled + [] + [record] + queue == (handled + [record]) + [] + [] + queue
    ensures handled + [] + [record] + queue == handled + ([record] + queue) + [] + []
    ensures handled + [] + [] + queue == handled + ([] + queue) + [] + []
  {
  }

  lemma MovingInOrder(limits: Limits, d: Delivery, s: Step)
    requires Sound(limits, d) && Enabled(d, s) && (s.WriteOut? || s.Receive? || s.Panic?)
    ensures InOrder(Next(limits, d, s))
  {
    hide Succeeded, Counted, CountOf;
    if s.WriteOut? {
      OneMoreHandled(d.handled, d.results, d.worker.record, s.ok);
      Moves(d.handled, d.worker.record, d.queue);
    } else if s.Receive? {
      assert d.queue == [d.queue[0]] + d.queue[1..];
      Moves(d.handled, d.queue[0], d.queue[1..]);
    } else {
      Moves(d.handled, if d.worker.Holding? then d.worker.record else [], d.queue);
    }
  }

  lemma StepInOrder(limits: Limits, d: Delivery, s: Step)
    requires Sound(limits, d) && Enabled(d, s)
    ensures InOrder(Next(limits, d, s))
  {
    if s.WriteOut? || s.Receive? || s.Panic? {
      MovingInOrder(limits, d, s);
    } else {
      hide Succeeded, Counted, CountOf;
    }
  }

  lemma StepCounted(limits: Limits, d: Delivery, s: Step)
    requires Sound(limits, d) && Enabled(d, s)
    ensures Counted(Next(limits, d, s))
  {
    hide Succeeded, CountOf, InOrder;
    if s.WriteOut? { OneMoreResult(d.results, s.ok); }
  }

  lemma StepEnding(limits: Limits, d: Delivery, s: Step)
    requires Sound(limits, d) && Enabled(d, s)
    ensures Ended(limits, Next(limits, d, s))
  {
    hide InOrder, Counted;
  }

  lemma {:induction false} RunSound(limits: Limits, steps: seq<Step>)
    ensures Sound(limits, Run(limits, steps))
  {
    if steps == [] {
      InitialSound(limits);
    } else {
      hide Sound, Enabled, Next, InOrder, Counted, Ended;
      var n := |steps| - 1;
      RunSound(limits, steps[..n]);
      var before := Run(limits, steps[..n]);
      if Enabled(before, steps[n]) {
        StepInOrder(limits, before, steps[n]);
        StepCounted(limits, before, steps[n]);
        StepEnding(limits, before, steps[n]);
        SoundFrom(limits, Next(limits, before, steps[n]));
      }
    }
  }

  lemma InitialSound(limits: Limits)
    ensures Sound(limits, Initial(limits))
  {
    hide CountOf, Succeeded, Counted, Ended;
    NoneCounted();
    InitialCounted(limits);
    assert InOrder(Initial(limits));
  }

  lemma InitialCounted(limits: Limits)
    ensures Counted(Initial(limits)) && Ended(limits, Initial(limits))
  {
    var d := Initial(limits);
    assert d.results == [] && d.sent == [] && d.flushed == None;
    NoneCounted();
    if limits.noop { assert d.worker == Gone; } else { assert d.worker == Receiving; }
  }

  lemma NoneCounted()
    ensures CountOf([], true) == 0 && CountOf([], false) == 0 && Succeeded([], []) == []
  {
  }

  lemma SoundFrom(limits: Limits, d: Delivery)
    requires InOrder(d) && Counted(d) && Ended(limits, d)
    ensures Sound(limits, d)
  {
  }

  /**
   * For every interleaving of writers, worker, stop and other failures: records sent are
   * those written, those that failed, those in hand and those queued, together with any a
   * crash lost; every record offered was sent or dropped and counted so; the queue is
   * within its capacity; and the sink has received the sent records, less the failures,
   * in the order they were sent.
   */
  lemma Conserved(limits: Limits, steps: seq<Step>)
    ensures var d := Run(limits, steps);
            && |d.sent|
               == CountOf(d.results, true) + CountOf(d.results, false) + |InHand(d.worker)| + |d.queue| + |d.lost|
            && |d.queue| <= limits.capacity
            && |d.sent| + d.counts.dropped == d.offered + d.otherDrops
            && |d.sent| == d.counts.accepted + (if d.counting then 1 else 0)
            && d.handled <= d.sent && |d.handled| == |d.results|
            && d.sink == Succeeded(d.handled, d.results)
  {
    RunSound(limits, steps);
    var d := Run(limits, steps);
    AllCounted(d.results);
    assert d.sent[..|d.handled|] == d.handled;
    hide Run, Succeeded, CountOf;
  }

  lemma {:induction false} AllCounted(results: seq<bool>)
    ensures CountOf(results, true) + CountOf(results, false) == |results|
  {
    if results != [] { AllCounted(results[..|results| - 1]); }
  }

  // ---- Closing ------------------------------------------------------------------------------------------------

  const TIMEOUT := "logger.flush_timeout"
  const SINK := "logger.sink"

  /** What `close` answers when it last looks, with or without time left. */
  function CloseReply(d: Delivery): Result<bool> {
    if !d.done then Err(TIMEOUT) else if d.counts.failed > 0 then Err(SINK) else Ok(true)
  }

  lemma {:induction false} NoFailures(handled: seq<Record>, results: seq<bool>)
    requires |handled| == |results| && CountOf(results, false) == 0
    ensures Succeeded(handled, results) == handled
  {
    if handled != [] {
      var n := |handled| - 1;
      NoFailures(handled[..n], results[..n]);
      assert handled == handled[..n] + [handled[n]];
    }
  }

  /**
   * A close that succeeds on an active sink means every record sent was written, in order,
   * none was lost, and the flush succeeded; any failure anywhere makes it fail.
   */
  lemma CloseMeansWritten(limits: Limits, steps: seq<Step>)
    requires !limits.noop && CloseReply(Run(limits, steps)).Ok?
    ensures var d := Run(limits, steps);
            && d.sink == d.sent && d.lost == [] && d.queue == [] && d.flushed == Some(true)
            && d.counts.written == |d.sent| && !d.sending
  {
    RunSound(limits, steps);
    var d := Run(limits, steps);
    var flushed := d.flushed.value;
    assert d.flushed == Some(flushed);
    NoFailures(d.handled, d.results);
    AllCounted(d.results);
    hide Run, Succeeded, CountOf;
  }

  /** Conversely, once done, a close fails exactly if a write, the flush or another step had failed. */
  lemma CloseFailsOnlyOnFailure(limits: Limits, steps: seq<Step>)
    requires Run(limits, steps).done
    ensures var d := Run(limits, steps);
            CloseReply(d) == Err(SINK)
            <==> CountOf(d.results, false) > 0 || d.flushed == Some(false) || d.otherFailures > 0
  {
    RunSound(limits, steps);
    hide Run, Succeeded, CountOf;
  }

  /** After a crash no close succeeds: done is never set. */
  lemma {:induction false} CrashedStays(limits: Limits, d: Delivery, steps: seq<Step>)
    requires d.worker.Crashed? && !d.done
    ensures After(limits, d, steps).worker.Crashed? && !After(limits, d, steps).done
  {
    if steps != [] {
      CrashedStays(limits, d, steps[..|steps| - 1]);
    }
  }

  /** What a close answers, in this order: not done in time, something failed, or nothing. */
  lemma ClosesExactly(d: Delivery)
    ensures CloseReply(d) == if !d.done then Err("logger.flush_timeout")
                             else if d.counts.failed >= 1 then Err("logger.sink") else Ok(true)
  {
  }

  /** The worker may be lost while it writes or flushes, and with it what it holds and what is queued. */
  lemma PanicLoses(limits: Limits, d: Delivery)
    ensures Enabled(d, Panic) <==> d.worker.Holding? || d.worker.Flushing?
    ensures Enabled(d, Panic) ==>
              var after := Next(limits, d, Panic);
              && after.lost == (if d.worker.Holding? then [d.worker.record] + d.queue else d.queue)
              && after.queue == [] && after.worker == Crashed && after.counts == d.counts && after.sink == d.sink
  {
  }

  /** Once stopped, nothing more is sent, whatever else happens; what was queued is not touched by stopping. */
  lemma {:induction false} StoppedStays(limits: Limits, d: Delivery, steps: seq<Step>)
    requires Enabled(d, Stop)
    ensures var stopped := Next(limits, d, Stop);
            var after := After(limits, stopped, steps);
            && stopped == d.(sending := false)
            && !after.sending && after.sent == d.sent
  {
    if steps != [] {
      StoppedStays(limits, d, steps[..|steps| - 1]);
    }
  }

  lemma {:induction false} AfterCons(limits: Limits, d: Delivery, s: Step, rest: seq<Step>)
    requires Enabled(d, s)
    ensures After(limits, d, [s] + rest) == After(limits, Next(limits, d, s), rest)
  {
    hide Enabled, Next;
    if rest == [] {
      assert [s][..0] == [] && [s] + rest == [s];
    } else {
      var n := |rest| - 1;
      AfterCons(limits, d, s, rest[..n]);
      assert ([s] + rest)[..n + 1] == [s] + rest[..n];
    }
  }

  function Ahead(w: Worker): nat {
    match w
    case Holding(_) => 5
    case Tallying(_) => 4
    case Receiving => 3
    case Flushing => 2
    case FlushTally(_) => 1
    case _ => 0
  }

  /** The worker is done after these steps, and has written what it had in hand and in the queue. */
  predicate Finishes(limits: Limits, d: Delivery, steps: seq<Step>) {
    var after := After(limits, d, steps);
    && after.done && after.sent == d.sent && after.lost == d.lost
    && after.sink == d.sink + InHand(d.worker) + d.queue && after.otherFailures == d.otherFailures
  }

  function NextOf(d: Delivery): Step {
    match d.worker
    case Receiving => if d.queue != [] then Receive else EndLoop
    case Holding(_) => WriteOut(true)
    case Tallying(_) => Tally
    case Flushing => Flush(true)
    case FlushTally(_) => TallyFlush
    case _ => SetDone
  }

  lemma StepsOn(limits: Limits, d: Delivery)
    requires Alive(d.worker) && !d.sending && (Finishing(d.worker) ==> d.queue == [])
    ensures Enabled(d, NextOf(d))
    ensures var next := Next(limits, d, NextOf(d));
            && next.sent == d.sent && next.lost == d.lost && next.otherFailures == d.otherFailures
            && next.sink + InHand(next.worker) + next.queue == d.sink + InHand(d.worker) + d.queue
            && (d.worker.Ending? ==> next.done && next.sink == d.sink && d.queue == [] && InHand(d.worker) == [])
            && (!d.worker.Ending? ==>
                  && Alive(next.worker) && !next.sending && (Finishing(next.worker) ==> next.queue == [])
                  && 3 * |next.queue| + Ahead(next.worker) < 3 * |d.queue| + Ahead(d.worker))
  {
  }

  lemma {:induction false} CanFinish(limits: Limits, d: Delivery)
    requires Alive(d.worker) && !d.sending && (Finishing(d.worker) ==> d.queue == [])
    ensures exists steps :: Finishes(limits, d, steps)
    decreases 3 * |d.queue| + Ahead(d.worker)
  {
    StepsOn(limits, d);
    var s := NextOf(d);
    var next := Next(limits, d, s);
    hide Next, Enabled, NextOf, Ahead, InHand;
    if d.worker.Ending? {
      assert After(limits, d, [s]) == next by { AfterCons(limits, d, s, []); }
      assert Finishes(limits, d, [s]);
    } else {
      CanFinish(limits, next);
      var rest :| Finishes(limits, next, rest);
      AfterCons(limits, d, s, rest);
      assert Finishes(limits, d, [s] + rest);
    }
  }

  /** From any reachable state, a living worker whose sender is gone can finish without anybody's help. */
  lemma StoppedFinishes(limits: Limits, steps: seq<Step>)
    requires Alive(Run(limits, steps).worker) && !Run(limits, steps).sending
    ensures exists more :: Finishes(limits, Run(limits, steps), more)
  {
    RunSound(limits, steps);
    CanFinish(limits, Run(limits, steps));
    hide Run, InOrder, Counted, Finishes;
  }

  // ---- The delivery, changed in place --------------------------------------------------------------------------

  class Pipe {
    const limits: Limits
    var sending: bool
    var counting: bool
    var queue: seq<Record>
    var worker: Worker
    var done: bool
    var counts: Counts
    ghost var sent: seq<Record>
    ghost var handled: seq<Record>
    ghost var results: seq<bool>
    ghost var sink: seq<Record>
    ghost var lost: seq<Record>
    ghost var flushed: Option<bool>
    ghost var otherFailures: nat
    ghost var offered: nat
    ghost var otherDrops: nat

    ghost function View(): Delivery
      reads this
    {
      Delivery(sending, counting, queue, worker, done, counts, sent, handled, results, sink, lost, flushed,
               otherFailures, offered, otherDrops)
    }

    constructor (limits: Limits)
      ensures this.limits == limits && View() == Initial(limits)
    {
      this.limits := limits;
      sending, counting, queue, done := !limits.noop, false, [], limits.noop;
      worker := if limits.noop then Gone else Receiving;
      counts := Counts(0, 0, 0, 0);
      sent, handled, results, sink, lost, flushed := [], [], [], [], [], None;
      otherFailures, offered, otherDrops := 0, 0, 0;
    }

    /** Under the lock: oversized, refused by a full or closed channel, or sent and yet to be counted. */
    method TrySend(record: Record)
      requires !counting
      modifies this
      ensures View() == Next(limits, old(View()), Write(record))
    {
      if limits.noop { return; }
      offered := offered + 1;
      if |record| > limits.maxBytes {
        counts := counts.(dropped := counts.dropped + 1);
        return;
      }
      if sending && Alive(worker) && |queue| < limits.capacity {
        queue := queue + [record];
        sent := sent + [record];
        counting := true;
      } else {
        counts := counts.(dropped := counts.dropped + 1);
      }
    }

    method Accept()
      requires counting
      modifies this
      ensures View() == Next(limits, old(View()), CountAccepted)
    {
      counts := counts.(accepted := counts.accepted + 1);
      counting := false;
    }

    method StopSending()
      requires !counting
      modifies this
      ensures View() == Next(limits, old(View()), Stop)
    {
      sending := false;
    }

    method Close(outOfTime: bool) returns (r: Result<bool>)
      requires !done ==> outOfTime
      ensures r == CloseReply(View())
    {
      if !done { return Err(TIMEOUT); }
      if counts.failed > 0 { return Err(SINK); }
      return Ok(true);
    }

    method ReceiveOne()
      requires Enabled(View(), Receive)
      modifies this
      ensures View() == Next(limits, old(View()), Receive)
    {
      queue, worker := queue[1..], Holding(queue[0]);
    }

    method WriteHeld(ok: bool)
      requires Enabled(View(), WriteOut(ok))
      modifies this
      ensures View() == Next(limits, old(View()), WriteOut(ok))
    {
      handled, results := handled + [worker.record], results + [ok];
      if ok { sink := sink + [worker.record]; }
      worker := Tallying(ok);
    }

    method TallyOne()
      requires Enabled(View(), Tally)
      modifies this
      ensures View() == Next(limits, old(View()), Tally)
    {
      if worker.ok {
        counts := counts.(written := counts.written + 1);
      } else {
        counts := counts.(failed := counts.failed + 1);
      }
      worker := Receiving;
    }

    lemma StepSound(d: Delivery, s: Step)
      requires Sound(limits, d) && Enabled(d, s)
      ensures Sound(limits, Next(limits, d, s))
    {
      StepInOrder(limits, d, s);
      StepCounted(limits, d, s);
      StepEnding(limits, d, s);
      SoundFrom(limits, Next(limits, d, s));
    }

    /** One turn of the worker's loop: the first queued record is written and tallied. */
    method HandleOne(ok: bool)
      requires worker.Receiving? && queue != [] && Sound(limits, View())
      modifies this
      ensures Sound(limits, View()) && worker.Receiving? && queue == old(queue)[1..]
      ensures handled == old(handled) + [old(queue)[0]] && results == old(results) + [ok]
      ensures sent == old(sent) && sending == old(sending) && otherFailures == old(otherFailures)
    {
      hide Sound;
      StepSound(View(), Receive);
      ReceiveOne();
      StepSound(View(), WriteOut(ok));
      WriteHeld(ok);
      StepSound(View(), Tally);
      TallyOne();
    }

    /** After the loop: flush, and done. */
    method Finish(flushOk: bool)
      requires worker.Receiving? && queue == [] && !sending && Sound(limits, View())
      modifies this
      ensures Sound(limits, View()) && done && queue == [] && flushed == Some(flushOk)
      ensures handled == old(handled) && results == old(results)
      ensures sent == old(sent) && sending == old(sending) && otherFailures == old(otherFailures)
    {
      hide Sound;
      StepSound(View(), EndLoop);
      LeaveLoop();
      StepSound(View(), Flush(flushOk));
      FlushSink(flushOk);
      StepSound(View(), TallyFlush);
      TallyFlushed();
      StepSound(View(), SetDone);
      Depart();
    }

    method LeaveLoop()
      requires worker.Receiving? && queue == [] && !sending
      modifies this
      ensures View() == Next(limits, old(View()), EndLoop)
    {
      worker := Flushing;
    }

    method Depart()
      requires worker.Ending?
      modifies this
      ensures View() == Next(limits, old(View()), SetDone)
    {
      done, worker := true, Gone;
    }

    method FlushSink(ok: bool)
      requires worker.Flushing?
      modifies this
      ensures View() == Next(limits, old(View()), Flush(ok))
    {
      flushed, worker := Some(ok), FlushTally(ok);
    }

    method TallyFlushed()
      requires worker.FlushTally?
      modifies this
      ensures View() == Next(limits, old(View()), TallyFlush)
    {
      if !worker.ok { counts := counts.(failed := counts.failed + 1); }
      worker := Ending;
    }

    /** The worker once the sender is gone: every queued record is written in turn, then the sink is flushed. */
    method Drain(writes: nat -> bool, flushOk: bool)
      requires worker.Receiving? && !sending && Sound(limits, View())
      modifies this
      ensures Sound(limits, View()) && done && queue == [] && flushed == Some(flushOk)
      ensures handled == old(handled) + old(queue)
      ensures results == old(results) + seq(|old(queue)|, i requires 0 <= i < |old(queue)| => writes(i))
      ensures sent == old(sent) && !sending && otherFailures == old(otherFailures)
    {
      hide Sound;
      var n := 0;
      ghost var before := queue;
      while queue != []
        invariant worker.Receiving? && !sending && Sound(limits, View()) && n <= |before|
        invariant queue == before[n..] && handled == old(handled) + before[..n]
        invariant results == old(results) + seq(n, i requires 0 <= i < n => writes(i))
        invariant sent == old(sent) && otherFailures == old(otherFailures)
        decreases |queue|
      {
        HandleOne(writes(n));
        n := n + 1;
        assert before[..n] == before[..n - 1] + [before[n - 1]];
        assert seq(n, i requires 0 <= i < n => writes(i))
               == seq(n - 1, i requires 0 <= i < n - 1 => writes(i)) + [writes(n - 1)];
      }
      Finish(flushOk);
      assert before[..n] == before;
    }
  }
}
