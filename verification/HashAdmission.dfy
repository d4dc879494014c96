/**
 * Admission to password hashing: a semaphore in front of the blocking pool, and a
 * counted queue whose places are given back however a waiter leaves.
 */
module HashAdmission {
  type Task = nat

  datatype Limits = Limits(maxConcurrent: nat, maxQueued: nat)

  datatype Outcome = Hashed | Panicked | Saturated | QueueTimeout | Abandoned

  /**
   * Where a task stands. `Counted` to `Departing` hold a queue guard; `Granted`,
   * `Acquired` and `Running` hold a permit.
   */
  datatype Place =
    | Entering
    | Counted(position: nat)
    | Refusing(position: nat)
    | Waiting
    | Granted
    | Acquired
    | Departing(reason: Outcome)
    | Running
    | Done(outcome: Outcome)
  {
    predicate HoldsPermit() {
      Granted? || Acquired? || Running?
    }
    predicate HoldsGuard() {
      Counted? || Refusing? || Waiting? || Granted? || Acquired? || Departing?
    }
    /** Past the position check, or certain to pass it. */
    predicate Queued(maxQueued: nat) {
      (Counted? && position < maxQueued) || Waiting? || Granted? || Acquired? || Departing?
    }
  }

  /** Free permits, tasks waiting for one in order, the queue counter, and every task. */
  datatype Admission = Admission(available: nat, line: seq<Task>, queued: int, tasks: map<Task, Place>)

  datatype Event =
    | Arrive(task: Task)
    | Enter(task: Task)
    | Decide(task: Task)
    | Refuse(task: Task)
    | Poll(task: Task)
    | Expire(task: Task)
    | Abandon(task: Task)
    | Leave(task: Task)
    | Finish(task: Task, panics: bool)

  function Initial(limits: Limits): Admission {
    Admission(limits.maxConcurrent, [], 0, map[])
  }

  /** An event can happen only where its task stands ready for it. */
  predicate Enabled(s: Admission, e: Event) {
    match e
    case Arrive(t) => t !in s.tasks
    case Enter(t) => t in s.tasks && s.tasks[t].Entering?
    case Decide(t) => t in s.tasks && s.tasks[t].Counted?
    case Refuse(t) => t in s.tasks && s.tasks[t].Refusing?
    case Poll(t) => t in s.tasks && s.tasks[t].Granted?
    case Expire(t) => t in s.tasks && s.tasks[t].Waiting?
    case Abandon(t) => t in s.tasks && (s.tasks[t].Waiting? || s.tasks[t].Granted?)
    case Leave(t) => t in s.tasks && (s.tasks[t].Acquired? || s.tasks[t].Departing?)
    case Finish(t, _) => t in s.tasks && s.tasks[t].Running?
  }

  /** A returned permit goes to the head of the line, or back to the pool. */
  function Release(s: Admission): Admission {
    if s.line == [] then s.(available := s.available + 1)
    else s.(line := s.line[1..], tasks := s.tasks[s.line[0] := Granted])
  }

  function Without(line: seq<Task>, t: Task): seq<Task> {
    if line == [] then [] else if line[0] == t then line[1..] else [line[0]] + Without(line[1..], t)
  }

  function Step(limits: Limits, s: Admission, e: Event): Admission
    requires Enabled(s, e)
  {
    match e
    case Arrive(t) =>
      if s.available > 0 then s.(available := s.available - 1, tasks := s.tasks[t := Running])
      else s.(tasks := s.tasks[t := Entering])
    case Enter(t) =>
      s.(queued := s.queued + 1, tasks := s.tasks[t := Counted(if s.queued < 0 then 0 else s.queued)])
    case Decide(t) =>
      if s.tasks[t].position >= limits.maxQueued then s.(tasks := s.tasks[t := Refusing(s.tasks[t].position)])
      else if s.available > 0 then s.(available := s.available - 1, tasks := s.tasks[t := Acquired])
      else s.(line := s.line + [t], tasks := s.tasks[t := Waiting])
    case Refuse(t) => s.(queued := s.queued - 1, tasks := s.tasks[t := Done(Saturated)])
    case Poll(t) => s.(tasks := s.tasks[t := Acquired])
    case Expire(t) => s.(line := Without(s.line, t), tasks := s.tasks[t := Departing(QueueTimeout)])
    case Abandon(t) =>
      if s.tasks[t].Waiting? then s.(line := Without(s.line, t), tasks := s.tasks[t := Departing(Abandoned)])
      else Release(s.(tasks := s.tasks[t := Departing(Abandoned)]))
    case Leave(t) =>
      s.(queued := s.queued - 1,
         tasks := s.tasks[t := if s.tasks[t].Acquired? then Running else Done(s.tasks[t].reason)])
    case Finish(t, panics) => Release(s.(tasks := s.tasks[t := Done(if panics then Panicked else Hashed)]))
  }

  // ---- What every step keeps --------------------------------------------------------------------

  function Those(tasks: map<Task, Place>, p: Place -> bool): set<Task> {
    set t | t in tasks && p(tasks[t])
  }

  function PermitHolders(s: Admission): set<Task> {
    Those(s.tasks, (p: Place) => p.HoldsPermit())
  }

  function Guards(s: Admission): set<Task> {
    Those(s.tasks, (p: Place) => p.HoldsGuard())
  }

  function InQueue(limits: Limits, s: Admission): set<Task> {
    Those(s.tasks, (p: Place) => p.Queued(limits.maxQueued))
  }

  /** Permits are conserved, guards are counted, and the queue is bounded. */
  ghost predicate Sound(limits: Limits, s: Admission) {
    && s.available + |PermitHolders(s)| == limits.maxConcurrent
    && s.queued == |Guards(s)|
    && |InQueue(limits, s)| <= limits.maxQueued
    && Orderly(s)
  }

  /** The line is exactly the waiting tasks, once each, and forms only when no permit is free. */
  ghost predicate Orderly(s: Admission) {
    && (forall i, j :: 0 <= i < j < |s.line| ==> s.line[i] != s.line[j])
    && (forall t :: t in s.line <==> t in s.tasks && s.tasks[t].Waiting?)
    && (s.available > 0 ==> s.line == [])
  }

  /** Moving one task changes how many stand in a set of places by that task alone. */
  lemma MoveCounts(tasks: map<Task, Place>, t: Task, to: Place, p: Place -> bool)
    ensures |Those(tasks[t := to], p)|
         == |Those(tasks, p)| - (if t in tasks && p(tasks[t]) then 1 else 0) + (if p(to) then 1 else 0)
  {
    var others := set u | u in tasks && u != t && p(tasks[u]);
    assert Those(tasks, p) == if t in tasks && p(tasks[t]) then others + {t} else others;
    assert Those(tasks[t := to], p) == if p(to) then others + {t} else others;
  }

  lemma Move(limits: Limits, s: Admission, t: Task, to: Place)
    ensures var after := s.(tasks := s.tasks[t := to]);
            var from := if t in s.tasks then s.tasks[t] else Done(Hashed);
            && |PermitHolders(after)|
               == |PermitHolders(s)| - (if from.HoldsPermit() then 1 else 0) + (if to.HoldsPermit() then 1 else 0)
            && |Guards(after)|
               == |Guards(s)| - (if from.HoldsGuard() then 1 else 0) + (if to.HoldsGuard() then 1 else 0)
            && |InQueue(limits, after)| == |InQueue(limits, s)| - (if from.Queued(limits.maxQueued) then 1 else 0)
                                           + (if to.Queued(limits.maxQueued) then 1 else 0)
  {
    MoveCounts(s.tasks, t, to, (p: Place) => p.HoldsPermit());
    MoveCounts(s.tasks, t, to, (p: Place) => p.HoldsGuard());
    MoveCounts(s.tasks, t, to, (p: Place) => p.Queued(limits.maxQueued));
  }

  lemma {:induction false} WithoutRemoves(line: seq<Task>, t: Task)
    requires forall i, j :: 0 <= i < j < |line| ==> line[i] != line[j]
    ensures forall u :: u in Without(line, t) <==> u in line && u != t
    ensures forall i, j :: 0 <= i < j < |Without(line, t)| ==> Without(line, t)[i] != Without(line, t)[j]
  {
    if line != [] {
      WithoutRemoves(line[1..], t);
      if line[0] == t {
        assert forall u :: u in line <==> u == t || u in line[1..];
      } else {
        var rest := Without(line[1..], t);
        assert forall u :: u in line <==> u == line[0] || u in line[1..];
        assert line[0] !in line[1..];
      }
    }
  }

  lemma ReleaseSound(limits: Limits, s: Admission)
    requires s.available + |PermitHolders(s)| + 1 == limits.maxConcurrent
    requires s.queued == |Guards(s)| && |InQueue(limits, s)| <= limits.maxQueued && Orderly(s)
    ensures Sound(limits, Release(s))
  {
    if s.line != [] {
      var t := s.line[0];
      assert t in s.line;
      Move(limits, s, t, Granted);
      assert forall u :: u in s.line <==> u == t || u in s.line[1..];
      assert t !in s.line[1..];
    }
  }

  /** Those in the queue hold guards, so a newcomer's position is at least their number. */
  lemma QueueWithinGuards(limits: Limits, s: Admission)
    ensures |InQueue(limits, s)| <= |Guards(s)|
  {
    assert InQueue(limits, s) + (Guards(s) - InQueue(limits, s)) == Guards(s);
  }

  lemma ArriveEnterSound(limits: Limits, s: Admission, e: Event)
    requires Sound(limits, s) && Enabled(s, e) && (e.Arrive? || e.Enter?)
    ensures Sound(limits, Step(limits, s, e))
  {
    QueueWithinGuards(limits, s);
    if e.Arrive? {
      Move(limits, s, e.task, if s.available > 0 then Running else Entering);
    } else {
      Move(limits, s, e.task, Counted(if s.queued < 0 then 0 else s.queued));
    }
  }

  lemma DecideSound(limits: Limits, s: Admission, t: Task)
    requires Sound(limits, s) && Enabled(s, Decide(t))
    ensures Sound(limits, Step(limits, s, Decide(t)))
  {
    var after := Step(limits, s, Decide(t));
    Move(limits, s, t, after.tasks[t]);
    if after.tasks[t].Waiting? {
      assert t !in s.line;
      assert forall u :: u in after.line <==> u in s.line || u == t;
    }
  }

  lemma LeaveSound(limits: Limits, s: Admission, e: Event)
    requires Sound(limits, s) && Enabled(s, e) && (e.Refuse? || e.Poll? || e.Leave?)
    ensures Sound(limits, Step(limits, s, e))
  {
    Move(limits, s, e.task, Step(limits, s, e).tasks[e.task]);
  }

  lemma StopWaitingSound(limits: Limits, s: Admission, e: Event)
    requires Sound(limits, s) && Enabled(s, e) && (e.Expire? || e.Abandon?) && s.tasks[e.task].Waiting?
    ensures Sound(limits, Step(limits, s, e))
  {
    Move(limits, s, e.task, Step(limits, s, e).tasks[e.task]);
    WithoutRemoves(s.line, e.task);
  }

  lemma GiveBackSound(limits: Limits, s: Admission, e: Event)
    requires Sound(limits, s) && Enabled(s, e) && (e.Finish? || (e.Abandon? && s.tasks[e.task].Granted?))
    ensures Sound(limits, Step(limits, s, e))
  {
    var to := if e.Finish? then Done(if e.panics then Panicked else Hashed) else Departing(Abandoned);
    Move(limits, s, e.task, to);
    ReleaseSound(limits, s.(tasks := s.tasks[e.task := to]));
  }

  lemma StepSound(limits: Limits, s: Admission, e: Event)
    requires Sound(limits, s) && Enabled(s, e)
    ensures Sound(limits, Step(limits, s, e))
  {
    match e
    case Arrive(_) => ArriveEnterSound(limits, s, e);
    case Enter(_) => ArriveEnterSound(limits, s, e);
    case Decide(t) => DecideSound(limits, s, t);
    case Refuse(_) => LeaveSound(limits, s, e);
    case Poll(_) => LeaveSound(limits, s, e);
    case Expire(_) => StopWaitingSound(limits, s, e);
    case Abandon(t) => if s.tasks[t].Waiting? { StopWaitingSound(limits, s, e); } else { GiveBackSound(limits, s, e); }
    case Leave(_) => LeaveSound(limits, s, e);
    case Finish(_, _) => GiveBackSound(limits, s, e);
  }

  /** The state after any interleaving; events that are not ready do not happen. */
  function After(limits: Limits, events: seq<Event>): Admission {
    if events == [] then Initial(limits)
    else
      var n := |events| - 1;
      var s := After(limits, events[..n]);
      if Enabled(s, events[n]) then Step(limits, s, events[n]) else s
  }

  lemma {:induction false} AlwaysSound(limits: Limits, events: seq<Event>)
    ensures Sound(limits, After(limits, events))
  {
    if events != [] {
      var n := |events| - 1;
      AlwaysSound(limits, events[..n]);
      if Enabled(After(limits, events[..n]), events[n]) {
        StepSound(limits, After(limits, events[..n]), events[n]);
      }
    }
  }

  /**
   * Under every interleaving of arrivals, timeouts, abandoned futures and panics, no
   * more hashes run than there are permits, no more tasks wait than the queue has
   * places, and the counter is the number of live guards.
   */
  lemma Bounded(limits: Limits, events: seq<Event>)
    ensures var s := After(limits, events);
            && |Those(s.tasks, (p: Place) => p.Running?)| <= limits.maxConcurrent
            && |Those(s.tasks, (p: Place) => p.Waiting?)| <= limits.maxQueued
            && s.queued == |Guards(s)|
  {
    AlwaysSound(limits, events);
    var s := After(limits, events);
    var running, waiting := Those(s.tasks, (p: Place) => p.Running?), Those(s.tasks, (p: Place) => p.Waiting?);
    assert running + (PermitHolders(s) - running) == PermitHolders(s);
    assert waiting + (InQueue(limits, s) - waiting) == InQueue(limits, s);
  }

  lemma NobodyHolds(tasks: map<Task, Place>, p: Place -> bool)
    requires forall t :: t in tasks ==> !p(tasks[t])
    ensures Those(tasks, p) == {}
  {
  }

  lemma SomeoneFirst(line: seq<Task>)
    ensures line == [] || exists t :: t in line
  {
    if line != [] { assert line[0] in line; }
  }

  predicate AllDone(s: Admission) {
    forall t :: t in s.tasks ==> s.tasks[t].Done?
  }

  /** When every task is done, every permit and every queue place is back. */
  lemma NothingLeaks(limits: Limits, events: seq<Event>)
    requires AllDone(After(limits, events))
    ensures var s := After(limits, events);
            s.available == limits.maxConcurrent && s.queued == 0 && s.line == []
  {
    AlwaysSound(limits, events);
    var s := After(limits, events);
    NobodyHolds(s.tasks, (p: Place) => p.HoldsPermit());
    NobodyHolds(s.tasks, (p: Place) => p.HoldsGuard());
    SomeoneFirst(s.line);
  }

  /** Nobody waits while a permit is free. */
  lemma NoIdlePermit(limits: Limits, events: seq<Event>, t: Task)
    requires var s := After(limits, events);
             t in s.tasks && s.tasks[t].Waiting?
    ensures var s := After(limits, events);
            s.available == 0 && |PermitHolders(s)| == limits.maxConcurrent
  {
    AlwaysSound(limits, events);
    assert t in After(limits, events).line;
  }

  /** A task that is turned away found the queue's places all guarded when it counted itself. */
  lemma RefusedWhenFull(limits: Limits, events: seq<Event>, t: Task)
    requires Enabled(After(limits, events), Enter(t))
    ensures var s := After(limits, events);
            var counted := Step(limits, s, Enter(t));
            Step(limits, counted, Decide(t)).tasks[t].Refusing? <==> |Guards(s)| >= limits.maxQueued
  {
    AlwaysSound(limits, events);
  }

  // ---- The hasher's shared state, changed in place ------------------------------------------------

  class Hasher {
    const limits: Limits
    var available: nat
    var line: seq<Task>
    var queued: int
    var tasks: map<Task, Place>

    function View(): Admission
      reads this
    {
      Admission(available, line, queued, tasks)
    }

    constructor (limits: Limits)
      ensures this.limits == limits && View() == Initial(limits)
    {
      this.limits := limits;
      available, line, queued, tasks := limits.maxConcurrent, [], 0, map[];
    }

    method ReleasePermit()
      modifies this
      ensures View() == Release(old(View()))
    {
      if line == [] {
        available := available + 1;
      } else {
        tasks := tasks[line[0] := Granted];
        line := line[1..];
      }
    }

    /** Takes a task out of the line, keeping the others in order. */
    method StopWaiting(t: Task)
      modifies this`line
      ensures line == Without(old(line), t)
    {
      var i := 0;
      while i < |line| && line[i] != t
        invariant 0 <= i <= |line| && line == old(line)
        invariant Without(line, t) == line[..i] + Without(line[i..], t)
      {
        assert line[i..][0] == line[i] && line[i..][1..] == line[i + 1..];
        i := i + 1;
      }
      if i < |line| {
        assert line[i..][0] == t && line[i..][1..] == line[i + 1..];
        line := line[..i] + line[i + 1..];
      } else {
        assert line[..i] == line;
      }
    }

    /** The immediate slot of `admit`: a free permit, or on to the queue. */
    method TryAcquire(t: Task)
      requires Enabled(View(), Arrive(t))
      modifies this
      ensures View() == Step(limits, old(View()), Arrive(t))
    {
      if available > 0 {
        available := available - 1;
        tasks := tasks[t := Running];
      } else {
        tasks := tasks[t := Entering];
      }
    }

    /** `fetch_add`: the position is the counter before it. */
    method Count(t: Task)
      requires Enabled(View(), Enter(t)) && queued >= 0
      modifies this
      ensures View() == Step(limits, old(View()), Enter(t))
    {
      var position := queued;
      queued := queued + 1;
      tasks := tasks[t := Counted(position)];
    }

    method CheckPosition(t: Task)
      requires Enabled(View(), Decide(t))
      modifies this
      ensures View() == Step(limits, old(View()), Decide(t))
    {
      if tasks[t].position >= limits.maxQueued {
        tasks := tasks[t := Refusing(tasks[t].position)];
      } else if available > 0 {
        available := available - 1;
        tasks := tasks[t := Acquired];
      } else {
        line := line + [t];
        tasks := tasks[t := Waiting];
      }
    }

    /** Dropping a queue guard, on refusal, on admission, on timeout or when abandoned. */
    method DropGuard(t: Task)
      requires Enabled(View(), Refuse(t)) || Enabled(View(), Leave(t))
      modifies this
      ensures View() == Step(limits, old(View()), if old(tasks[t]).Refusing? then Refuse(t) else Leave(t))
    {
      queued := queued - 1;
      var next := match tasks[t] {
        case Refusing(_) => Done(Saturated)
        case Acquired => Running
        case Departing(reason) => Done(reason)
      };
      tasks := tasks[t := next];
    }

    method WaitExpires(t: Task)
      requires Enabled(View(), Expire(t))
      modifies this
      ensures View() == Step(limits, old(View()), Expire(t))
    {
      StopWaiting(t);
      tasks := tasks[t := Departing(QueueTimeout)];
    }

    /** The caller drops the future while it waits; a permit already granted goes back. */
    method DropFuture(t: Task)
      requires Enabled(View(), Abandon(t))
      modifies this
      ensures View() == Step(limits, old(View()), Abandon(t))
    {
      if tasks[t].Waiting? {
        StopWaiting(t);
        tasks := tasks[t := Departing(Abandoned)];
      } else {
        tasks := tasks[t := Departing(Abandoned)];
        ReleasePermit();
      }
    }

    method PollGranted(t: Task)
      requires Enabled(View(), Poll(t))
      modifies this
      ensures View() == Step(limits, old(View()), Poll(t))
    {
      tasks := tasks[t := Acquired];
    }

    /** The blocking task ends, by returning or by panic, and its permit is dropped. */
    method WorkEnds(t: Task, panics: bool)
      requires Enabled(View(), Finish(t, panics))
      modifies this
      ensures View() == Step(limits, old(View()), Finish(t, panics))
    {
      tasks := tasks[t := Done(if panics then Panicked else Hashed)];
      ReleasePermit();
    }
  }

  // ---- In what order, and with what outcome ----------------------------------------------------------

  predicate Ahead(line: seq<Task>, a: Task, b: Task) {
    exists i, j :: 0 <= i < j < |line| && line[i] == a && line[j] == b
  }

  lemma {:induction false} WithoutKeepsOrder(line: seq<Task>, t: Task, a: Task, b: Task)
    requires Ahead(line, a, b) && a != t && b != t
    ensures Ahead(Without(line, t), a, b)
  {
    var i, j :| 0 <= i < j < |line| && line[i] == a && line[j] == b;
    var left := Without(line, t);
    if line[0] == t {
      assert left[i - 1] == a && left[j - 1] == b;
    } else if i > 0 {
      assert line[1..][i - 1] == a && line[1..][j - 1] == b;
      WithoutKeepsOrder(line[1..], t, a, b);
      var k, l :| 0 <= k < l < |left[1..]| && left[1..][k] == a && left[1..][l] == b;
      assert left[k + 1] == a && left[l + 1] == b;
    } else {
      assert line[1..][j - 1] == b;
      WithoutHolds(line[1..], t, b);
      var l :| 0 <= l < |left[1..]| && left[1..][l] == b;
      assert left[0] == a && left[l + 1] == b;
    }
  }

  lemma {:induction false} WithoutHolds(line: seq<Task>, t: Task, b: Task)
    requires b in line && b != t
    ensures b in Without(line, t)
  {
    if line[0] != t && line[0] != b { WithoutHolds(line[1..], t, b); }
  }

  /** Permits go to the head of the line only, and those left in the line keep their order. */
  lemma FirstComeFirstServed(limits: Limits, events: seq<Event>, e: Event, a: Task, b: Task)
    requires Enabled(After(limits, events), e) && Ahead(After(limits, events).line, a, b)
    ensures var after := Step(limits, After(limits, events), e);
            && (b in after.tasks ==> !after.tasks[b].Granted?)
            && (a in after.line && b in after.line ==> Ahead(after.line, a, b))
  {
    AlwaysSound(limits, events);
    hide After, PermitHolders, Guards, InQueue, Without;
    var s := After(limits, events);
    var after := Step(limits, s, e);
    var i, j :| 0 <= i < j < |s.line| && s.line[i] == a && s.line[j] == b;
    assert s.line[j] in s.line;
    if e.Decide? {
      assert after.line == s.line || (after.line[i] == a && after.line[j] == b);
    } else if (e.Expire? || e.Abandon?) && s.tasks[e.task].Waiting? {
      WithoutRemoves(s.line, e.task);
      if a != e.task && b != e.task { WithoutKeepsOrder(s.line, e.task, a, b); }
    } else if e.Finish? || e.Abandon? {
      assert after.line == s.line[1..];
      if i > 0 { assert after.line[i - 1] == a && after.line[j - 1] == b; }
    }
  }

  /** The event took place in the run, where its task stood ready for it. */
  ghost predicate Happened(limits: Limits, events: seq<Event>, e: Event) {
    exists i :: 0 <= i < |events| && events[i] == e && Enabled(After(limits, events[..i]), e)
  }

  lemma HappenedStays(limits: Limits, events: seq<Event>, e: Event)
    requires events != [] && Happened(limits, events[..|events| - 1], e)
    ensures Happened(limits, events, e)
  {
    var front := events[..|events| - 1];
    var i :| 0 <= i < |front| && front[i] == e && Enabled(After(limits, front[..i]), e);
    assert events[i] == e && events[..i] == front[..i];
  }

  /** What each outcome tells of the events that led to it. */
  ghost predicate Explained(limits: Limits, events: seq<Event>, t: Task, place: Place) {
    match place
    case Departing(reason) =>
      if reason.QueueTimeout? then Happened(limits, events, Expire(t))
      else reason.Abandoned? && Happened(limits, events, Abandon(t))
    case Done(outcome) =>
      (match outcome
       case Hashed => Happened(limits, events, Finish(t, false))
       case Panicked => Happened(limits, events, Finish(t, true))
       case Saturated => Happened(limits, events, Refuse(t))
       case QueueTimeout => Happened(limits, events, Expire(t))
       case Abandoned => Happened(limits, events, Abandon(t)))
    case _ => true
  }

  /** A finished task's outcome is what happened to it: hashed, panicked, refused, timed out or abandoned. */
  lemma {:induction false} OutcomesMean(limits: Limits, events: seq<Event>, t: Task)
    requires t in After(limits, events).tasks
    ensures Explained(limits, events, t, After(limits, events).tasks[t])
  {
    if events != [] {
      hide Happened;
      var n := |events| - 1;
      var s, e := After(limits, events[..n]), events[n];
      AlwaysSound(limits, events[..n]);
      if t in s.tasks {
        OutcomesMean(limits, events[..n], t);
        ExplainedStays(limits, events, t, s.tasks[t]);
      }
      if Enabled(s, e) {
        assert Happened(limits, events, e) by { HappensLast(limits, events); }
        hide Sound;
      }
    }
  }

  lemma HappensLast(limits: Limits, events: seq<Event>)
    requires events != []
    requires Enabled(After(limits, events[..|events| - 1]), events[|events| - 1])
    ensures Happened(limits, events, events[|events| - 1])
  {
    assert events[|events| - 1] == events[|events| - 1];
  }

  lemma ExplainedStays(limits: Limits, events: seq<Event>, t: Task, place: Place)
    requires events != [] && Explained(limits, events[..|events| - 1], t, place)
    ensures Explained(limits, events, t, place)
  {
    var front := events[..|events| - 1];
    forall e | Happened(limits, front, e) ensures Happened(limits, events, e) { HappenedStays(limits, events, e); }
    hide Happened;
  }
}
