/** What stop() guarantees about the dispatcher: a bound on further work, and completion. */
module EventLoopShutdown {
  import opened Wrappers
  import opened EventHandler
  import opened EventLoop

  /** Emitters that passed the started check and may still push. */
  function Committed(s: State): set<Emitter> {
    set who | who in s.emitters && !s.emitters[who].OwesNotify?
  }

  function Pending(s: State): nat {
    |s.shared.queue| + |Committed(s)|
  }

  function Begun(s: State): nat {
    |s.executed| + |InProgress(s)|
  }

  ghost predicate NoRestart(steps: seq<Action>) {
    StartExchange !in steps
  }

  lemma CommittedAfter(s: State, a: Action)
    requires Enabled(s, a) && !s.shared.started
    ensures Committed(Next(s, a)) ==
      if a.LockedPush? || (a.Capture? && s.emitters[a.who].event.Kind() !in s.shared.callbacks)
      then Committed(s) - {a.who} else Committed(s)
    ensures (a.LockedPush? || a.Capture?) ==> a.who in Committed(s)
  {
  }

  lemma PendingShrinks(s: State, a: Action)
    requires WakeupInvariant(s) && Enabled(s, a) && !s.shared.started && a != StartExchange
    ensures var t := Next(s, a);
            && !t.shared.started
            && Begun(t) + Pending(t) <= Begun(s) + Pending(s)
            && Pending(t) <= Pending(s)
            && (a.Drain? && s.shared.queue != [] ==> Pending(t) == Pending(s) - 1)
  {
    CommittedAfter(s, a);
  }

  lemma {:induction false} BudgetRun(s: State, steps: seq<Action>)
    requires WakeupInvariant(s) && IsRun(s, steps) && !s.shared.started && NoRestart(steps)
    ensures Begun(After(s, steps)) + Pending(After(s, steps)) <= Begun(s) + Pending(s)
    decreases |steps|
  {
    if steps != [] {
      PendingShrinks(s, steps[0]);
      WakeupStep(s, steps[0]);
      BudgetRun(Next(s, steps[0]), steps[1..]);
    }
  }

  /**
   * After stop has cleared the flag, and until a restart, the dispatcher completes at most the running
   * task, the queued ones, and one for each emitter already past its check. Pushes made inside
   * callbacks are included.
   */
  lemma BoundedTasksAfterStop(before: seq<Action>, steps: seq<Action>)
    requires IsRun(INITIAL, before) && !After(INITIAL, before).shared.started
    requires IsRun(After(INITIAL, before), steps) && NoRestart(steps)
    ensures var s := After(INITIAL, before);
            |After(s, steps).executed| <= |s.executed| + |InProgress(s)| + |s.shared.queue| + |Committed(s)|
  {
    WakeupRun(INITIAL, before);
    BudgetRun(After(INITIAL, before), steps);
  }

  /** One step after a run. */
  lemma {:induction false} OneMoreStep(s: State, steps: seq<Action>, a: Action)
    requires IsRun(s, steps) && Enabled(After(s, steps), a)
    ensures IsRun(s, steps + [a]) && After(s, steps + [a]) == Next(After(s, steps), a)
    decreases |steps|
  {
    if steps == [] {
      assert [] + [a] == [a] && [a][1..] == [];
    } else {
      OneMoreStep(Next(s, steps[0]), steps[1..], a);
      assert (steps + [a])[1..] == steps[1..] + [a];
    }
  }

  lemma EmitterPastItsCheck(task: Task) returns (steps: seq<Action>)
    requires task.event.Kind() == UpdateKind
    ensures IsRun(INITIAL, steps)
    ensures After(INITIAL, steps) == State(
      Shared(true, [], map[UpdateKind := task.callback]), Idle, TestingStarted,
      map[Application(0) := Captured(task)], [], [], [], 0, {(UpdateKind, task.callback)})
  {
    steps := [];
    OneMoreStep(INITIAL, steps, SetCallback(UpdateKind, Some(task.callback)));
    steps := steps + [SetCallback(UpdateKind, Some(task.callback))];
    OneMoreStep(INITIAL, steps, StartExchange);
    steps := steps + [StartExchange];
    OneMoreStep(INITIAL, steps, Spawn);
    steps := steps + [Spawn];
    OneMoreStep(INITIAL, steps, CheckStarted(Application(0), task.event));
    steps := steps + [CheckStarted(Application(0), task.event)];
    OneMoreStep(INITIAL, steps, Capture(Application(0)));
    steps := steps + [Capture(Application(0))];
  }

  /** The queue need not be empty after stop: an emitter past its check pushes behind the swap. */
  lemma QueueMayOutliveStop(task: Task) returns (steps: seq<Action>)
    requires task.event.Kind() == UpdateKind
    ensures IsRun(INITIAL, steps)
    ensures var s := After(INITIAL, steps); s.shared.queue == [task] && s.control.Idle? && !s.shared.started
  {
    steps := EmitterPastItsCheck(task);
    OneMoreStep(INITIAL, steps, StopExchange);
    steps := steps + [StopExchange];
    OneMoreStep(INITIAL, steps, DropQueue);
    steps := steps + [DropQueue];
    OneMoreStep(INITIAL, steps, NotifyAll);
    steps := steps + [NotifyAll];
    OneMoreStep(INITIAL, steps, TestStarted);
    steps := steps + [TestStarted];
    OneMoreStep(INITIAL, steps, Join);
    steps := steps + [Join];
    OneMoreStep(INITIAL, steps, LockedPush(Application(0)));
    steps := steps + [LockedPush(Application(0))];
  }

  /** stop() has returned and left nothing to do. */
  ghost predicate Quiescent(s: State) {
    WakeupInvariant(s) && s.control.Idle? && !s.shared.started && s.shared.queue == []
  }

  ghost predicate CanFill(s: State, steps: seq<Action>) {
    IsRun(s, steps) && NoRestart(steps) && After(s, steps).shared.queue != []
  }

  lemma {:induction false} QueueIsBounded(s: State, steps: seq<Action>)
    requires WakeupInvariant(s) && IsRun(s, steps) && !s.shared.started && NoRestart(steps)
    ensures |After(s, steps).shared.queue| <= Pending(s)
    decreases |steps|
  {
    if steps != [] {
      PendingShrinks(s, steps[0]);
      WakeupStep(s, steps[0]);
      QueueIsBounded(Next(s, steps[0]), steps[1..]);
    }
  }

  /** A committed emitter pushes its task, if need be after a callback for its event was registered. */
  lemma CommittedMayPush(s: State, who: Emitter) returns (steps: seq<Action>)
    requires Quiescent(s) && who in Committed(s)
    ensures CanFill(s, steps)
  {
    steps := [];
    if s.emitters[who].PastCheck? {
      var register := SetCallback(s.emitters[who].event.Kind(), Some(0));
      OneMoreStep(s, steps, register);
      steps := steps + [register];
      OneMoreStep(s, steps, Capture(who));
      steps := steps + [Capture(who)];
    }
    OneMoreStep(s, steps, LockedPush(who));
    steps := steps + [LockedPush(who)];
  }

  /**
   * Exactly when the queue stays empty after stop: in every reachable state in which stop() has returned
   * and the queue is empty, some run without a restart leaves a task in it if and only if an emitter is
   * still past its check; and no run leaves more tasks than there are such emitters.
   */
  lemma QueueFillsAfterStopIff(before: seq<Action>)
    requires IsRun(INITIAL, before)
    requires var s := After(INITIAL, before); s.control.Idle? && !s.shared.started && s.shared.queue == []
    ensures var s := After(INITIAL, before);
            && ((exists steps :: CanFill(s, steps)) <==> Committed(s) != {})
            && (forall steps :: IsRun(s, steps) && NoRestart(steps) ==>
                  |After(s, steps).shared.queue| <= |Committed(s)|)
  {
    WakeupRun(INITIAL, before);
    var s := After(INITIAL, before);
    forall steps | IsRun(s, steps) && NoRestart(steps) ensures |After(s, steps).shared.queue| <= |Committed(s)| {
      QueueIsBounded(s, steps);
    }
    if who :| who in Committed(s) {
      var steps := CommittedMayPush(s, who);
      assert CanFill(s, steps);
    }
  }

  // ---- stop completes ----

  predicate Stopping(s: State) {
    s.control.Dropping? || s.control.Notifying? || s.control.Joining?
  }

  function DispatcherRank(d: DispatcherPc): nat {
    match d
    case Absent => 0
    case Exited => 0
    case TestingStarted => 1
    case Draining => 2
    case Relocking => 3
    case Evaluating => 3
    case Locking => 4
    case Running(_) => 4
    case Blocked => 5
    case AboutToBlock => 6
  }

  function ControlRank(c: ControlPc): nat {
    match c
    case Dropping => 3
    case Notifying => 2
    case Joining => 1
    case _ => 0
  }

  function CallbackRank(s: State): nat {
    if Callback !in s.emitters then 0
    else
      match s.emitters[Callback]
      case PastCheck(_) => 3
      case Captured(_) => 2
      case OwesNotify => 1
  }

  function Work(s: State): nat {
    10 * Pending(s) + DispatcherRank(s.dispatcher) + ControlRank(s.control) + CallbackRank(s)
  }

  /** The steps of the dispatcher, of the callback it runs, and of the stopping thread. */
  predicate Essential(s: State, a: Action) {
    match a
    case DropQueue => true
    case NotifyAll => true
    case Join => true
    case Capture(who) => who.Callback?
    case LockedPush(who) => who.Callback?
    case NotifyOne(who) => who.Callback?
    case SetCallback(_, _) => false
    case StartExchange => false
    case Spawn => false
    case StopExchange => false
    case CheckStarted(_, _) => false
    case _ => true
  }

  predicate OfDispatcher(a: Action) {
    a.TestStarted? || a.Lock? || a.EvaluatePredicate? || a.Block? || a.WakeSpuriously?
    || a.Drain? || a.FinishTask? || a.Relock?
  }

  lemma DispatcherUsesWork(s: State, a: Action)
    requires WakeupInvariant(s) && Stopping(s) && Enabled(s, a) && OfDispatcher(a)
    ensures var t := Next(s, a); Work(t) < Work(s) && t.control == s.control
  {
    PendingShrinks(s, a);
    var t := Next(s, a);
    assert t.emitters == s.emitters && t.control == s.control && CallbackRank(t) == CallbackRank(s);
    if !a.Drain? {
      assert Pending(t) == Pending(s) && DispatcherRank(t.dispatcher) < DispatcherRank(s.dispatcher);
    }
  }

  lemma OthersUseWork(s: State, a: Action)
    requires WakeupInvariant(s) && Stopping(s) && Enabled(s, a) && !OfDispatcher(a)
    ensures var t := Next(s, a);
            && Work(t) <= Work(s)
            && (Essential(s, a) ==> Work(t) < Work(s))
            && (Stopping(t) || a.Join?)
  {
    if a.LockedPush? || a.Capture? || a.NotifyOne? || a.CheckStarted? {
      EmittersUseWork(s, a);
    } else {
      PendingShrinks(s, a);
      var t := Next(s, a);
      assert t.emitters == s.emitters && CallbackRank(t) == CallbackRank(s);
    }
  }

  lemma EmittersUseWork(s: State, a: Action)
    requires WakeupInvariant(s) && Stopping(s) && Enabled(s, a)
    requires a.LockedPush? || a.Capture? || a.NotifyOne? || a.CheckStarted?
    ensures var t := Next(s, a);
            && Work(t) <= Work(s) && (Essential(s, a) ==> Work(t) < Work(s)) && t.control == s.control
  {
    CommittedAfter(s, a);
    PendingShrinks(s, a);
    var t := Next(s, a);
    assert DispatcherRank(t.dispatcher) <= DispatcherRank(s.dispatcher);
    if a.who.Application? {
      assert CallbackRank(t) == CallbackRank(s);
    }
  }

  /** While stopping, nothing adds work, and every essential step uses some up. */
  lemma WorkShrinks(s: State, a: Action)
    requires WakeupInvariant(s) && Stopping(s) && Enabled(s, a)
    ensures Work(Next(s, a)) <= Work(s)
    ensures Essential(s, a) ==> Work(Next(s, a)) < Work(s)
    ensures Stopping(Next(s, a)) || a.Join?
  {
    PendingShrinks(s, a);
    if OfDispatcher(a) {
      DispatcherUsesWork(s, a);
    } else {
      OthersUseWork(s, a);
    }
  }

  function NextEssential(s: State): Action {
    if s.control.Notifying? then NotifyAll
    else if s.control.Dropping? && !HoldsLock(s.dispatcher) then DropQueue
    else
      match s.dispatcher
      case TestingStarted => TestStarted
      case Locking => Lock
      case Evaluating => EvaluatePredicate
      case AboutToBlock => Block
      case Blocked => WakeSpuriously
      case Draining => Drain
      case Relocking => Relock
      case Running(_) =>
        if Callback !in s.emitters then FinishTask(false)
        else (match s.emitters[Callback]
              case PastCheck(_) => Capture(Callback)
              case Captured(_) => LockedPush(Callback)
              case OwesNotify => NotifyOne(Callback))
      case _ => Join
  }

  /** stop() never deadlocks, and needs no spurious wakeup: an essential step is always enabled. */
  lemma StopProgresses(s: State)
    requires WakeupInvariant(s) && Stopping(s)
    ensures Enabled(s, NextEssential(s)) && Essential(s, NextEssential(s)) && !NextEssential(s).WakeSpuriously?
  {
  }

  lemma {:induction false} StopCompletesFrom(s: State) returns (steps: seq<Action>)
    requires WakeupInvariant(s) && Stopping(s)
    ensures IsRun(s, steps) && |steps| <= Work(s)
    ensures After(s, steps).control.Idle? && After(s, steps).dispatcher.Absent?
    decreases Work(s)
  {
    var a := NextEssential(s);
    StopProgresses(s);
    WorkShrinks(s, a);
    WakeupStep(s, a);
    if a.Join? {
      steps := Before(s, a, []);
    } else {
      steps := StopCompletesFrom(Next(s, a));
      steps := Before(s, a, steps);
    }
  }

  function EssentialSteps(s: State, steps: seq<Action>): nat
    requires IsRun(s, steps)
    decreases |steps|
  {
    if steps == [] then 0
    else (if Essential(s, steps[0]) then 1 else 0) + EssentialSteps(Next(s, steps[0]), steps[1..])
  }

  ghost predicate StoppingThroughout(s: State, steps: seq<Action>)
    requires IsRun(s, steps)
    decreases |steps|
  {
    Stopping(s) && (steps == [] || StoppingThroughout(Next(s, steps[0]), steps[1..]))
  }

  /**
   * While stop() has not returned, no schedule whatever holds more than Work essential steps, and in
   * every state of it an essential step is enabled: any scheduler that runs these threads lets stop() return.
   */
  lemma {:induction false} StopTerminates(s: State, steps: seq<Action>)
    requires WakeupInvariant(s) && IsRun(s, steps) && StoppingThroughout(s, steps)
    ensures EssentialSteps(s, steps) + Work(After(s, steps)) <= Work(s)
    ensures Enabled(After(s, steps), NextEssential(After(s, steps)))
    decreases |steps|
  {
    if steps == [] {
      StopProgresses(s);
    } else {
      WorkShrinks(s, steps[0]);
      WakeupStep(s, steps[0]);
      StopTerminates(Next(s, steps[0]), steps[1..]);
    }
  }

  /** From every reachable state in which stop() is under way there is a schedule that completes it. */
  lemma {:induction false} StopCompletes(before: seq<Action>) returns (steps: seq<Action>)
    requires IsRun(INITIAL, before) && Stopping(After(INITIAL, before))
    ensures var s := After(INITIAL, before);
            && IsRun(s, steps) && |steps| <= Work(s)
            && After(s, steps).control.Idle? && After(s, steps).dispatcher.Absent?
  {
    WakeupRun(INITIAL, before);
    steps := StopCompletesFrom(After(INITIAL, before));
  }
}
