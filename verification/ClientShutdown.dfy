/** Shutdown of the client: bounded work, completion of stop(), and exactly when its notification is lost. */
module ClientShutdown {
  import opened JsonCodec
  import opened ClientConfig
  import opened Context
  import opened ToggleFetcher
  import opened Store
  import opened Polling
  import opened ClientLifecycle

  // ---- bounded work ----

  ghost predicate ExitStaysUp(s: State, steps: seq<Action>)
    requires IsRun(s, steps)
    decreases |steps|
  {
    s.exitThreads && (steps == [] || ExitStaysUp(Next(s, steps[0]), steps[1..]))
  }

  lemma {:induction false} FetchBudget(s: State, steps: seq<Action>)
    requires ClientInvariant(s) && IsRun(s, steps) && ExitStaysUp(s, steps)
    ensures var t := After(s, steps); t.past.polls + FetchAllowance(t.poller) <= s.past.polls + FetchAllowance(s.poller)
    decreases |steps|
  {
    if steps != [] {
      InvariantStep(s, steps[0]);
      StepsAreForward(s, steps[0]);
      FetchBudget(Next(s, steps[0]), steps[1..]);
    }
  }

  /** Once the exit flag is raised, and while it stays up, the poller begins at most one more fetch. */
  lemma AtMostOneMoreFetch(
    s: State, cfg: Config, server: Server, c: ContextFields, cell: Stored, before: seq<Action>, steps: seq<Action>)
    requires IsInitial(s, cfg, server, c, cell) && IsRun(s, before)
    requires IsRun(After(s, before), steps) && ExitStaysUp(After(s, before), steps)
    ensures After(After(s, before), steps).past.polls <= After(s, before).past.polls + 1
  {
    InvariantRun(s, before);
    FetchBudget(After(s, before), steps);
  }

  /** A poller that has not finished can always take a step of its own, without being notified. */
  lemma PollerCanStep(s: State) returns (a: Action)
    requires !s.poller.Absent? && !s.poller.Finished?
    ensures Enabled(s, a) && IsPollerStep(a) && !a.WakePoller? && (a.TimeOut? ==> s.poller.Blocked?)
  {
    match s.poller {
      case AwaitingReply => a := Receive(NoReply);
      case Blocked => a := TimeOut;
      case Writing(t) =>
        var order := SomeIterationOrder(t);
        a := WriteDocument(order);
      case _ =>
        a := if InFetch(s.poller) then StepFetch else if InPublish(s.poller) then StepPublish else StepWait;
    }
  }

  function PollerSteps(steps: seq<Action>): nat {
    if steps == [] then 0 else (if IsPollerStep(steps[0]) then 1 else 0) + PollerSteps(steps[1..])
  }

  /** Once the exit flag is up, a poller takes at most PollerRank steps in any schedule whatever. */
  lemma {:induction false} PollerStepsAreBounded(s: State, steps: seq<Action>)
    requires ClientInvariant(s) && IsRun(s, steps) && ExitStaysUp(s, steps)
    ensures PollerSteps(steps) + PollerRank(After(s, steps).poller) <= PollerRank(s.poller)
    decreases |steps|
  {
    if steps != [] {
      InvariantStep(s, steps[0]);
      StepsAreForward(s, steps[0]);
      PollerStepsAreBounded(Next(s, steps[0]), steps[1..]);
    }
  }

  /** And by its own steps alone, timeouts in place of notifications, it leaves its loop. */
  lemma {:induction false} PollerLeavesItsLoop(s: State) returns (steps: seq<Action>)
    requires ClientInvariant(s) && s.exitThreads && !s.poller.Absent?
    ensures IsRun(s, steps) && After(s, steps).poller.Finished?
    ensures |steps| <= PollerRank(s.poller) && forall i :: 0 <= i < |steps| ==> IsPollerStep(steps[i])
    decreases PollerRank(s.poller)
  {
    if s.poller.Finished? {
      steps := [];
    } else {
      var a := PollerCanStep(s);
      InvariantStep(s, a);
      StepsAreForward(s, a);
      var rest := PollerLeavesItsLoop(Next(s, a));
      steps := [a] + rest;
      assert steps[1..] == rest;
    }
  }

  // ---- stop completes ----

  function StopRank(c: ControlPc): nat {
    match c
    case RaisingExit => 5
    case NotifyingPoller => 4
    case JoiningPoller => 3
    case StoppingHandler => 2
    case ClearingRunning => 1
    case _ => 0
  }

  function Work(s: State): nat {
    StopRank(s.control) + PollerRank(s.poller)
  }

  /** The steps that bring stop() nearer its end. */
  predicate Essential(a: Action) {
    a.StepStop? || IsPollerStep(a)
  }

  predicate Asleep(pc: PollerPc) {
    pc.AboutToBlock? || pc.Blocked?
  }

  /** The ways out of sleep: a notification, a spurious wakeup, and the timeout. */
  predicate Wakes(a: Action) {
    a.WakePoller? || a.TimeOut? || a.NotifyUpdate?
  }

  ghost predicate Unwoken(steps: seq<Action>) {
    forall i :: 0 <= i < |steps| ==> !Wakes(steps[i])
  }

  lemma StopStepShrinks(s: State)
    requires ClientInvariant(s) && CanStepStop(s)
    ensures var t := StopStep(s);
            Work(t) < Work(s) && t.exitThreads && (InStop(t.control) || t.control.Idle?)
  {
  }

  lemma WaitStaysAwake(s: State)
    requires InWait(s.poller) && s.exitThreads && !Asleep(s.poller)
    ensures !Asleep(WaitStep(s).poller)
  {
  }

  /** While stop() is under way and the flag is up, nothing adds work and nothing puts a waking poller to sleep. */
  lemma StoppingStep(s: State, a: Action)
    requires ClientInvariant(s) && InStop(s.control) && s.exitThreads && Enabled(s, a)
    ensures var t := Next(s, a);
            && t.exitThreads && Work(t) <= Work(s) && (Essential(a) ==> Work(t) < Work(s))
            && (a.StepStop? || t.control == s.control)
            && (!Asleep(s.poller) ==> !Asleep(t.poller))
  {
    if a.StepStop? {
      StopStepShrinks(s);
    } else {
      StepsAreForward(s, a);
      if a.StepWait? && !Asleep(s.poller) {
        WaitStaysAwake(s);
      }
    }
  }

  /** stop() never deadlocks: it, or the poller it waits for, can take a step that needs no notification. */
  lemma StopProgresses(s: State) returns (a: Action)
    requires ClientInvariant(s) && InStop(s.control)
    ensures Enabled(s, a) && Essential(a) && !a.WakePoller?
    ensures s.control.RaisingExit? ==> a.StepStop?
    ensures !Asleep(s.poller) ==> !Wakes(a)
  {
    if CanStepStop(s) {
      a := StepStop;
    } else {
      a := PollerCanStep(s);
    }
  }

  lemma {:induction false} StopCompletesFrom(s: State) returns (steps: seq<Action>)
    requires ClientInvariant(s) && InStop(s.control)
    ensures IsRun(s, steps) && |steps| <= Work(s)
    ensures var t := After(s, steps);
            t.control.Idle? && !t.running && t.exitThreads && !t.handlerStarted && t.poller.Absent?
    ensures s.exitThreads && !Asleep(s.poller) ==> Unwoken(steps)
    decreases Work(s)
  {
    var a := StopProgresses(s);
    var t := Next(s, a);
    InvariantStep(s, a);
    if a.StepStop? {
      StopStepShrinks(s);
    }
    if s.exitThreads {
      StoppingStep(s, a);
    }
    var rest: seq<Action> := [];
    if !t.control.Idle? {
      rest := StopCompletesFrom(t);
    }
    steps := [a] + rest;
    assert steps[1..] == rest;
  }

  /** From every reachable state inside stop() there is a schedule in which it returns with its threads gone. */
  lemma {:induction false} StopCompletes(
    s: State, cfg: Config, server: Server, c: ContextFields, cell: Stored, before: seq<Action>)
    returns (steps: seq<Action>)
    requires IsInitial(s, cfg, server, c, cell) && IsRun(s, before) && InStop(After(s, before).control)
    ensures var t := After(s, before);
            && IsRun(t, steps) && |steps| <= Work(t)
            && var u := After(t, steps);
               u.control.Idle? && !u.running && u.exitThreads && !u.handlerStarted && u.poller.Absent?
  {
    InvariantRun(s, before);
    steps := StopCompletesFrom(After(s, before));
  }

  ghost predicate StopUnderWay(s: State, steps: seq<Action>)
    requires IsRun(s, steps)
    decreases |steps|
  {
    InStop(s.control) && (steps == [] || StopUnderWay(Next(s, steps[0]), steps[1..]))
  }

  function EssentialSteps(steps: seq<Action>): nat {
    if steps == [] then 0 else (if Essential(steps[0]) then 1 else 0) + EssentialSteps(steps[1..])
  }

  /**
   * Once the flag is up, no schedule whatever holds more than Work steps of stop() and the poller before
   * stop() returns, and at its end one of them is always enabled: any scheduler that runs these
   * threads, and lets the timeout come, lets stop() return.
   */
  lemma {:induction false} StopTerminates(s: State, steps: seq<Action>) returns (next: Action)
    requires ClientInvariant(s) && s.exitThreads && IsRun(s, steps) && StopUnderWay(s, steps)
    ensures EssentialSteps(steps) + Work(After(s, steps)) <= Work(s)
    ensures Enabled(After(s, steps), next) && Essential(next) && !next.WakePoller?
    decreases |steps|
  {
    if steps == [] {
      next := StopProgresses(s);
    } else {
      StoppingStep(s, steps[0]);
      InvariantStep(s, steps[0]);
      next := StopTerminates(Next(s, steps[0]), steps[1..]);
    }
  }

  // ---- the exit notification ----

  /** A poller about to sleep when it was notified sleeps until it is woken, and stop() waits for it. */
  lemma {:induction false} MissedNotifyLasts(s: State, steps: seq<Action>)
    requires s.control.JoiningPoller? && Asleep(s.poller) && IsRun(s, steps) && Unwoken(steps)
    ensures After(s, steps).control.JoiningPoller? && Asleep(After(s, steps).poller)
    decreases |steps|
  {
    if steps != [] {
      assert !Wakes(steps[0]);
      MissedNotifyLasts(Next(s, steps[0]), steps[1..]);
    }
  }

  lemma {:induction false} NotifiedStaysAwake(s: State, steps: seq<Action>)
    requires ClientInvariant(s) && s.exitThreads && !Asleep(s.poller) && IsRun(s, steps) && StopUnderWay(s, steps)
    ensures !Asleep(After(s, steps).poller)
    decreases |steps|
  {
    if steps != [] {
      StoppingStep(s, steps[0]);
      InvariantStep(s, steps[0]);
      NotifiedStaysAwake(Next(s, steps[0]), steps[1..]);
    }
  }

  /** stop() finds the poller asleep. */
  ghost predicate SleepsThroughStop(s: State, steps: seq<Action>) {
    IsRun(s, steps) && StopUnderWay(s, steps) && After(s, steps).poller.Blocked?
  }

  /** stop() returns though nobody, no timeout and no accident wakes the poller. */
  ghost predicate ReturnsUnwoken(s: State, steps: seq<Action>) {
    IsRun(s, steps) && Unwoken(steps) && After(s, steps).control.Idle?
  }

  lemma SleepFollowsMissedNotify(s: State)
    requires s.control.JoiningPoller? && s.poller.AboutToBlock?
    ensures exists steps :: SleepsThroughStop(s, steps)
  {
    var steps := OneStepMore(s, [], StepWait);
    assert StopUnderWay(Next(s, StepWait), []);
    assert steps[1..] == [];
    assert SleepsThroughStop(s, steps);
  }

  /**
   * stop() notifies without taking the polling mutex. Exactly when its notification is lost: from the
   * moment of notifying, stop() can find the poller asleep if and only if the poller then stood between
   * its test and its going to sleep; and stop() can return without a timeout, an accidental wakeup or an
   * updater's notification if and only if it did not.
   */
  lemma {:induction false} NotifyIsLostIff(
    s: State, cfg: Config, server: Server, c: ContextFields, cell: Stored, before: seq<Action>)
    requires IsInitial(s, cfg, server, c, cell) && IsRun(s, before) && After(s, before).control.NotifyingPoller?
    ensures var t := After(s, before); var notified := Next(t, StepStop);
            && ((exists steps :: SleepsThroughStop(notified, steps)) <==> t.poller.AboutToBlock?)
            && ((exists steps :: ReturnsUnwoken(notified, steps)) <==> !t.poller.AboutToBlock?)
  {
    InvariantRun(s, before);
    var t := After(s, before);
    var notified := Next(t, StepStop);
    InvariantStep(t, StepStop);
    if t.poller.AboutToBlock? {
      SleepFollowsMissedNotify(notified);
      forall steps | IsRun(notified, steps) && Unwoken(steps) ensures !After(notified, steps).control.Idle? {
        MissedNotifyLasts(notified, steps);
      }
    } else {
      forall steps | IsRun(notified, steps) && StopUnderWay(notified, steps)
        ensures !After(notified, steps).poller.Blocked?
      {
        NotifiedStaysAwake(notified, steps);
      }
      var steps := StopCompletesFrom(notified);
      assert ReturnsUnwoken(notified, steps);
    }
  }

  /**
   * stop() notifies without taking the polling mutex. It finds the poller asleep while it waits to
   * join it only if the notification came between the poller's test and its going to sleep.
   */
  lemma SleepingThroughStopMeansMissedNotify(
    s: State, cfg: Config, server: Server, c: ContextFields, cell: Stored, steps: seq<Action>)
    requires IsInitial(s, cfg, server, c, cell) && IsRun(s, steps)
    ensures var t := After(s, steps); t.control.JoiningPoller? && t.poller.Blocked? ==> t.past.notifyMissed
  {
    InvariantRun(s, steps);
  }

  lemma StoreIsConsulted(s: State) returns (steps: seq<Action>)
    requires s.control.Idle? && !s.running && !s.handlerStarted
    ensures IsRun(s, steps)
    ensures After(s, steps) == s.(running := true, ready := s.ready || s.store.ready, control := LoweringExit)
    ensures forall i :: 0 <= i < |steps| ==> !steps[i].Receive?
  {
    steps := OneStepMore(s, [], CallStart);
    steps := OneStepMore(s, steps, StepStart);
    steps := OneStepMore(s, steps, StepStart);
    if s.store.ready {
      steps := OneStepMore(s, steps, StepStart);
      steps := OneStepMore(s, steps, StepStart);
    }
  }

  lemma ThreadsAreStarted(s: State) returns (steps: seq<Action>)
    requires s.control.LoweringExit? && s.running
    ensures IsRun(s, steps)
    ensures After(s, steps) == s.(exitThreads := false, handlerStarted := true, poller := Entering, control := Idle)
    ensures forall i :: 0 <= i < |steps| ==> !steps[i].Receive?
  {
    steps := OneStepMore(s, [], StepStart);
    steps := OneStepMore(s, steps, StepStart);
    steps := OneStepMore(s, steps, StepStart);
    steps := OneStepMore(s, steps, StepStart);
  }

  lemma StartedClient(s: State) returns (steps: seq<Action>)
    requires s.control.Idle? && !s.running && !s.handlerStarted && s.poller.Absent?
    ensures IsRun(s, steps)
    ensures After(s, steps) == s.(running := true, ready := s.ready || s.store.ready, exitThreads := false,
                                  handlerStarted := true, poller := Entering)
    ensures forall i :: 0 <= i < |steps| ==> !steps[i].Receive?
  {
    var first := StoreIsConsulted(s);
    var second := ThreadsAreStarted(After(s, first));
    RunsCompose(s, first, second);
    steps := first + second;
  }

  lemma FirstPollFails(s: State) returns (steps: seq<Action>)
    requires s.control.Idle? && s.running && s.poller.Entering? && !s.exitThreads
    requires s.cfg.refreshEnabled && !s.contextUpdated
    ensures IsRun(s, steps)
    ensures var t := After(s, steps); t.control.Idle? && t.running && t.poller.AboutToBlock?
  {
    steps := OneStepMore(s, [], StepFetch);
    steps := OneStepMore(s, steps, StepFetch);
    steps := OneStepMore(s, steps, StepFetch);
    steps := OneStepMore(s, steps, Receive(NoReply));
    steps := OneStepMore(s, steps, StepPublish);
    steps := OneStepMore(s, steps, StepWait);
    steps := OneStepMore(s, steps, StepWait);
    steps := OneStepMore(s, steps, StepWait);
  }

  lemma StopOvertakesSleep(s: State) returns (steps: seq<Action>)
    requires s.control.Idle? && s.running && s.poller.AboutToBlock?
    ensures IsRun(s, steps)
    ensures var t := After(s, steps); t.control.JoiningPoller? && t.exitThreads && t.poller.Blocked?
  {
    steps := OneStepMore(s, [], CallStop);
    steps := OneStepMore(s, steps, StepStop);
    steps := OneStepMore(s, steps, StepStop);
    steps := OneStepMore(s, steps, StepWait);
  }

  /**
   * The wakeup of a stopping client can be lost: any client that polls has a schedule in which stop()
   * waits for a poller that sleeps, has missed its notification, and can leave only by a timeout, a
   * spurious wakeup or an updater's notification.
   */
  lemma StopMayWaitForTimeout(s: State, cfg: Config, server: Server, c: ContextFields, cell: Stored)
    returns (steps: seq<Action>)
    requires IsInitial(s, cfg, server, c, cell) && cfg.refreshEnabled
    ensures IsRun(s, steps)
    ensures var t := After(s, steps); t.control.JoiningPoller? && t.exitThreads && t.poller.Blocked?
  {
    var start := StartedClient(s);
    var poll := FirstPollFails(After(s, start));
    RunsCompose(s, start, poll);
    var stop := StopOvertakesSleep(After(s, start + poll));
    RunsCompose(s, start + poll, stop);
    steps := start + poll + stop;
  }
}
