/** Shutdown of the metrics sender: bounded work, the end of its loop, and exactly when its notification is lost. */
module MetricsShutdown {
  import opened ClientConfig
  import opened Metrics
  import opened MetricsLedger

  // ---- bounded work ----

  function SendAllowance(pc: SenderPc): nat {
    if pc.Checking? || pc.Snapshotting? || pc.Sending? then 1 else 0
  }

  lemma {:induction false} SendBudget(s: State, steps: seq<Action>)
    requires IsRun(s, steps) && s.exitThreads && LowerExit !in steps && !s.control.Spawning?
    ensures var t := After(s, steps); t.sends + SendAllowance(t.sender) <= s.sends + SendAllowance(s.sender)
    decreases |steps|
  {
    if steps != [] {
      SendBudget(Next(s, steps[0]), steps[1..]);
    }
  }

  ghost predicate ControlAgrees(s: State) {
    && (s.control.Spawning? || s.control.Up? ==> !s.exitThreads)
    && (s.control.Raised? || s.control.Notified? ==> s.exitThreads)
    && (s.control.Stopped? || s.control.Spawning? <==> s.sender.Absent?)
  }

  lemma ControlAgreesStep(s: State, a: Action)
    requires ControlAgrees(s) && Enabled(s, a)
    ensures ControlAgrees(Next(s, a))
  {
  }

  lemma {:induction false} ControlAgreesRun(s: State, steps: seq<Action>)
    requires ControlAgrees(s) && IsRun(s, steps)
    ensures ControlAgrees(After(s, steps))
    decreases |steps|
  {
    if steps != [] {
      ControlAgreesStep(s, steps[0]);
      ControlAgreesRun(Next(s, steps[0]), steps[1..]);
    }
  }

  /** Once the exit flag is raised, and until it is lowered, at most one more send is made. */
  lemma AtMostOneMoreSend(cfg: Config, before: seq<Action>, steps: seq<Action>)
    requires IsRun(Initial(cfg), before) && After(Initial(cfg), before).exitThreads
    requires IsRun(After(Initial(cfg), before), steps) && LowerExit !in steps
    ensures After(After(Initial(cfg), before), steps).sends <= After(Initial(cfg), before).sends + 1
  {
    ControlAgreesRun(Initial(cfg), before);
    SendBudget(After(Initial(cfg), before), steps);
  }

  /** Steps left to the sender before it finishes, once the exit flag is up. */
  function SenderRank(pc: SenderPc): nat {
    match pc
    case Absent => 0
    case Finished => 0
    case WaitDone => 2
    case LoopTest => 1
    case WaitTest => 3
    case Asleep => 4
    case AboutToSleep => 5
    case Entering => 4
    case Reporting => 2
    case Resetting(_, _, _) => 3
    case Sending(_, _) => 4
    case Snapshotting => 5
    case Checking => 6
  }

  predicate IsSenderStep(a: Action) {
    !a.RecordUse? && !a.LowerExit? && !a.SpawnSender? && !a.RaiseExit? && !a.NotifySender? && !a.JoinSender?
  }

  lemma StepWindsDown(s: State, a: Action)
    requires s.exitThreads && Enabled(s, a) && !a.LowerExit? && !a.SpawnSender?
    ensures SenderRank(Next(s, a).sender) <= SenderRank(s.sender)
    ensures IsSenderStep(a) ==> SenderRank(Next(s, a).sender) < SenderRank(s.sender)
  {
  }

  function SenderSteps(steps: seq<Action>): nat {
    if steps == [] then 0 else (if IsSenderStep(steps[0]) then 1 else 0) + SenderSteps(steps[1..])
  }

  /** Once the exit flag is up, and until it is lowered, a sender takes at most SenderRank steps in any schedule. */
  lemma {:induction false} SenderStepsAreBounded(s: State, steps: seq<Action>)
    requires ControlAgrees(s) && s.exitThreads && IsRun(s, steps) && LowerExit !in steps
    ensures SenderSteps(steps) + SenderRank(After(s, steps).sender) <= SenderRank(s.sender)
    decreases |steps|
  {
    if steps != [] {
      StepWindsDown(s, steps[0]);
      ControlAgreesStep(s, steps[0]);
      SenderStepsAreBounded(Next(s, steps[0]), steps[1..]);
    }
  }

  /** A sender that has not finished can always take a step of its own, without being notified. */
  lemma SenderCanStep(s: State) returns (a: Action)
    requires Ledger(s) && !s.sender.Absent? && !s.sender.Finished?
    ensures Enabled(s, a) && IsSenderStep(a) && !a.WakeUp? && (a.TimeOut? ==> s.sender.Asleep?)
  {
    match s.sender
    case Entering => a := Enter;
    case LoopTest => a := TestExit;
    case WaitTest => a := TestWait;
    case AboutToSleep => a := FallAsleep;
    case Asleep => a := TimeOut;
    case WaitDone => a := LeaveWait;
    case Checking => a := CheckEmpty;
    case Snapshotting => a := CopyList;
    case Sending(_, _) => a := Send(true);
    case Resetting(_, _, _) => a := Reset;
    case Reporting => a := ReportError;
  }

  predicate Dozing(pc: SenderPc) {
    pc.AboutToSleep? || pc.Asleep?
  }

  predicate Wakes(a: Action) {
    a.WakeUp? || a.TimeOut?
  }

  ghost predicate Unwoken(steps: seq<Action>) {
    forall i :: 0 <= i < |steps| ==> !Wakes(steps[i])
  }

  lemma SenderStaysAwake(s: State, a: Action)
    requires s.exitThreads && !Dozing(s.sender) && Enabled(s, a)
    ensures !Dozing(Next(s, a).sender)
  {
  }

  /** By its own steps alone, timeouts in place of notifications, the sender leaves its loop. */
  lemma {:induction false} SenderLeavesItsLoop(s: State) returns (steps: seq<Action>)
    requires Ledger(s) && s.exitThreads && !s.sender.Absent?
    ensures IsRun(s, steps) && After(s, steps).sender.Finished? && |steps| <= SenderRank(s.sender)
    ensures forall i :: 0 <= i < |steps| ==> IsSenderStep(steps[i])
    ensures After(s, steps).control == s.control && After(s, steps).exitThreads
    ensures !Dozing(s.sender) ==> Unwoken(steps)
    decreases SenderRank(s.sender)
  {
    if s.sender.Finished? {
      steps := [];
    } else {
      var a := SenderCanStep(s);
      LedgerStep(s, a);
      StepWindsDown(s, a);
      if !Dozing(s.sender) {
        SenderStaysAwake(s, a);
      }
      var rest := SenderLeavesItsLoop(Next(s, a));
      steps := [a] + rest;
      assert steps[1..] == rest;
    }
  }

  // ---- the exit notification ----

  /** stop() waits to join a sender that is asleep, or about to be, until it is woken. */
  lemma {:induction false} MissedNotifyLasts(s: State, steps: seq<Action>)
    requires s.control.Notified? && Dozing(s.sender) && IsRun(s, steps) && Unwoken(steps)
    ensures After(s, steps).control.Notified? && Dozing(After(s, steps).sender)
    decreases |steps|
  {
    if steps != [] {
      assert !Wakes(steps[0]);
      MissedNotifyLasts(Next(s, steps[0]), steps[1..]);
    }
  }

  /** The sender is joined though no timeout and no accident wakes it. */
  ghost predicate JoinsUnwoken(s: State, steps: seq<Action>) {
    IsRun(s, steps) && Unwoken(steps) && After(s, steps).control.Stopped?
  }

  lemma AwakeIsJoined(s: State)
    requires Ledger(s) && ControlAgrees(s) && s.control.Notified? && !Dozing(s.sender)
    ensures exists steps :: JoinsUnwoken(s, steps)
  {
    var leave := SenderLeavesItsLoop(s);
    var steps := OneStepMore(s, leave, JoinSender);
    assert JoinsUnwoken(s, steps);
  }

  /**
   * stop() notifies the sender, too, without taking its mutex. The notification is lost, and stop() waits
   * for the interval to run out, if and only if the sender then stood between its test and its going to sleep.
   */
  lemma NotifyIsLostIff(cfg: Config, before: seq<Action>)
    requires IsRun(Initial(cfg), before) && After(Initial(cfg), before).control.Raised?
    ensures var s := After(Initial(cfg), before);
            (exists steps :: JoinsUnwoken(Next(s, NotifySender), steps)) <==> !s.sender.AboutToSleep?
  {
    LedgerRun(Initial(cfg), before);
    ControlAgreesRun(Initial(cfg), before);
    var s := After(Initial(cfg), before);
    var notified := Next(s, NotifySender);
    LedgerStep(s, NotifySender);
    ControlAgreesStep(s, NotifySender);
    if s.sender.AboutToSleep? {
      forall steps | IsRun(notified, steps) && Unwoken(steps) ensures !After(notified, steps).control.Stopped? {
        MissedNotifyLasts(notified, steps);
      }
    } else {
      AwakeIsJoined(notified);
    }
  }

  /** Every client that sends metrics has a schedule in which that happens. */
  lemma StopMayWaitForInterval(cfg: Config) returns (steps: seq<Action>)
    requires cfg.metricsEnabled
    ensures IsRun(Initial(cfg), steps)
    ensures var s := After(Initial(cfg), steps); s.control.Notified? && s.exitThreads && s.sender.Asleep?
  {
    var s := Initial(cfg);
    steps := OneStepMore(s, [], LowerExit);
    steps := OneStepMore(s, steps, SpawnSender);
    steps := OneStepMore(s, steps, Enter);
    if !cfg.metricsDelayed {
      steps := OneStepMore(s, steps, TestExit);
    }
    steps := OneStepMore(s, steps, TestWait);
    steps := OneStepMore(s, steps, RaiseExit);
    steps := OneStepMore(s, steps, NotifySender);
    steps := OneStepMore(s, steps, FallAsleep);
  }
}
