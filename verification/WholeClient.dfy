/**
 * The whole client: the polling system and the metrics system under the start and stop calls they share.
 * start() spawns the sender before the poller; stop() raises the exit flag for both, notifies the sender
 * and then the poller, and joins the sender before the poller.
 */
module WholeClient {
  import opened Wrappers
  import opened ClientConfig
  import opened Context
  import opened Store
  import Polling
  import ClientLifecycle
  import ClientShutdown
  import MetricsLedger
  import MetricsShutdown

  datatype State = State(client: Polling.State, metrics: MetricsLedger.State)

  datatype Action = OfClient(step: Polling.Action) | OfMetrics(part: MetricsLedger.Action)

  // ---- the steps ----

  /** Both systems see the exit flag change, in one step. */
  function Along(c: Polling.State, a: Polling.Action): Option<MetricsLedger.Action> {
    if a.StepStart? && c.control.LoweringExit? then Some(MetricsLedger.LowerExit)
    else if a.StepStop? && c.control.RaisingExit? then Some(MetricsLedger.RaiseExit)
    else None
  }

  /** What start() and stop() have to do for the sender first. */
  predicate SenderServed(s: State, a: Polling.Action) {
    && (a.StepStart? && s.client.control.SpawningPoller? ==> s.metrics.control.Up?)
    && (a.StepStop? && s.client.control.NotifyingPoller? ==> s.metrics.control.Notified?)
    && (a.StepStop? && s.client.control.JoiningPoller? ==> s.metrics.control.Stopped?)
  }

  /** Where start() and stop() must have come to for a step that they make for the sender. */
  predicate Timely(c: Polling.ControlPc, a: MetricsLedger.Action) {
    match a
    case LowerExit => false
    case RaiseExit => false
    case SpawnSender => c.SpawningPoller?
    case NotifySender => c.NotifyingPoller?
    case JoinSender => c.JoiningPoller?
    case _ => true
  }

  ghost predicate Enabled(s: State, a: Action) {
    match a
    case OfClient(step) =>
      && Polling.Enabled(s.client, step) && SenderServed(s, step)
      && var along := Along(s.client, step);
         along.Some? ==> MetricsLedger.Enabled(s.metrics, along.value)
    case OfMetrics(part) => MetricsLedger.Enabled(s.metrics, part) && Timely(s.client.control, part)
  }

  ghost function Next(s: State, a: Action): State
    requires Enabled(s, a)
  {
    match a
    case OfClient(step) =>
      var along := Along(s.client, step);
      State(Polling.Next(s.client, step),
            if along.Some? then MetricsLedger.Next(s.metrics, along.value) else s.metrics)
    case OfMetrics(part) => s.(metrics := MetricsLedger.Next(s.metrics, part))
  }

  ghost predicate IsRun(s: State, steps: seq<Action>)
    decreases |steps|
  {
    steps == [] || (Enabled(s, steps[0]) && IsRun(Next(s, steps[0]), steps[1..]))
  }

  ghost function After(s: State, steps: seq<Action>): State
    requires IsRun(s, steps)
    decreases |steps|
  {
    if steps == [] then s else After(Next(s, steps[0]), steps[1..])
  }

  ghost predicate IsInitial(s: State, cfg: Config, server: Polling.Server, c: ContextFields, cell: Stored) {
    Polling.IsInitial(s.client, cfg, server, c, cell) && s.metrics == MetricsLedger.Initial(cfg)
  }

  // ---- a run of the whole is a run of each part ----

  ghost function ClientSteps(steps: seq<Action>): seq<Polling.Action> {
    if steps == [] then []
    else (if steps[0].OfClient? then [steps[0].step] else []) + ClientSteps(steps[1..])
  }

  ghost function StepOfMetrics(s: State, a: Action): seq<MetricsLedger.Action> {
    match a
    case OfMetrics(part) => [part]
    case OfClient(step) =>
      var along := Along(s.client, step);
      if along.Some? then [along.value] else []
  }

  ghost function MetricsSteps(s: State, steps: seq<Action>): seq<MetricsLedger.Action>
    requires IsRun(s, steps)
    decreases |steps|
  {
    if steps == [] then [] else StepOfMetrics(s, steps[0]) + MetricsSteps(Next(s, steps[0]), steps[1..])
  }

  lemma {:induction false} ClientRuns(s: State, steps: seq<Action>)
    requires IsRun(s, steps)
    ensures Polling.IsRun(s.client, ClientSteps(steps))
    ensures Polling.After(s.client, ClientSteps(steps)) == After(s, steps).client
    decreases |steps|
  {
    if steps != [] {
      ClientRuns(Next(s, steps[0]), steps[1..]);
      var all, rest := ClientSteps(steps), ClientSteps(steps[1..]);
      if steps[0].OfClient? {
        assert all[1..] == rest;
      } else {
        assert all == rest;
      }
    }
  }

  lemma {:induction false} MetricsRun(s: State, steps: seq<Action>)
    requires IsRun(s, steps)
    ensures MetricsLedger.IsRun(s.metrics, MetricsSteps(s, steps))
    ensures MetricsLedger.After(s.metrics, MetricsSteps(s, steps)) == After(s, steps).metrics
    decreases |steps|
  {
    if steps != [] {
      var t := Next(s, steps[0]);
      MetricsRun(t, steps[1..]);
      var first, rest := StepOfMetrics(s, steps[0]), MetricsSteps(t, steps[1..]);
      if first == [] {
        assert first + rest == rest;
      } else {
        assert (first + rest)[1..] == rest;
      }
    }
  }

  /** So every theorem about the polling system and about the metrics system holds of the whole client. */
  lemma {:induction false} WholeRunsProject(s: State, steps: seq<Action>)
    requires IsRun(s, steps)
    ensures Polling.IsRun(s.client, ClientSteps(steps))
    ensures Polling.After(s.client, ClientSteps(steps)) == After(s, steps).client
    ensures MetricsLedger.IsRun(s.metrics, MetricsSteps(s, steps))
    ensures MetricsLedger.After(s.metrics, MetricsSteps(s, steps)) == After(s, steps).metrics
  {
    ClientRuns(s, steps);
    MetricsRun(s, steps);
  }

  // ---- the two controls agree ----

  predicate ControlsAgree(c: Polling.ControlPc, running: bool, m: MetricsLedger.ControlPc) {
    match c
    case Idle => if running then m.Up? else m.Stopped?
    case StartingHandler => m.Spawning?
    case SpawningPoller => m.Spawning? || m.Up?
    case MarkingRunning => m.Up?
    case RaisingExit => m.Up?
    case NotifyingPoller => m.Raised? || m.Notified?
    case JoiningPoller => m.Notified? || m.Stopped?
    case _ => m.Stopped?
  }

  ghost predicate Coupled(s: State) {
    && s.client.exitThreads == s.metrics.exitThreads
    && ControlsAgree(s.client.control, s.client.running, s.metrics.control)
  }

  ghost predicate Invariant(s: State) {
    && ClientLifecycle.ClientInvariant(s.client)
    && MetricsLedger.Ledger(s.metrics) && MetricsShutdown.ControlAgrees(s.metrics)
    && Coupled(s)
  }

  /** All steps of the client but those of start and stop. */
  predicate OfControl(a: Polling.Action) {
    a.StepStart? || a.StepStop? || a.CallStart? || a.CallStop?
  }

  ghost predicate SameControl(c: Polling.State, d: Polling.State) {
    d.control == c.control && d.running == c.running && d.exitThreads == c.exitThreads
  }

  lemma PublishKeepsControl(c: Polling.State)
    requires Polling.InPublish(c.poller)
    ensures SameControl(c, Polling.PublishStep(c))
  {
  }

  lemma WaitKeepsControl(c: Polling.State)
    requires Polling.InWait(c.poller)
    ensures SameControl(c, Polling.WaitStep(c))
  {
  }

  lemma OthersKeepControl(c: Polling.State, a: Polling.Action)
    requires Polling.Enabled(c, a) && !OfControl(a)
    ensures SameControl(c, Polling.Next(c, a))
  {
    match a
    case StepPublish => PublishKeepsControl(c);
    case StepWait => WaitKeepsControl(c);
    case StepFetch =>
    case Receive(_) =>
    case EmitImpression(_) =>
    case _ =>
  }

  lemma StartKeepsCoupling(s: State)
    requires Invariant(s) && Enabled(s, OfClient(Polling.StepStart))
    ensures Coupled(Next(s, OfClient(Polling.StepStart)))
  {
  }

  lemma StopKeepsCoupling(s: State)
    requires Invariant(s) && Enabled(s, OfClient(Polling.StepStop))
    ensures Coupled(Next(s, OfClient(Polling.StepStop)))
  {
  }

  lemma ClientStepKeepsCoupling(s: State, a: Polling.Action)
    requires Invariant(s) && Enabled(s, OfClient(a))
    ensures Coupled(Next(s, OfClient(a)))
  {
    if a.StepStart? {
      StartKeepsCoupling(s);
    } else if a.StepStop? {
      StopKeepsCoupling(s);
    } else if !OfControl(a) {
      OthersKeepControl(s.client, a);
    }
  }

  lemma MetricsStepKeepsCoupling(s: State, a: MetricsLedger.Action)
    requires Invariant(s) && Enabled(s, OfMetrics(a))
    ensures Coupled(Next(s, OfMetrics(a)))
  {
  }

  lemma InvariantStep(s: State, a: Action)
    requires Invariant(s) && Enabled(s, a)
    ensures Invariant(Next(s, a))
  {
    match a
    case OfClient(step) =>
      ClientStepKeepsCoupling(s, step);
      ClientLifecycle.InvariantStep(s.client, step);
      var along := Along(s.client, step);
      if along.Some? {
        MetricsLedger.LedgerStep(s.metrics, along.value);
        MetricsShutdown.ControlAgreesStep(s.metrics, along.value);
      }
    case OfMetrics(part) =>
      MetricsStepKeepsCoupling(s, part);
      MetricsLedger.LedgerStep(s.metrics, part);
      MetricsShutdown.ControlAgreesStep(s.metrics, part);
  }

  lemma {:induction false} InvariantRun(s: State, steps: seq<Action>)
    requires Invariant(s) && IsRun(s, steps)
    ensures Invariant(After(s, steps))
    decreases |steps|
  {
    if steps != [] {
      InvariantStep(s, steps[0]);
      InvariantRun(Next(s, steps[0]), steps[1..]);
    }
  }

  /** While a sender exists the event handler is started, so its error events are not lost at the started check. */
  lemma {:induction false} SenderFindsHandlerStarted(
    s: State, cfg: Config, server: Polling.Server, c: ContextFields, cell: Stored, steps: seq<Action>)
    requires IsInitial(s, cfg, server, c, cell) && IsRun(s, steps)
    ensures var t := After(s, steps);
            && (!t.metrics.sender.Absent? ==> t.client.handlerStarted)
            && t.client.exitThreads == t.metrics.exitThreads
  {
    InvariantRun(s, steps);
  }

  // ---- stop completes ----

  function SenderStopRank(m: MetricsLedger.ControlPc): nat {
    match m
    case Up => 3
    case Raised => 2
    case Notified => 1
    case _ => 0
  }

  function Work(s: State): nat {
    ClientShutdown.Work(s.client) + SenderStopRank(s.metrics.control) + MetricsShutdown.SenderRank(s.metrics.sender)
  }

  /** The steps of stop(), of the poller and of the sender. */
  predicate Essential(a: Action) {
    match a
    case OfClient(step) => ClientShutdown.Essential(step)
    case OfMetrics(part) => MetricsShutdown.IsSenderStep(part) || part.NotifySender? || part.JoinSender?
  }

  /** Accidents, timeouts, and an updater's notification. */
  predicate Wakes(a: Action) {
    match a
    case OfClient(step) => ClientShutdown.Wakes(step)
    case OfMetrics(part) => MetricsShutdown.Wakes(part)
  }

  predicate Awake(s: State) {
    !ClientShutdown.Asleep(s.client.poller) && !MetricsShutdown.Dozing(s.metrics.sender)
  }

  predicate Stopping(s: State) {
    Polling.InStop(s.client.control)
  }

  lemma MetricsStepShrinks(m: MetricsLedger.State, a: MetricsLedger.Action)
    requires m.exitThreads && MetricsLedger.Enabled(m, a) && !a.LowerExit? && !a.SpawnSender? && !a.RaiseExit?
    ensures var n := MetricsLedger.Next(m, a);
            var before := SenderStopRank(m.control) + MetricsShutdown.SenderRank(m.sender);
            var after := SenderStopRank(n.control) + MetricsShutdown.SenderRank(n.sender);
            n.exitThreads && after <= before && (Essential(OfMetrics(a)) ==> after < before)
  {
    MetricsShutdown.StepWindsDown(m, a);
  }

  /** Once the flag is up nothing adds work, every essential step uses some up, and nobody who is awake falls asleep. */
  lemma StoppingStep(s: State, a: Action)
    requires Invariant(s) && Stopping(s) && s.client.exitThreads && Enabled(s, a)
    ensures var t := Next(s, a);
            && t.client.exitThreads && Work(t) <= Work(s) && (Essential(a) ==> Work(t) < Work(s))
            && (Awake(s) ==> Awake(t))
  {
    match a
    case OfClient(step) =>
      ClientShutdown.StoppingStep(s.client, step);
    case OfMetrics(part) =>
      MetricsStepShrinks(s.metrics, part);
      if Awake(s) {
        MetricsShutdown.SenderStaysAwake(s.metrics, part);
      }
  }

  lemma RaisingStep(s: State)
    requires Invariant(s) && s.client.control.RaisingExit?
    ensures Enabled(s, OfClient(Polling.StepStop))
    ensures var t := Next(s, OfClient(Polling.StepStop)); Stopping(t) && t.client.exitThreads && Work(t) < Work(s)
  {
  }

  /** stop(), or a thread that it waits for, can always take a step, and needs no notification for it. */
  lemma StopProgresses(s: State) returns (a: Action)
    requires Invariant(s) && Stopping(s)
    ensures Enabled(s, a) && Essential(a)
    ensures a != OfClient(Polling.WakePoller) && a != OfMetrics(MetricsLedger.WakeUp)
    ensures s.client.control.RaisingExit? ==> a == OfClient(Polling.StepStop)
    ensures Awake(s) ==> !Wakes(a)
  {
    if s.metrics.control.Raised? {
      a := OfMetrics(MetricsLedger.NotifySender);
    } else if s.metrics.control.Notified? && s.client.control.JoiningPoller? {
      if s.metrics.sender.Finished? {
        a := OfMetrics(MetricsLedger.JoinSender);
      } else {
        var part := MetricsShutdown.SenderCanStep(s.metrics);
        a := OfMetrics(part);
      }
    } else {
      var step := ClientShutdown.StopProgresses(s.client);
      a := OfClient(step);
    }
  }

  ghost predicate Stopped(s: State) {
    && s.client.control.Idle? && !s.client.running && s.client.exitThreads && !s.client.handlerStarted
    && s.client.poller.Absent? && s.metrics.sender.Absent?
  }

  ghost predicate Unwoken(steps: seq<Action>) {
    forall i :: 0 <= i < |steps| ==> !Wakes(steps[i])
  }

  lemma StopStepLeads(s: State, a: Action)
    requires Invariant(s) && Stopping(s) && Enabled(s, a) && (s.client.exitThreads || s.client.control.RaisingExit?)
    requires s.client.control.RaisingExit? ==> a == OfClient(Polling.StepStop)
    ensures Stopping(Next(s, a)) || Stopped(Next(s, a))
  {
    if a == OfClient(Polling.StepStop) {
      ClientShutdown.StopStepShrinks(s.client);
      InvariantStep(s, a);
    } else if a.OfClient? {
      ClientShutdown.StoppingStep(s.client, a.step);
    }
  }

  lemma {:induction false} StopCompletesFrom(s: State) returns (steps: seq<Action>)
    requires Invariant(s) && Stopping(s)
    ensures IsRun(s, steps) && |steps| <= Work(s) && Stopped(After(s, steps))
    ensures s.client.exitThreads && Awake(s) ==> Unwoken(steps)
    decreases Work(s)
  {
    var a := StopProgresses(s);
    var t := Next(s, a);
    InvariantStep(s, a);
    StopStepLeads(s, a);
    if s.client.control.RaisingExit? {
      RaisingStep(s);
    } else {
      StoppingStep(s, a);
    }
    var rest: seq<Action> := [];
    if Stopping(t) {
      rest := StopCompletesFrom(t);
    }
    steps := [a] + rest;
    assert steps[1..] == rest;
  }

  /** From every reachable state inside stop() there is a schedule in which it returns with both threads joined. */
  lemma {:induction false} StopCompletes(
    s: State, cfg: Config, server: Polling.Server, c: ContextFields, cell: Stored, before: seq<Action>)
    returns (steps: seq<Action>)
    requires IsInitial(s, cfg, server, c, cell) && IsRun(s, before) && Stopping(After(s, before))
    ensures var t := After(s, before); IsRun(t, steps) && |steps| <= Work(t) && Stopped(After(t, steps))
  {
    InvariantRun(s, before);
    steps := StopCompletesFrom(After(s, before));
  }

  ghost predicate StopUnderWay(s: State, steps: seq<Action>)
    requires IsRun(s, steps)
    decreases |steps|
  {
    Stopping(s) && (steps == [] || StopUnderWay(Next(s, steps[0]), steps[1..]))
  }

  function EssentialSteps(steps: seq<Action>): nat {
    if steps == [] then 0 else (if Essential(steps[0]) then 1 else 0) + EssentialSteps(steps[1..])
  }

  lemma {:induction false} StoppingRun(s: State, steps: seq<Action>) returns (next: Action)
    requires Invariant(s) && s.client.exitThreads && IsRun(s, steps) && StopUnderWay(s, steps)
    ensures EssentialSteps(steps) + Work(After(s, steps)) <= Work(s)
    ensures Enabled(After(s, steps), next) && Essential(next)
    ensures next != OfClient(Polling.WakePoller) && next != OfMetrics(MetricsLedger.WakeUp)
    decreases |steps|
  {
    if steps == [] {
      next := StopProgresses(s);
    } else {
      StoppingStep(s, steps[0]);
      InvariantStep(s, steps[0]);
      next := StoppingRun(Next(s, steps[0]), steps[1..]);
    }
  }

  /**
   * Once stop() has raised the flag, no schedule whatever holds more than Work steps of stop(), the poller and
   * the sender before stop() returns, and at its end one of them is enabled: any scheduler that
   * runs these threads, and lets the timeouts come, lets stop() return.
   */
  lemma {:induction false} StopTerminates(
    s: State, cfg: Config, server: Polling.Server, c: ContextFields, cell: Stored,
    before: seq<Action>, steps: seq<Action>) returns (next: Action)
    requires IsInitial(s, cfg, server, c, cell) && IsRun(s, before) && After(s, before).client.exitThreads
    requires IsRun(After(s, before), steps) && StopUnderWay(After(s, before), steps)
    ensures var t := After(s, before); var u := After(t, steps);
            && EssentialSteps(steps) + Work(u) <= Work(t)
            && Enabled(u, next) && Essential(next)
            && next != OfClient(Polling.WakePoller) && next != OfMetrics(MetricsLedger.WakeUp)
  {
    InvariantRun(s, before);
    next := StoppingRun(After(s, before), steps);
  }

  // ---- exactly when stop() has to wait for a timeout ----

  /** stop() waits for its threads, and one of them is asleep or about to be. */
  ghost predicate Stuck(s: State) {
    && s.client.control.JoiningPoller?
    && (ClientShutdown.Asleep(s.client.poller)
        || (s.metrics.control.Notified? && MetricsShutdown.Dozing(s.metrics.sender)))
  }

  lemma StuckStep(s: State, a: Action)
    requires Stuck(s) && Enabled(s, a) && !Wakes(a)
    ensures Stuck(Next(s, a))
  {
    match a
    case OfClient(step) =>
      if ClientShutdown.Asleep(s.client.poller) {
        AsleepStep(s.client, step);
      } else {
        assert !OfControl(step);
        OthersKeepControl(s.client, step);
      }
    case OfMetrics(_) =>
  }

  lemma AsleepStep(c: Polling.State, a: Polling.Action)
    requires c.control.JoiningPoller? && ClientShutdown.Asleep(c.poller)
    requires Polling.Enabled(c, a) && !ClientShutdown.Wakes(a)
    ensures var d := Polling.Next(c, a); d.control.JoiningPoller? && ClientShutdown.Asleep(d.poller)
  {
  }

  lemma {:induction false} StuckRun(s: State, steps: seq<Action>)
    requires Stuck(s) && IsRun(s, steps) && Unwoken(steps)
    ensures Stuck(After(s, steps))
    decreases |steps|
  {
    if steps != [] {
      assert !Wakes(steps[0]);
      StuckStep(s, steps[0]);
      StuckRun(Next(s, steps[0]), steps[1..]);
    }
  }

  ghost predicate ReturnsUnwoken(s: State, steps: seq<Action>) {
    IsRun(s, steps) && Unwoken(steps) && Stopped(After(s, steps))
  }

  /**
   * At every moment of the joins: stop() can return without a timeout, an accidental wakeup or an updater's
   * notification if and only if neither of its threads is asleep or past its last test before sleeping.
   */
  lemma {:induction false} ReturnsUnwokenIff(
    s: State, cfg: Config, server: Polling.Server, c: ContextFields, cell: Stored, before: seq<Action>)
    requires IsInitial(s, cfg, server, c, cell) && IsRun(s, before)
    requires After(s, before).client.control.JoiningPoller?
    ensures (exists steps :: ReturnsUnwoken(After(s, before), steps)) <==> Awake(After(s, before))
  {
    InvariantRun(s, before);
    var t := After(s, before);
    if Awake(t) {
      var steps := StopCompletesFrom(t);
      assert ReturnsUnwoken(t, steps);
    } else {
      forall steps | IsRun(t, steps) && Unwoken(steps) ensures !Stopped(After(t, steps)) {
        StuckRun(t, steps);
      }
    }
  }
}
