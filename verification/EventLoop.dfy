/**
 * The event handler under concurrency: any number of emitters, one dispatch thread, and start and
 * stop calls made one after the other. Every step is one atomic action of one thread; a schedule is
 * any sequence of enabled steps. The queue mutex is held across steps only by the dispatcher.
 */
module EventLoop {
  import opened Wrappers
  import opened EventHandler

  /** Emitters are application threads, and the callback that the dispatcher is running. */
  datatype Emitter = Application(id: nat) | Callback

  /** Where an emitter stands; one that is not emitting has no entry. */
  datatype EmitPc = PastCheck(event: Event) | Captured(task: Task) | OwesNotify

  datatype ControlPc = Idle | Spawning | Dropping | Notifying | Joining

  datatype DispatcherPc =
    | Absent
    | TestingStarted
    | Locking
    | Evaluating
    | AboutToBlock
    | Blocked
    | Draining
    | Running(task: Task)
    | Relocking
    | Exited

  /** What became of an accepted task that has left the queue. */
  datatype Fate = Ran | Dropped

  datatype State = State(
    shared: Shared,
    control: ControlPc,
    dispatcher: DispatcherPc,
    emitters: map<Emitter, EmitPc>,
    // history
    accepted: seq<Task>,
    fates: seq<Fate>,
    executed: seq<Task>,
    refused: nat,
    registered: set<(Kind, nat)>)

  datatype Action =
    | SetCallback(kind: Kind, callback: Option<nat>)
    // start and stop
    | StartExchange
    | Spawn
    | StopExchange
    | DropQueue
    | NotifyAll
    | Join
    // emitters
    | CheckStarted(who: Emitter, event: Event)
    | Capture(who: Emitter)
    | LockedPush(who: Emitter)
    | NotifyOne(who: Emitter)
    // dispatcher
    | TestStarted
    | Lock
    | EvaluatePredicate
    | Block
    | WakeSpuriously
    | Drain
    | FinishTask(throws: bool)
    | Relock

  // ---- the steps ----

  predicate HoldsLock(d: DispatcherPc) {
    d.Evaluating? || d.AboutToBlock? || d.Draining?
  }

  predicate At(s: State, who: Emitter, pc: EmitPc) {
    who in s.emitters && s.emitters[who] == pc
  }

  predicate Enabled(s: State, a: Action) {
    match a
    case SetCallback(_, _) => true
    case StartExchange => s.control.Idle?
    case Spawn => s.control.Spawning?
    case StopExchange => s.control.Idle?
    case DropQueue => s.control.Dropping? && !HoldsLock(s.dispatcher)
    case NotifyAll => s.control.Notifying?
    case Join => s.control.Joining? && s.dispatcher.Exited?
    case CheckStarted(who, _) => who !in s.emitters && (who.Callback? ==> s.dispatcher.Running?)
    case Capture(who) => who in s.emitters && s.emitters[who].PastCheck?
    case LockedPush(who) => who in s.emitters && s.emitters[who].Captured? && !HoldsLock(s.dispatcher)
    case NotifyOne(who) => At(s, who, OwesNotify)
    case TestStarted => s.dispatcher.TestingStarted?
    case Lock => s.dispatcher.Locking?
    case EvaluatePredicate => s.dispatcher.Evaluating?
    case Block => s.dispatcher.AboutToBlock?
    case WakeSpuriously => s.dispatcher.Blocked?
    case Drain => s.dispatcher.Draining?
    case FinishTask(_) => s.dispatcher.Running? && Callback !in s.emitters
    case Relock => s.dispatcher.Relocking?
  }

  function Wake(d: DispatcherPc): DispatcherPc {
    if d.Blocked? then Locking else d
  }

  function Next(s: State, a: Action): State
    requires Enabled(s, a)
  {
    match a
    case SetCallback(kind, callback) =>
      s.(shared := Register(s.shared, kind, callback),
         registered := if callback.Some? then s.registered + {(kind, callback.value)} else s.registered)
    case StartExchange =>
      if s.shared.started then s else s.(shared := s.shared.(started := true), control := Spawning)
    case Spawn => s.(dispatcher := TestingStarted, control := Idle)
    case StopExchange =>
      if !s.shared.started then s else s.(shared := s.shared.(started := false), control := Dropping)
    case DropQueue =>
      s.(shared := DropPending(s.shared), control := Notifying,
         fates := s.fates + seq(|s.shared.queue|, _ => Dropped))
    case NotifyAll => s.(dispatcher := Wake(s.dispatcher), control := Joining)
    case Join => s.(dispatcher := Absent, control := Idle)
    case CheckStarted(who, event) =>
      if s.shared.started then s.(emitters := s.emitters[who := PastCheck(event)]) else s
    case Capture(who) =>
      var event := s.emitters[who].event;
      if event.Kind() in s.shared.callbacks
      then s.(emitters := s.emitters[who := Captured(Task(s.shared.callbacks[event.Kind()], event))])
      else s.(emitters := s.emitters - {who})
    case LockedPush(who) =>
      var task := s.emitters[who].task;
      var after := s.(shared := Push(s.shared, task), emitters := s.emitters[who := OwesNotify]);
      if HasRoom(s.shared) then after.(accepted := s.accepted + [task]) else after.(refused := s.refused + 1)
    case NotifyOne(who) => s.(dispatcher := Wake(s.dispatcher), emitters := s.emitters - {who})
    case TestStarted => s.(dispatcher := if s.shared.started then Locking else Exited)
    case Lock => s.(dispatcher := Evaluating)
    case EvaluatePredicate =>
      s.(dispatcher := if s.shared.queue != [] || !s.shared.started then Draining else AboutToBlock)
    case Block => s.(dispatcher := Blocked)
    case WakeSpuriously => s.(dispatcher := Locking)
    case Drain =>
      if s.shared.queue == [] then s.(dispatcher := TestingStarted)
      else s.(shared := Pop(s.shared), dispatcher := Running(s.shared.queue[0]), fates := s.fates + [Ran])
    case FinishTask(_) => s.(dispatcher := Relocking, executed := s.executed + [s.dispatcher.task])
    case Relock => s.(dispatcher := Draining)
  }

  const INITIAL := State(Shared(false, [], map[]), Idle, Absent, map[], [], [], [], 0, {})

  predicate IsRun(s: State, steps: seq<Action>)
    decreases |steps|
  {
    steps == [] || (Enabled(s, steps[0]) && IsRun(Next(s, steps[0]), steps[1..]))
  }

  function After(s: State, steps: seq<Action>): State
    requires IsRun(s, steps)
    decreases |steps|
  {
    if steps == [] then s else After(Next(s, steps[0]), steps[1..])
  }

  // ---- no lost wakeup ----

  ghost predicate SomeoneOwesNotify(s: State) {
    exists who :: At(s, who, OwesNotify)
  }

  ghost predicate ThreadsAgree(s: State) {
    && (s.control.Idle? && s.shared.started ==> !s.dispatcher.Absent? && !s.dispatcher.Exited?)
    && (s.control.Idle? && !s.shared.started ==> s.dispatcher.Absent?)
    && (s.control.Spawning? ==> s.shared.started && s.dispatcher.Absent?)
    && (s.control.Dropping? || s.control.Notifying? || s.control.Joining? ==>
          !s.shared.started && !s.dispatcher.Absent?)
    && (Callback in s.emitters ==> s.dispatcher.Running?)
  }

  /** The dispatcher decided to block under the lock, so only the unlocked store can have come since. */
  ghost predicate BlockIsJustified(s: State) {
    s.dispatcher.AboutToBlock? ==> s.shared.queue == [] && (s.shared.started || s.control.Dropping?)
  }

  ghost predicate WakeupIsOwed(s: State) {
    s.dispatcher.Blocked? ==>
      && (s.shared.queue != [] ==> SomeoneOwesNotify(s))
      && (!s.shared.started ==> s.control.Dropping? || s.control.Notifying?)
  }

  ghost predicate WakeupInvariant(s: State) {
    && ThreadsAgree(s) && BlockIsJustified(s) && WakeupIsOwed(s)
    && |s.shared.queue| <= MAX_EVENT_QUEUE_SIZE
  }

  lemma WakeupStep(s: State, a: Action)
    requires WakeupInvariant(s) && Enabled(s, a)
    ensures WakeupInvariant(Next(s, a))
  {
    var t := Next(s, a);
    if t.dispatcher.Blocked? && t.shared.queue != [] {
      if a.LockedPush? {
        assert At(t, a.who, OwesNotify);
      } else {
        assert s.dispatcher.Blocked? && s.shared.queue != [];
        var who :| At(s, who, OwesNotify);
        assert At(t, who, OwesNotify);
      }
    }
  }

  lemma {:induction false} WakeupRun(s: State, steps: seq<Action>)
    requires WakeupInvariant(s) && IsRun(s, steps)
    ensures WakeupInvariant(After(s, steps))
    decreases |steps|
  {
    if steps != [] {
      WakeupStep(s, steps[0]);
      WakeupRun(Next(s, steps[0]), steps[1..]);
    }
  }

  /** A dispatcher that sleeps although it has work, or although it should exit, is about to be notified. */
  lemma NoLostWakeup(steps: seq<Action>)
    requires IsRun(INITIAL, steps)
    ensures var s := After(INITIAL, steps);
            s.dispatcher.Blocked? && (s.shared.queue != [] || !s.shared.started) ==>
              SomeoneOwesNotify(s) || s.control.Dropping? || s.control.Notifying?
  {
    WakeupRun(INITIAL, steps);
  }

  // ---- exact accounting ----

  /** The accepted tasks that were not dropped, in acceptance order. */
  function Surviving(accepted: seq<Task>, fates: seq<Fate>): seq<Task>
    requires |fates| <= |accepted|
  {
    if accepted == [] then []
    else
      var n := |accepted| - 1;
      if |fates| == |accepted| then
        Surviving(accepted[..n], fates[..n]) + (if fates[n].Ran? then [accepted[n]] else [])
      else Surviving(accepted[..n], fates) + [accepted[n]]
  }

  function InProgress(s: State): seq<Task> {
    if s.dispatcher.Running? then [s.dispatcher.task] else []
  }

  ghost predicate Accounted(s: State) {
    && |s.fates| + |s.shared.queue| == |s.accepted|
    && s.shared.queue == s.accepted[|s.fates|..]
    && s.executed + InProgress(s) == Surviving(s.accepted[..|s.fates|], s.fates)
  }

  lemma {:induction false} SurvivingPending(accepted: seq<Task>, fates: seq<Fate>)
    requires |fates| <= |accepted|
    ensures Surviving(accepted, fates) == Surviving(accepted[..|fates|], fates) + accepted[|fates|..]
  {
    var n := |accepted| - 1;
    if |fates| == |accepted| {
      assert accepted[..|fates|] == accepted;
    } else {
      SurvivingPending(accepted[..n], fates);
      assert accepted[..n][..|fates|] == accepted[..|fates|];
      assert accepted[|fates|..] == accepted[..n][|fates|..] + [accepted[n]];
    }
  }

  /** Nothing survives twice. */
  lemma {:induction false} SurvivorsWereAccepted(accepted: seq<Task>, fates: seq<Fate>)
    requires |fates| <= |accepted|
    ensures multiset(Surviving(accepted, fates)) <= multiset(accepted)
  {
    if accepted != [] {
      var n := |accepted| - 1;
      var front := accepted[..n];
      SurvivorsWereAccepted(front, if |fates| == |accepted| then fates[..n] else fates);
      assert accepted == front + [accepted[n]];
      assert multiset(accepted) == multiset(front) + multiset{accepted[n]};
    }
  }

  /** And everything does if nothing was dropped. */
  lemma {:induction false} AllSurvive(accepted: seq<Task>, fates: seq<Fate>)
    requires |fates| <= |accepted| && forall i :: 0 <= i < |fates| ==> fates[i].Ran?
    ensures Surviving(accepted, fates) == accepted
  {
    if accepted != [] {
      var n := |accepted| - 1;
      AllSurvive(accepted[..n], if |fates| == |accepted| then fates[..n] else fates);
      assert accepted == accepted[..n] + [accepted[n]];
    }
  }

  lemma SurvivorsAre(accepted: seq<Task>, fates: seq<Fate>)
    requires |fates| <= |accepted|
    ensures multiset(Surviving(accepted, fates)) <= multiset(accepted)
    ensures Dropped !in fates ==> Surviving(accepted, fates) == accepted
  {
    SurvivorsWereAccepted(accepted, fates);
    if Dropped !in fates {
      forall i | 0 <= i < |fates| ensures fates[i].Ran? {
        assert fates[i] in fates;
      }
      AllSurvive(accepted, fates);
    }
  }

  lemma {:induction false} DroppingKeepsSurvivors(decided: seq<Task>, fates: seq<Fate>, pending: seq<Task>)
    requires |decided| == |fates|
    ensures Surviving(decided + pending, fates + seq(|pending|, _ => Dropped)) == Surviving(decided, fates)
  {
    if pending == [] {
      assert decided + pending == decided && fates + seq(|pending|, _ => Dropped) == fates;
    } else {
      var n := |pending| - 1;
      DroppingKeepsSurvivors(decided, fates, pending[..n]);
      var all, marks := decided + pending, fates + seq(|pending|, _ => Dropped);
      assert all[..|all| - 1] == decided + pending[..n];
      assert marks[..|marks| - 1] == fates + seq(n, _ => Dropped);
    }
  }

  lemma AccountingOfDrop(s: State)
    requires Accounted(s) && Enabled(s, DropQueue)
    ensures Accounted(Next(s, DropQueue))
  {
    var n, t := |s.fates|, Next(s, DropQueue);
    DroppingKeepsSurvivors(s.accepted[..n], s.fates, s.shared.queue);
    assert s.accepted[..n] + s.shared.queue == s.accepted == s.accepted[..|t.fates|];
  }

  lemma AccountingOfDrain(s: State)
    requires Accounted(s) && Enabled(s, Drain)
    ensures Accounted(Next(s, Drain))
  {
    var n, t := |s.fates|, Next(s, Drain);
    if s.shared.queue != [] {
      assert t.accepted[..n + 1][..n] == s.accepted[..n];
      assert t.fates[..n] == s.fates;
      assert s.executed + [] == s.executed;
      assert s.accepted[n] == s.shared.queue[0];
    }
  }

  lemma AccountingStep(s: State, a: Action)
    requires WakeupInvariant(s) && Accounted(s) && Enabled(s, a)
    ensures Accounted(Next(s, a))
  {
    var t := Next(s, a);
    match a
    case DropQueue => AccountingOfDrop(s);
    case Drain => AccountingOfDrain(s);
    case LockedPush(who) =>
      assert t.accepted[..|s.fates|] == s.accepted[..|s.fates|];
    case FinishTask(_) =>
      assert t.executed + [] == s.executed + [s.dispatcher.task];
    case _ =>
      assert InProgress(t) == InProgress(s);
  }

  lemma {:induction false} AccountingRun(s: State, steps: seq<Action>)
    requires WakeupInvariant(s) && Accounted(s) && IsRun(s, steps)
    ensures Accounted(After(s, steps))
    decreases |steps|
  {
    if steps != [] {
      WakeupStep(s, steps[0]);
      AccountingStep(s, steps[0]);
      AccountingRun(Next(s, steps[0]), steps[1..]);
    }
  }

  /**
   * What was executed, then what is running, then what is queued is exactly what was accepted and
   * not dropped, in acceptance order; so each accepted task runs at most once, even when one throws.
   */
  lemma ExactAccounting(steps: seq<Action>)
    requires IsRun(INITIAL, steps)
    ensures var s := After(INITIAL, steps);
            && |s.fates| <= |s.accepted|
            && s.executed + InProgress(s) + s.shared.queue == Surviving(s.accepted, s.fates)
            && multiset(s.executed + InProgress(s) + s.shared.queue) <= multiset(s.accepted)
            && (Dropped !in s.fates ==> s.executed + InProgress(s) + s.shared.queue == s.accepted)
            && |s.shared.queue| <= 30
  {
    assert Accounted(INITIAL);
    WakeupRun(INITIAL, steps);
    AccountingRun(INITIAL, steps);
    var s := After(INITIAL, steps);
    SurvivingPending(s.accepted, s.fates);
    SurvivorsAre(s.accepted, s.fates);
    assert s.executed + InProgress(s) + s.shared.queue == Surviving(s.accepted, s.fates);
  }

  /** A task is refused exactly when the queue holds thirty. */
  lemma RefusedOnlyWhenFull(steps: seq<Action>, who: Emitter)
    requires IsRun(INITIAL, steps) && Enabled(After(INITIAL, steps), LockedPush(who))
    ensures var s := After(INITIAL, steps); var t := Next(s, LockedPush(who));
            && (t.refused == s.refused + 1 <==> |s.shared.queue| == 30)
            && (t.refused == s.refused <==> t.accepted == s.accepted + [s.emitters[who].task])
  {
    WakeupRun(INITIAL, steps);
    var s := After(INITIAL, steps);
    assert |s.accepted + [s.emitters[who].task]| == |s.accepted| + 1;
  }

  // ---- whose callback a task runs ----

  ghost predicate Registered(s: State, t: Task) {
    (t.event.Kind(), t.callback) in s.registered
  }

  ghost predicate CallbacksFit(s: State) {
    && (forall k :: k in s.shared.callbacks ==> (k, s.shared.callbacks[k]) in s.registered)
    && (forall who :: who in s.emitters && s.emitters[who].Captured? ==> Registered(s, s.emitters[who].task))
    && (forall i :: 0 <= i < |s.shared.queue| ==> Registered(s, s.shared.queue[i]))
    && (s.dispatcher.Running? ==> Registered(s, s.dispatcher.task))
    && (forall i :: 0 <= i < |s.executed| ==> Registered(s, s.executed[i]))
  }

  lemma CallbacksFitStep(s: State, a: Action)
    requires CallbacksFit(s) && Enabled(s, a)
    ensures CallbacksFit(Next(s, a))
  {
  }

  lemma {:induction false} CallbacksFitRun(s: State, steps: seq<Action>)
    requires CallbacksFit(s) && IsRun(s, steps)
    ensures CallbacksFit(After(s, steps))
    decreases |steps|
  {
    if steps != [] {
      CallbacksFitStep(s, steps[0]);
      CallbacksFitRun(Next(s, steps[0]), steps[1..]);
    }
  }

  /** Every task that ran called a callback that had been registered for its own kind of event. */
  lemma TasksRunTheirOwnCallbacks(steps: seq<Action>, i: nat)
    requires IsRun(INITIAL, steps) && i < |After(INITIAL, steps).executed|
    ensures Registered(After(INITIAL, steps), After(INITIAL, steps).executed[i])
  {
    CallbacksFitRun(INITIAL, steps);
  }

  // ---- the class methods are these steps, run without interference ----

  /** An emit gives up at the started check, or for want of a callback, or goes on to push and notify. */
  function EmitSteps(s: Shared, who: Emitter, e: Event): seq<Action> {
    if !s.started then [CheckStarted(who, e)]
    else if e.Kind() !in s.callbacks then [CheckStarted(who, e), Capture(who)]
    else [CheckStarted(who, e), Capture(who), LockedPush(who), NotifyOne(who)]
  }

  lemma PushAndNotify(s: State, who: Emitter)
    requires who in s.emitters && s.emitters[who].Captured? && !HoldsLock(s.dispatcher)
    ensures var steps := [LockedPush(who), NotifyOne(who)];
            && IsRun(s, steps)
            && After(s, steps).shared == Push(s.shared, s.emitters[who].task)
            && After(s, steps).emitters == s.emitters - {who}
  {
    var s1 := Next(s, LockedPush(who));
    var s2 := Next(s1, NotifyOne(who));
    assert [LockedPush(who), NotifyOne(who)][1..] == [NotifyOne(who)];
    assert [NotifyOne(who)][1..] == [];
    assert After(s1, [NotifyOne(who)]) == s2;
    assert s2.emitters == s.emitters - {who};
  }

  /** Whether or not the handler is started and has a callback, the steps of an undisturbed emit are the method. */
  lemma EmitAloneIsItsSteps(s: State, who: Emitter, e: Event)
    requires Enabled(s, CheckStarted(who, e)) && !HoldsLock(s.dispatcher)
    ensures var steps := EmitSteps(s.shared, who, e);
            && IsRun(s, steps)
            && After(s, steps).shared == EmitAlone(s.shared, e)
            && After(s, steps).emitters == s.emitters
  {
    var steps := EmitSteps(s.shared, who, e);
    var s1 := Next(s, steps[0]);
    if !s.shared.started {
      assert steps[1..] == [];
    } else {
      assert s1 == s.(emitters := s.emitters[who := PastCheck(e)]);
      var s2 := Next(s1, Capture(who));
      assert s2.emitters - {who} == s.emitters;
      if e.Kind() !in s.shared.callbacks {
        assert steps[1..] == [Capture(who)] && [Capture(who)][1..] == [];
        assert After(s1, [Capture(who)]) == s2;
      } else {
        PushAndNotify(s2, who);
        assert steps[1..] == [Capture(who), LockedPush(who), NotifyOne(who)];
        assert steps[1..][1..] == [LockedPush(who), NotifyOne(who)];
        assert After(s1, steps[1..]) == After(s2, [LockedPush(who), NotifyOne(who)]);
      }
    }
  }

  /** A stop clears the flag and then empties the queue; one that finds the flag down does nothing. */
  lemma StopAloneIsItsSteps(s: State)
    requires s.control.Idle? && !HoldsLock(s.dispatcher)
    ensures var steps := if s.shared.started then [StopExchange, DropQueue] else [StopExchange];
            && IsRun(s, steps)
            && After(s, steps).shared == StopAlone(s.shared)
            && !After(s, steps).shared.started
            && After(s, steps).shared.queue == (if s.shared.started then [] else s.shared.queue)
            && After(s, steps).shared.callbacks == s.shared.callbacks
  {
    var s1 := Next(s, StopExchange);
    if s.shared.started {
      var s2 := Next(s1, DropQueue);
      assert [StopExchange, DropQueue][1..] == [DropQueue] && [DropQueue][1..] == [];
      assert After(s1, [DropQueue]) == s2;
    } else {
      assert [StopExchange][1..] == [];
    }
  }

  /** A start raises the flag and then creates the dispatcher, and touches neither queue nor callbacks. */
  lemma StartAloneIsItsSteps(s: State)
    requires s.control.Idle?
    ensures var steps := if s.shared.started then [StartExchange] else [StartExchange, Spawn];
            && IsRun(s, steps)
            && After(s, steps).shared == s.shared.(started := true)
            && After(s, steps).dispatcher == (if s.shared.started then s.dispatcher else TestingStarted)
  {
    var s1 := Next(s, StartExchange);
    if s.shared.started {
      assert [StartExchange][1..] == [];
    } else {
      var s2 := Next(s1, Spawn);
      assert [StartExchange, Spawn][1..] == [Spawn] && [Spawn][1..] == [];
      assert After(s1, [Spawn]) == s2;
    }
  }

  /** The schedule in which a dispatcher that holds the lock works off its queue undisturbed. */
  function DrainSteps(n: nat): seq<Action> {
    if n == 0 then [] else [Drain, FinishTask(false), Relock] + DrainSteps(n - 1)
  }

  /** One step in front of a run. */
  lemma Before(s: State, a: Action, rest: seq<Action>) returns (steps: seq<Action>)
    requires Enabled(s, a) && IsRun(Next(s, a), rest)
    ensures steps == [a] + rest && IsRun(s, steps) && After(s, steps) == After(Next(s, a), rest)
  {
    steps := [a] + rest;
    assert steps[1..] == rest;
  }

  /** The dispatcher, holding the lock, runs the first task and takes the lock again. */
  lemma OneTaskRuns(s: State) returns (t: State)
    requires s.dispatcher.Draining? && Callback !in s.emitters && s.shared.queue != []
    ensures t == s.(shared := Pop(s.shared), fates := s.fates + [Ran], executed := s.executed + [s.shared.queue[0]])
    ensures forall rest :: IsRun(t, rest) ==>
              var steps := [Drain, FinishTask(false), Relock] + rest;
              IsRun(s, steps) && After(s, steps) == After(t, rest)
  {
    var s1 := Next(s, Drain);
    var s2 := Next(s1, FinishTask(false));
    t := Next(s2, Relock);
    forall rest | IsRun(t, rest)
      ensures var steps := [Drain, FinishTask(false), Relock] + rest;
              IsRun(s, steps) && After(s, steps) == After(t, rest)
    {
      var steps := Before(s2, Relock, rest);
      steps := Before(s1, FinishTask(false), steps);
      steps := Before(s, Drain, steps);
      assert steps == [Drain, FinishTask(false), Relock] + rest;
    }
  }

  lemma {:induction false} RunPendingIsItsSteps(s: State)
    requires s.dispatcher.Draining? && Callback !in s.emitters
    ensures var steps := DrainSteps(|s.shared.queue|);
            && IsRun(s, steps)
            && After(s, steps).shared == DropPending(s.shared)
            && After(s, steps).executed == s.executed + s.shared.queue
            && After(s, steps).dispatcher.Draining?
    decreases |s.shared.queue|
  {
    var q := s.shared.queue;
    if q == [] {
      assert s.executed + q == s.executed;
    } else {
      var t := OneTaskRuns(s);
      RunPendingIsItsSteps(t);
      assert s.executed + q == t.executed + t.shared.queue;
      assert DrainSteps(|q|) == [Drain, FinishTask(false), Relock] + DrainSteps(|t.shared.queue|);
    }
  }
}
