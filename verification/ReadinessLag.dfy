/** Exactly when a client that holds toggles is not yet ready, and when its store is not. */
module ReadinessLag {
  import opened ClientConfig
  import opened Context
  import opened Store
  import opened Polling
  import opened ClientLifecycle

  predicate StartsWithToggles(cfg: Config, cell: Stored) {
    HasStoredToggles(cell) || UsesBootstrap(cfg)
  }

  // ---- a client that starts with toggles ----

  /** start() was never called: only a stop leaves an idle client behind with the exit flag up. */
  predicate NeverStarted(s: State) {
    s.control.Idle? && !s.running && !s.exitThreads
  }

  /** Never started, or in the first start and not beyond the assignment of the ready flag. */
  predicate NotYetMarked(s: State) {
    || NeverStarted(s)
    || (!s.exitThreads
        && (s.control.EmittingInit? || s.control.TestingStore? || s.control.EmittingReady? || s.control.SettingReady?))
  }

  ghost predicate MarkedInStart(s: State) {
    s.store.ready && (s.ready <==> !NotYetMarked(s))
  }

  /** Steps that leave all that these predicates speak of as it is, but for a flag that is up already. */
  ghost predicate SameMarks(s: State, t: State) {
    && t.control == s.control && t.running == s.running && t.exitThreads == s.exitThreads
    && (s.store.ready ==> t.store.ready) && (s.ready ==> t.ready)
    && (s.poller.Absent? ==> t.ready == s.ready)
  }

  lemma PublishKeepsMarks(s: State)
    requires InPublish(s.poller)
    ensures SameMarks(s, PublishStep(s))
  {
  }

  lemma FetchKeepsMarks(s: State)
    requires InFetch(s.poller)
    ensures SameMarks(s, FetchStep(s))
  {
  }

  lemma WaitKeepsMarks(s: State)
    requires InWait(s.poller)
    ensures SameMarks(s, WaitStep(s))
  {
  }

  lemma OthersKeepMarks(s: State, a: Action)
    requires Enabled(s, a) && !a.StepStart? && !a.StepStop? && !a.CallStart? && !a.CallStop?
    ensures SameMarks(s, Next(s, a))
  {
    match a
    case StepFetch => FetchKeepsMarks(s);
    case StepPublish => PublishKeepsMarks(s);
    case StepWait => WaitKeepsMarks(s);
    case Receive(_) =>
    case EmitImpression(_) =>
    case _ =>
  }

  lemma StartMarks(s: State)
    requires ClientInvariant(s) && MarkedInStart(s) && InStart(s.control)
    ensures MarkedInStart(StartStep(s))
  {
  }

  lemma StopMarks(s: State)
    requires ClientInvariant(s) && MarkedInStart(s) && CanStepStop(s)
    ensures MarkedInStart(StopStep(s))
  {
  }

  lemma MarkedStep(s: State, a: Action)
    requires ClientInvariant(s) && MarkedInStart(s) && Enabled(s, a)
    ensures MarkedInStart(Next(s, a))
  {
    if a.StepStart? {
      StartMarks(s);
    } else if a.StepStop? {
      StopMarks(s);
    } else if !a.CallStart? && !a.CallStop? {
      OthersKeepMarks(s, a);
    }
  }

  lemma {:induction false} MarkedRun(s: State, steps: seq<Action>)
    requires ClientInvariant(s) && MarkedInStart(s) && IsRun(s, steps)
    ensures MarkedInStart(After(s, steps))
    decreases |steps|
  {
    if steps != [] {
      InvariantStep(s, steps[0]);
      MarkedStep(s, steps[0]);
      MarkedRun(Next(s, steps[0]), steps[1..]);
    }
  }

  lemma NeverStartedStep(s: State, a: Action)
    requires ClientInvariant(s) && Enabled(s, a)
    ensures NeverStarted(Next(s, a)) <==> NeverStarted(s) && !a.CallStart?
  {
    if !a.StepStart? && !a.StepStop? && !a.CallStart? && !a.CallStop? {
      OthersKeepMarks(s, a);
    }
  }

  lemma {:induction false} NeverStartedRun(s: State, steps: seq<Action>)
    requires ClientInvariant(s) && IsRun(s, steps)
    ensures NeverStarted(After(s, steps)) <==> NeverStarted(s) && CallStart !in steps
    decreases |steps|
  {
    if steps != [] {
      InvariantStep(s, steps[0]);
      NeverStartedStep(s, steps[0]);
      NeverStartedRun(Next(s, steps[0]), steps[1..]);
      assert CallStart in steps <==> steps[0] == CallStart || CallStart in steps[1..];
    }
  }

  // ---- a client that starts without ----

  /** The first publication makes the second version, and sets the store's flag, then the client's. */
  ghost predicate MarkedByPoll(s: State) {
    var n := |s.past.versions|;
    && n >= 1
    && (n == 1 ==> s.store.snapshot == map[] && !s.poller.MarkingStore? && !s.poller.MarkingReady?)
    && (s.store.ready <==> n > 2 || (n == 2 && !s.poller.MarkingStore?))
    && (s.ready <==> n > 2 || (n == 2 && !s.poller.MarkingStore? && !s.poller.MarkingReady?))
  }

  /** Steps outside the publication. */
  ghost predicate SamePublication(s: State, t: State) {
    && t.store == s.store && t.past.versions == s.past.versions && t.ready == s.ready
    && t.poller.MarkingStore? == s.poller.MarkingStore? && t.poller.MarkingReady? == s.poller.MarkingReady?
  }

  lemma StartIsNoPublication(s: State)
    requires ClientInvariant(s) && MarkedByPoll(s) && InStart(s.control)
    ensures SamePublication(s, StartStep(s))
  {
  }

  lemma StopIsNoPublication(s: State)
    requires CanStepStop(s)
    ensures SamePublication(s, StopStep(s))
  {
  }

  lemma WaitIsNoPublication(s: State)
    requires InWait(s.poller)
    ensures SamePublication(s, WaitStep(s))
  {
  }

  lemma PublicationMarks(s: State)
    requires MarkedByPoll(s) && InPublish(s.poller)
    ensures MarkedByPoll(PublishStep(s))
  {
  }

  lemma OthersAreNoPublication(s: State, a: Action)
    requires ClientInvariant(s) && MarkedByPoll(s) && Enabled(s, a) && !a.StepPublish?
    ensures SamePublication(s, Next(s, a))
  {
    match a
    case StepStart => StartIsNoPublication(s);
    case StepStop => StopIsNoPublication(s);
    case StepWait => WaitIsNoPublication(s);
    case StepFetch =>
    case Receive(_) =>
    case _ =>
  }

  lemma {:induction false} MarkedByPollRun(s: State, steps: seq<Action>)
    requires ClientInvariant(s) && MarkedByPoll(s) && IsRun(s, steps)
    ensures MarkedByPoll(After(s, steps))
    decreases |steps|
  {
    if steps != [] {
      var a := steps[0];
      InvariantStep(s, a);
      if a.StepPublish? {
        PublicationMarks(s);
      } else {
        OthersAreNoPublication(s, a);
      }
      MarkedByPollRun(Next(s, a), steps[1..]);
    }
  }

  // ---- the two flags ----

  /**
   * Exactly when isReady() is false although the store is ready. A client that starts with toggles: until
   * its first start() sets the flag, and so between calls exactly as long as start() was never called. Any
   * other: between the two assignments of its first publication.
   */
  lemma {:induction false} ReadyLagsStoreIff(
    s: State, cfg: Config, server: Server, c: ContextFields, cell: Stored, steps: seq<Action>)
    requires IsInitial(s, cfg, server, c, cell) && IsRun(s, steps)
    ensures var t := After(s, steps);
            && (t.store.ready && !t.ready <==>
                  if StartsWithToggles(cfg, cell) then NotYetMarked(t)
                  else t.poller.MarkingReady? && |t.past.versions| == 2)
            && (t.control.Idle? ==> (NotYetMarked(t) <==> CallStart !in steps))
  {
    NeverStartedRun(s, steps);
    if StartsWithToggles(cfg, cell) {
      MarkedRun(s, steps);
    } else {
      MarkedByPollRun(s, steps);
    }
  }

  /**
   * Exactly when the two stores of a replacement can be told apart: the snapshot is there and the store is
   * not ready only between them, in the first publication of a client that starts without toggles.
   */
  lemma {:induction false} ReplaceIsSeenHalfDoneIff(
    s: State, cfg: Config, server: Server, c: ContextFields, cell: Stored, steps: seq<Action>)
    requires IsInitial(s, cfg, server, c, cell) && IsRun(s, steps)
    ensures var t := After(s, steps);
            t.store.snapshot != map[] && !t.store.ready <==>
              !StartsWithToggles(cfg, cell) && t.poller.MarkingStore? && |t.past.versions| == 2
  {
    InvariantRun(s, steps);
    if StartsWithToggles(cfg, cell) {
      MarkedRun(s, steps);
    } else {
      MarkedByPollRun(s, steps);
    }
  }
}
