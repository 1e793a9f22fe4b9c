/** Readiness, the Ready event and context updates, over whole runs of the client. */
module ClientLifecycle {
  import opened Wrappers
  import opened JsonCodec
  import opened ClientConfig
  import opened Context
  import opened EventHandler
  import opened ToggleFetcher
  import opened Store
  import opened Polling

  // ---- invariants of every step ----

  ghost predicate Readiness(s: State) {
    && (s.ready ==> s.store.ready)
    && (s.store.ready ==> s.store.snapshot != map[])
    && (InTransit(s.poller) ==> s.poller.fetched != map[])
    && (s.poller.MarkingStore? ==> s.store.snapshot != map[])
    && (s.poller.MarkingReady? || s.poller.AnnouncingReady? || s.poller.AnnouncingUpdate? ==> s.store.ready)
    && (s.control.EmittingReady? || s.control.SettingReady? ==> s.store.ready)
  }

  /** start() before it starts the event handler. */
  predicate Starting(c: ControlPc) {
    InStart(c) && !c.SpawningPoller? && !c.MarkingRunning?
  }

  /** The flags and the threads agree with the progress of start and stop. */
  ghost predicate Lifecycle(s: State) {
    && (s.control.Idle? ==> s.running == s.handlerStarted == !s.poller.Absent?)
    && (s.control.Idle? && s.running ==> !s.exitThreads)
    && (Starting(s.control) ==> !s.handlerStarted && s.poller.Absent?)
    && (s.control.SpawningPoller? ==> s.handlerStarted && s.poller.Absent? && !s.exitThreads)
    && (s.control.StartingHandler? ==> !s.exitThreads)
    && (s.control.MarkingRunning? ==> s.handlerStarted && !s.poller.Absent? && !s.exitThreads)
    && (s.control.RaisingExit? ==> s.handlerStarted && !s.poller.Absent? && !s.exitThreads)
    && (s.control.NotifyingPoller? || s.control.JoiningPoller? ==>
          s.handlerStarted && !s.poller.Absent? && s.exitThreads)
    && (s.control.StoppingHandler? ==> s.handlerStarted && s.poller.Absent? && s.exitThreads)
    && (s.control.ClearingRunning? ==> !s.handlerStarted && s.poller.Absent? && s.exitThreads)
    && (!s.poller.Absent? ==> s.handlerStarted)
  }

  ghost predicate UpdatesKept(s: State) {
    && (s.past.taken.Some? ==> s.contextUpdated || s.past.taken == Some(s.context))
    && (s.poller.AboutToBlock? ==> !s.contextUpdated)
    && (s.poller.Blocked? && s.contextUpdated ==> s.updaters != {})
  }

  predicate PollingHasBegun(pc: PollerPc) {
    !pc.Absent? && !pc.Entering? && !pc.TakingInitial? && !pc.Finished?
  }

  /** The context in the poller's hands on the way to a fetch, or else the one last fetched for. */
  function Served(s: State): Option<ContextFields> {
    if s.poller.Fetching? || s.poller.Rechecking? then Some(s.poller.context) else s.past.fetchedFor
  }

  ghost predicate UpdatesReachServer(s: State) {
    PollingHasBegun(s.poller) && !s.exitThreads ==> s.contextUpdated || Served(s) == Some(s.context)
  }

  /** The poller sleeps through stop only if it was about to fall asleep when notified. */
  ghost predicate SleepExplained(s: State) {
    s.control.JoiningPoller? && (s.poller.AboutToBlock? || s.poller.Blocked?) ==> s.past.notifyMissed
  }

  ghost predicate ClientInvariant(s: State) {
    Readiness(s) && Lifecycle(s) && UpdatesKept(s) && UpdatesReachServer(s) && SleepExplained(s)
  }

  lemma InvariantUnderStart(s: State)
    requires ClientInvariant(s) && InStart(s.control)
    ensures ClientInvariant(StartStep(s))
  {
  }

  lemma InvariantUnderStop(s: State)
    requires ClientInvariant(s) && CanStepStop(s)
    ensures ClientInvariant(StopStep(s))
  {
  }

  lemma InvariantUnderFetch(s: State)
    requires ClientInvariant(s) && InFetch(s.poller)
    ensures ClientInvariant(FetchStep(s))
  {
  }

  lemma InvariantUnderPublish(s: State)
    requires ClientInvariant(s) && InPublish(s.poller)
    ensures ClientInvariant(PublishStep(s))
  {
  }

  lemma InvariantUnderWait(s: State)
    requires ClientInvariant(s) && InWait(s.poller)
    ensures ClientInvariant(WaitStep(s))
  {
  }

  lemma InvariantUnderReply(s: State, reply: Reply)
    requires ClientInvariant(s) && s.poller.AwaitingReply?
    ensures ClientInvariant(AfterReply(s, reply))
  {
    ResultsWithoutError(reply);
  }

  lemma InvariantStep(s: State, a: Action)
    requires ClientInvariant(s) && Enabled(s, a)
    ensures ClientInvariant(Next(s, a))
  {
    match a
    case StepStart => InvariantUnderStart(s);
    case StepStop => InvariantUnderStop(s);
    case StepFetch => InvariantUnderFetch(s);
    case StepPublish => InvariantUnderPublish(s);
    case StepWait => InvariantUnderWait(s);
    case Receive(reply) => InvariantUnderReply(s, reply);
    case UpdateContext(updater, _) => assert updater in Next(s, a).updaters;
    case _ =>
  }

  lemma {:induction false} InvariantRun(s: State, steps: seq<Action>)
    requires ClientInvariant(s) && IsRun(s, steps)
    ensures ClientInvariant(After(s, steps))
    decreases |steps|
  {
    if steps != [] {
      InvariantStep(s, steps[0]);
      InvariantRun(Next(s, steps[0]), steps[1..]);
    }
  }

  // ---- what every step moves forward ----

  /** Fetches that a poller may still begin although the exit flag is up. */
  function FetchAllowance(pc: PollerPc): nat {
    if InFetch(pc) then 1 else 0
  }

  /** Steps left to the poller, once the exit flag is up. */
  function PollerRank(pc: PollerPc): nat {
    match pc
    case Absent => 0
    case Finished => 0
    case LoopTest => 1
    case Rechecking(_) => 1
    case Holding => 2
    case Taking => 2
    case TimedOut => 3
    case Evaluating => 3
    case Locking => 4
    case Blocked => 5
    case AboutToBlock => 6
    case AnnouncingUpdate => 2
    case AnnouncingError => 2
    case AnnouncingReady => 3
    case MarkingReady => 4
    case MarkingStore => 5
    case Publishing(_) => 6
    case Writing(_) => 7
    case Saving(_) => 8
    case AwaitingReply => 9
    case Fetching(_) => 10
    case TakingInitial => 11
    case Entering => 12
  }

  /** Ready flags stay up; with the exit flag up, the fetch budget and the distance to the end do not grow. */
  ghost predicate Forward(s: State, t: State) {
    && (s.ready ==> t.ready)
    && (s.store.ready ==> t.store.ready)
    && (s.exitThreads && t.exitThreads ==>
          && t.past.polls + FetchAllowance(t.poller) <= s.past.polls + FetchAllowance(s.poller)
          && PollerRank(t.poller) <= PollerRank(s.poller))
  }

  ghost predicate Nearer(s: State, t: State) {
    && Forward(s, t)
    && t.exitThreads == s.exitThreads && !t.poller.Absent?
    && (s.exitThreads ==> PollerRank(t.poller) < PollerRank(s.poller))
  }

  lemma StartIsForward(s: State)
    requires ClientInvariant(s) && InStart(s.control)
    ensures Forward(s, StartStep(s))
  {
  }

  lemma StopIsForward(s: State)
    requires CanStepStop(s)
    ensures Forward(s, StopStep(s))
  {
  }

  lemma FetchIsNearer(s: State)
    requires InFetch(s.poller)
    ensures Nearer(s, FetchStep(s))
  {
  }

  lemma PublishIsNearer(s: State)
    requires InPublish(s.poller)
    ensures Nearer(s, PublishStep(s))
  {
  }

  lemma WaitIsNearer(s: State)
    requires InWait(s.poller)
    ensures Nearer(s, WaitStep(s))
  {
    WaitKeepsFlags(s);
    if s.exitThreads {
      WaitLowersRank(s);
    }
  }

  lemma WaitKeepsFlags(s: State)
    requires InWait(s.poller)
    ensures var t := WaitStep(s);
            && t.ready == s.ready && t.store == s.store && t.past.polls == s.past.polls
            && t.past.offered == s.past.offered && t.exitThreads == s.exitThreads
  {
  }

  lemma WaitLowersRank(s: State)
    requires InWait(s.poller) && s.exitThreads
    ensures var t := WaitStep(s);
            PollerRank(t.poller) < PollerRank(s.poller) && !InFetch(t.poller) && !t.poller.Absent?
  {
  }

  predicate IsPollerStep(a: Action) {
    || a.StepFetch? || a.StepPublish? || a.StepWait? || a.Receive?
    || a.SkipSave? || a.WriteDocument? || a.WakePoller? || a.TimeOut?
  }

  lemma PollerStepsAreNearer(s: State, a: Action)
    requires Enabled(s, a) && IsPollerStep(a)
    ensures Nearer(s, Next(s, a))
  {
    match a
    case StepFetch => FetchIsNearer(s);
    case StepPublish => PublishIsNearer(s);
    case StepWait => WaitIsNearer(s);
    case Receive(_) =>
    case _ =>
  }

  lemma StepsAreForward(s: State, a: Action)
    requires ClientInvariant(s) && Enabled(s, a)
    ensures Forward(s, Next(s, a))
    ensures IsPollerStep(a) ==> Nearer(s, Next(s, a))
  {
    if IsPollerStep(a) {
      PollerStepsAreNearer(s, a);
    } else {
      match a
      case StepStart => StartIsForward(s);
      case StepStop => StopIsForward(s);
      case EmitImpression(_) =>
      case _ =>
    }
  }

  // ---- readiness ----

  lemma {:induction false} FlagsStayUp(s: State, steps: seq<Action>)
    requires ClientInvariant(s) && IsRun(s, steps)
    ensures (s.ready ==> After(s, steps).ready) && (s.store.ready ==> After(s, steps).store.ready)
    decreases |steps|
  {
    if steps != [] {
      StepsAreForward(s, steps[0]);
      InvariantStep(s, steps[0]);
      FlagsStayUp(Next(s, steps[0]), steps[1..]);
    }
  }

  /** A ready client has a ready store, a ready store has a non-empty snapshot, and neither flag is ever cleared. */
  lemma {:induction false} ReadyMeansNonEmptySnapshot(
    s: State, cfg: Config, server: Server, c: ContextFields, cell: Stored, early: seq<Action>, late: seq<Action>)
    requires IsInitial(s, cfg, server, c, cell) && IsRun(s, early) && IsRun(After(s, early), late)
    ensures var t := After(s, early); var u := After(t, late);
            && (t.ready ==> t.store.ready && u.ready)
            && (t.store.ready ==> t.store.snapshot != map[] && u.store.ready)
  {
    InvariantRun(s, early);
    FlagsStayUp(After(s, early), late);
  }

  // ---- the Init and Ready events ----

  function ReadyOffers(offered: seq<Offer>): nat {
    if offered == [] then 0
    else ReadyOffers(offered[..|offered| - 1]) + (if offered[|offered| - 1].event.Ready? then 1 else 0)
  }

  lemma OneMoreOffer(offered: seq<Offer>, o: Offer)
    ensures ReadyOffers(offered + [o]) == ReadyOffers(offered) + (if o.event.Ready? then 1 else 0)
  {
    assert (offered + [o])[..|offered|] == offered;
  }

  /** The poller is inside the poll counted last, and has not announced its update. */
  predicate BeforeUpdate(pc: PollerPc) {
    || pc.AwaitingReply? || pc.AnnouncingError? || pc.Saving? || pc.Writing? || pc.Publishing?
    || pc.MarkingStore? || pc.MarkingReady? || pc.AnnouncingReady? || pc.AnnouncingUpdate?
  }

  ghost predicate ReadyPrecedesUpdate(offered: seq<Offer>) {
    forall i, j ::
      0 <= i < |offered| && 0 <= j < |offered| && offered[i].event.Ready? && offered[j].event.Update?
      && offered[i].poll == offered[j].poll
      ==> i < j
  }

  /** fetched: some fetched snapshot was published; open: the latest poll has not announced its update. */
  ghost predicate OffersInOrder(offered: seq<Offer>, polls: nat, fetched: bool, open: bool) {
    && (forall i :: 0 <= i < |offered| ==>
          && !offered[i].event.Init?
          && offered[i].poll <= polls
          && (offered[i].event.Ready? ==> fetched)
          && (offered[i].event.Update? && open ==> offered[i].poll < polls))
    && ReadyPrecedesUpdate(offered)
  }

  lemma OneMoreInOrder(offered: seq<Offer>, polls: nat, fetched: bool, open: bool, e: Event)
    requires OffersInOrder(offered, polls, fetched, open) && !e.Init?
    requires e.Ready? ==> fetched && open
    ensures OffersInOrder(offered + [Offer(e, polls)], polls, fetched, open && !e.Update?)
    ensures ReadyOffers(offered + [Offer(e, polls)]) == ReadyOffers(offered) + (if e.Ready? then 1 else 0)
  {
    OneMoreOffer(offered, Offer(e, polls));
  }

  lemma OrderIsKept(offered: seq<Offer>, polls: nat, fetched: bool, open: bool)
    requires OffersInOrder(offered, polls, fetched, open)
    ensures OffersInOrder(offered, polls, true, open)
    ensures OffersInOrder(offered, polls, fetched, false)
    ensures OffersInOrder(offered, polls + 1, fetched, true)
  {
  }

  ghost predicate Offers(s: State) {
    && OffersInOrder(s.past.offered, s.past.polls, s.past.lastFetched.Some?, BeforeUpdate(s.poller))
    && ReadyOffers(s.past.offered) + (if s.poller.AnnouncingReady? then 1 else 0) <= (if s.ready then 1 else 0)
    && (s.poller.MarkingStore? || s.poller.MarkingReady? || s.poller.AnnouncingReady? ==> s.past.lastFetched.Some?)
  }

  /** A step that announces nothing. */
  ghost predicate Quiet(s: State, t: State) {
    && t.past.offered == s.past.offered && t.past.polls == s.past.polls && t.past.lastFetched == s.past.lastFetched
    && (BeforeUpdate(t.poller) ==> BeforeUpdate(s.poller))
    && (t.poller.AnnouncingReady? || t.poller.MarkingStore? || t.poller.MarkingReady? ==> t.poller == s.poller)
    && (s.ready ==> t.ready)
  }

  lemma OffersWhenQuiet(s: State, t: State)
    requires Offers(s) && Quiet(s, t)
    ensures Offers(t)
  {
    OrderIsKept(s.past.offered, s.past.polls, s.past.lastFetched.Some?, BeforeUpdate(s.poller));
  }

  lemma StartIsQuiet(s: State)
    requires ClientInvariant(s) && InStart(s.control)
    ensures Quiet(s, StartStep(s))
  {
  }

  lemma StopIsQuiet(s: State)
    requires CanStepStop(s)
    ensures Quiet(s, StopStep(s))
  {
  }

  lemma WaitIsQuiet(s: State)
    requires InWait(s.poller)
    ensures Quiet(s, WaitStep(s))
  {
  }

  lemma OffersUnderRequest(s: State)
    requires Offers(s) && s.poller.Fetching?
    ensures Offers(FetchStep(s))
  {
    OrderIsKept(s.past.offered, s.past.polls, s.past.lastFetched.Some?, BeforeUpdate(s.poller));
    var t := FetchStep(s);
    assert t.past.offered == s.past.offered && t.past.polls == s.past.polls + 1
        && t.past.lastFetched == s.past.lastFetched && BeforeUpdate(t.poller);
  }

  lemma OffersUnderFetch(s: State)
    requires Offers(s) && InFetch(s.poller)
    ensures Offers(FetchStep(s))
  {
    if s.poller.Fetching? {
      OffersUnderRequest(s);
    } else {
      var t := FetchStep(s);
      assert t.past.offered == s.past.offered && t.past.polls == s.past.polls;
      OffersWhenQuiet(s, t);
    }
  }

  predicate Announcing(pc: PollerPc) {
    pc.AnnouncingError? || pc.AnnouncingReady? || pc.AnnouncingUpdate?
  }

  function Announcement(pc: PollerPc): Event {
    if pc.AnnouncingError? then Error(ToggleFetchFailed) else if pc.AnnouncingReady? then Ready else Update
  }

  lemma AnnouncementEffect(s: State)
    requires ClientInvariant(s) && Announcing(s.poller)
    ensures var t := PublishStep(s);
            && t.past == s.past.(offered := s.past.offered + [Offer(Announcement(s.poller), s.past.polls)])
            && t.ready == s.ready
            && t.poller == (if s.poller.AnnouncingReady? then AnnouncingUpdate else LoopTest)
  {
  }

  lemma OffersUnderAnnouncement(s: State)
    requires ClientInvariant(s) && Offers(s) && Announcing(s.poller)
    ensures Offers(PublishStep(s))
  {
    var e := Announcement(s.poller);
    var offered, polls, fetched := s.past.offered, s.past.polls, s.past.lastFetched.Some?;
    AnnouncementEffect(s);
    OneMoreInOrder(offered, polls, fetched, true, e);
    OrderIsKept(offered + [Offer(e, polls)], polls, fetched, !e.Update?);
  }

  lemma OffersUnderPublish(s: State)
    requires ClientInvariant(s) && Offers(s) && InPublish(s.poller)
    ensures Offers(PublishStep(s))
  {
    if Announcing(s.poller) {
      OffersUnderAnnouncement(s);
    } else {
      OrderIsKept(s.past.offered, s.past.polls, s.past.lastFetched.Some?, true);
    }
  }

  lemma OffersStep(s: State, a: Action)
    requires ClientInvariant(s) && Offers(s) && Enabled(s, a)
    ensures Offers(Next(s, a))
  {
    if a.StepFetch? {
      OffersUnderFetch(s);
    } else if a.StepPublish? {
      OffersUnderPublish(s);
    } else if a.EmitImpression? {
      OneMoreInOrder(s.past.offered, s.past.polls, s.past.lastFetched.Some?, BeforeUpdate(s.poller),
        Impression(a.info));
    } else {
      OthersAreQuiet(s, a);
      OffersWhenQuiet(s, Next(s, a));
    }
  }

  lemma OthersAreQuiet(s: State, a: Action)
    requires ClientInvariant(s) && Enabled(s, a) && !a.StepFetch? && !a.StepPublish? && !a.EmitImpression?
    ensures Quiet(s, Next(s, a))
  {
    match a
    case StepStart => StartIsQuiet(s);
    case StepStop => StopIsQuiet(s);
    case StepWait => WaitIsQuiet(s);
    case Receive(_) =>
    case _ =>
  }

  lemma {:induction false} OffersRun(s: State, steps: seq<Action>)
    requires ClientInvariant(s) && Offers(s) && IsRun(s, steps)
    ensures Offers(After(s, steps))
    decreases |steps|
  {
    if steps != [] {
      InvariantStep(s, steps[0]);
      OffersStep(s, steps[0]);
      OffersRun(Next(s, steps[0]), steps[1..]);
    }
  }

  /**
   * The Init event is never enqueued. The Ready event is enqueued at most once, only after a fetched
   * snapshot was published, and before the Update event of the same poll.
   */
  lemma {:induction false} ReadyIsOfferedOnce(
    s: State, cfg: Config, server: Server, c: ContextFields, cell: Stored, steps: seq<Action>)
    requires IsInitial(s, cfg, server, c, cell) && IsRun(s, steps)
    ensures var t := After(s, steps);
            && ReadyOffers(t.past.offered) <= 1
            && (forall i :: 0 <= i < |t.past.offered| ==> !t.past.offered[i].event.Init?)
            && (forall i :: 0 <= i < |t.past.offered| && t.past.offered[i].event.Ready? ==> t.past.lastFetched.Some?)
            && ReadyPrecedesUpdate(t.past.offered)
  {
    OffersRun(s, steps);
  }

  /** With a store that is ready from the start, the flag is set before any poll: no Ready event remains to be sent. */
  ghost predicate ReadySetEarly(s: State) {
    && s.store.ready
    && ReadyOffers(s.past.offered) == 0
    && (!s.poller.Absent? || s.control.LoweringExit? || s.control.StartingHandler? || s.control.SpawningPoller?
        ==> s.ready)
    && !s.poller.AnnouncingReady?
  }

  lemma ReadySetEarlyUnderStart(s: State)
    requires ClientInvariant(s) && ReadySetEarly(s) && InStart(s.control)
    ensures ReadySetEarly(StartStep(s))
  {
  }

  lemma ReadySetEarlyUnderPublish(s: State)
    requires ClientInvariant(s) && ReadySetEarly(s) && InPublish(s.poller)
    ensures ReadySetEarly(PublishStep(s))
  {
    OneMoreOffer(s.past.offered, Offer(Error(ToggleFetchFailed), s.past.polls));
    OneMoreOffer(s.past.offered, Offer(Update, s.past.polls));
  }

  lemma ReadySetEarlyStep(s: State, a: Action)
    requires ClientInvariant(s) && ReadySetEarly(s) && Enabled(s, a)
    ensures ReadySetEarly(Next(s, a))
  {
    match a
    case EmitImpression(info) => OneMoreOffer(s.past.offered, Offer(Impression(info), s.past.polls));
    case StepPublish => ReadySetEarlyUnderPublish(s);
    case StepStart => ReadySetEarlyUnderStart(s);
    case StepStop => StopIsQuiet(s);
    case StepWait => WaitIsQuiet(s);
    case _ =>
  }

  lemma {:induction false} ReadySetEarlyRun(s: State, steps: seq<Action>)
    requires ClientInvariant(s) && ReadySetEarly(s) && IsRun(s, steps)
    ensures ReadySetEarly(After(s, steps))
    decreases |steps|
  {
    if steps != [] {
      InvariantStep(s, steps[0]);
      ReadySetEarlyStep(s, steps[0]);
      ReadySetEarlyRun(Next(s, steps[0]), steps[1..]);
    }
  }

  /** A client that starts from a stored copy or a bootstrap never enqueues a Ready event at all. */
  lemma {:induction false} NoReadyEventFromCacheOrBootstrap(
    s: State, cfg: Config, server: Server, c: ContextFields, cell: Stored, steps: seq<Action>)
    requires IsInitial(s, cfg, server, c, cell) && IsRun(s, steps)
    requires HasStoredToggles(cell) || UsesBootstrap(cfg)
    ensures ReadyOffers(After(s, steps).past.offered) == 0
  {
    ReadySetEarlyRun(s, steps);
  }

  /** The store of a client without toggles becomes ready in its first successful poll, which marks the client too. */
  ghost predicate ReadyCounted(s: State) {
    && (s.store.ready ==> s.ready || s.poller.MarkingReady?)
    && ReadyOffers(s.past.offered) + (if s.poller.AnnouncingReady? then 1 else 0) == (if s.ready then 1 else 0)
  }

  lemma CountedUnderStart(s: State)
    requires ClientInvariant(s) && ReadyCounted(s) && InStart(s.control)
    ensures ReadyCounted(StartStep(s))
  {
  }

  lemma CountedUnderStop(s: State)
    requires ReadyCounted(s) && CanStepStop(s)
    requires s.control.JoiningPoller? ==> s.poller.Finished?
    ensures ReadyCounted(StopStep(s))
  {
  }

  lemma CountedUnderPublish(s: State)
    requires ClientInvariant(s) && ReadyCounted(s) && InPublish(s.poller)
    ensures ReadyCounted(PublishStep(s))
  {
    if Announcing(s.poller) {
      AnnouncementEffect(s);
      OneMoreOffer(s.past.offered, Offer(Announcement(s.poller), s.past.polls));
    }
  }

  lemma OthersKeepReady(s: State, a: Action)
    requires Enabled(s, a) && !a.StepStart? && !a.StepStop? && !a.StepPublish? && !a.EmitImpression?
    ensures var t := Next(s, a);
            && t.ready == s.ready && t.store == s.store && t.past.offered == s.past.offered
            && !s.poller.MarkingReady? == !t.poller.MarkingReady?
            && !s.poller.AnnouncingReady? == !t.poller.AnnouncingReady?
  {
    match a
    case StepFetch => assert !FetchStep(s).poller.MarkingReady? && !FetchStep(s).poller.AnnouncingReady?;
    case StepWait =>
      WaitKeepsFlags(s);
      WaitIsQuiet(s);
    case Receive(_) =>
    case _ =>
  }

  lemma CountedUnderOthers(s: State, a: Action)
    requires ReadyCounted(s) && Enabled(s, a)
    requires !a.StepStart? && !a.StepStop? && !a.StepPublish? && !a.EmitImpression?
    ensures ReadyCounted(Next(s, a))
  {
    OthersKeepReady(s, a);
  }

  lemma CountedStep(s: State, a: Action)
    requires ClientInvariant(s) && ReadyCounted(s) && Enabled(s, a)
    ensures ReadyCounted(Next(s, a))
  {
    if a.StepStart? {
      CountedUnderStart(s);
    } else if a.StepStop? {
      CountedUnderStop(s);
    } else if a.StepPublish? {
      CountedUnderPublish(s);
    } else if a.EmitImpression? {
      OneMoreOffer(s.past.offered, Offer(Impression(a.info), s.past.polls));
    } else {
      CountedUnderOthers(s, a);
    }
  }

  lemma {:induction false} CountedRun(s: State, steps: seq<Action>)
    requires ClientInvariant(s) && ReadyCounted(s) && IsRun(s, steps)
    ensures ReadyCounted(After(s, steps))
    decreases |steps|
  {
    if steps != [] {
      InvariantStep(s, steps[0]);
      CountedStep(s, steps[0]);
      CountedRun(Next(s, steps[0]), steps[1..]);
    }
  }

  /**
   * Exactly how often Ready is enqueued: never by a client that started from a stored copy or a
   * bootstrap; by any other once it has become ready, as soon as the poll that made it ready emits it.
   */
  lemma {:induction false} ReadyIsOfferedExactly(
    s: State, cfg: Config, server: Server, c: ContextFields, cell: Stored, steps: seq<Action>)
    requires IsInitial(s, cfg, server, c, cell) && IsRun(s, steps)
    ensures var t := After(s, steps);
            ReadyOffers(t.past.offered)
            == (if HasStoredToggles(cell) || UsesBootstrap(cfg) || !t.ready || t.poller.AnnouncingReady? then 0 else 1)
  {
    if HasStoredToggles(cell) || UsesBootstrap(cfg) {
      ReadySetEarlyRun(s, steps);
    } else {
      CountedRun(s, steps);
    }
  }

  // ---- context updates ----

  /**
   * After the first snapshot, either the flag is up or the context last taken is the current one;
   * and a poller that sleeps while the flag is up has an updater that still owes its notification.
   */
  lemma {:induction false} NoLostContextUpdate(
    s: State, cfg: Config, server: Server, c: ContextFields, cell: Stored, steps: seq<Action>)
    requires IsInitial(s, cfg, server, c, cell) && IsRun(s, steps)
    ensures var t := After(s, steps);
            && (t.past.taken.Some? ==> t.contextUpdated || t.past.taken == Some(t.context))
            && (t.poller.Blocked? && t.contextUpdated ==> t.updaters != {})
  {
    InvariantRun(s, steps);
  }

  /**
   * While the poller works and is not told to stop, the current context has been sent with the latest
   * fetch, or is about to be, or is flagged.
   */
  lemma {:induction false} ContextIsSentOrFlagged(
    s: State, cfg: Config, server: Server, c: ContextFields, cell: Stored, steps: seq<Action>)
    requires IsInitial(s, cfg, server, c, cell) && IsRun(s, steps)
    ensures UpdatesReachServer(After(s, steps))
  {
    InvariantRun(s, steps);
  }
}
