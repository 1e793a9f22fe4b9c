/**
 * The client under concurrency: start and stop calls made one after the other, the polling thread,
 * any number of threads updating the context, and threads that emit impressions. Every step is one
 * atomic action of one thread. The server's replies are arbitrary unless a theorem says
 * otherwise; a timeout may occur whenever the poller sleeps. The polling mutex is held across
 * steps only by the poller.
 */
module Polling {
  import opened Wrappers
  import opened Domain
  import opened JsonCodec
  import opened ClientConfig
  import opened Context
  import opened EventHandler
  import opened ToggleFetcher
  import opened Store

  // ---- threads ----

  datatype ControlPc =
    | Idle
    // start
    | EmittingInit
    | TestingStore
    | EmittingReady
    | SettingReady
    | LoweringExit
    | StartingHandler
    | SpawningPoller
    | MarkingRunning
    // stop
    | RaisingExit
    | NotifyingPoller
    | JoiningPoller
    | StoppingHandler
    | ClearingRunning

  datatype PollerPc =
    | Absent
    | Entering
    | TakingInitial
    | Fetching(context: ContextFields)
    | AwaitingReply
    | AnnouncingError
    | Saving(fetched: ToggleSet)
    | Writing(fetched: ToggleSet)
    | Publishing(fetched: ToggleSet)
    | MarkingStore
    | MarkingReady
    | AnnouncingReady
    | AnnouncingUpdate
    | LoopTest
    | Locking
    | Evaluating
    | AboutToBlock
    | Blocked
    | TimedOut
    | Holding
    | Taking
    | Rechecking(context: ContextFields)
    | Finished

  /** An emit call that found the event handler started; poll is the number of the latest fetch. */
  datatype Offer = Offer(event: Event, poll: nat)

  /** Each tag names one version of the toggles. */
  datatype Server = Server(contents: map<string, ToggleSet>, tag: string)

  datatype FetcherState = FetcherState(etag: string, headers: map<string, string>)

  /** What has happened so far; no step reads it. */
  datatype History = History(
    offered: seq<Offer>,
    polls: nat,
    /** Every snapshot the store has held, the current one last. */
    versions: seq<ToggleSet>,
    lastFetched: Option<ToggleSet>,
    /** What a client would hold that always transfers the whole set. */
    unconditional: Option<ToggleSet>,
    taken: Option<ContextFields>,
    fetchedFor: Option<ContextFields>,
    notifyMissed: bool)

  datatype State = State(
    cfg: Config,
    server: Server,
    running: bool,
    ready: bool,
    exitThreads: bool,
    contextUpdated: bool,
    context: ContextFields,
    store: FlagStoreState,
    cell: Stored,
    fetcher: FetcherState,
    handlerStarted: bool,
    control: ControlPc,
    poller: PollerPc,
    updaters: set<nat>,
    past: History)

  datatype Action =
    | ServerMoves(tag: string)
    | EmitImpression(info: ClientImpression)
    // start and stop
    | CallStart
    | CallStop
    | StepStart
    | StepStop
    // poller
    | StepFetch
    | StepPublish
    | StepWait
    | Receive(reply: Reply)
    | SkipSave
    | WriteDocument(order: seq<string>)
    | WakePoller
    | TimeOut
    // context updates
    | UpdateContext(updater: nat, fields: MutableFields)
    | NotifyUpdate(updater: nat)

  // ---- start and stop ----

  function Offering(s: State, e: Event): State {
    if s.handlerStarted then s.(past := s.past.(offered := s.past.offered + [Offer(e, s.past.polls)])) else s
  }

  predicate InStart(c: ControlPc) {
    || c.EmittingInit? || c.TestingStore? || c.EmittingReady? || c.SettingReady?
    || c.LoweringExit? || c.StartingHandler? || c.SpawningPoller? || c.MarkingRunning?
  }

  function StartStep(s: State): State
    requires InStart(s.control)
  {
    match s.control
    case EmittingInit => Offering(s, Init).(control := TestingStore)
    case TestingStore => s.(control := if s.store.ready then EmittingReady else LoweringExit)
    case EmittingReady => Offering(s, Ready).(control := SettingReady)
    case SettingReady => s.(ready := true, control := LoweringExit)
    case LoweringExit => s.(exitThreads := false, control := StartingHandler)
    case StartingHandler => s.(handlerStarted := true, control := SpawningPoller)
    case SpawningPoller => s.(poller := Entering, control := MarkingRunning)
    case MarkingRunning => s.(running := true, control := Idle)
  }

  predicate InStop(c: ControlPc) {
    c.RaisingExit? || c.NotifyingPoller? || c.JoiningPoller? || c.StoppingHandler? || c.ClearingRunning?
  }

  /** The join waits for the poller. */
  predicate CanStepStop(s: State) {
    InStop(s.control) && (s.control.JoiningPoller? ==> s.poller.Finished?)
  }

  function StopStep(s: State): State
    requires CanStepStop(s)
  {
    match s.control
    case RaisingExit => s.(exitThreads := true, control := NotifyingPoller)
    case NotifyingPoller =>
      s.(poller := if s.poller.Blocked? then Locking else s.poller, control := JoiningPoller,
         past := s.past.(notifyMissed := s.poller.AboutToBlock?))
    case JoiningPoller => s.(poller := Absent, control := StoppingHandler)
    case StoppingHandler => s.(handlerStarted := false, control := ClearingRunning)
    case ClearingRunning => s.(running := false, control := Idle)
  }

  // ---- the polling thread ----

  predicate PollerHoldsLock(pc: PollerPc) {
    pc.Evaluating? || pc.AboutToBlock? || pc.Holding? || pc.Taking?
  }

  predicate InFetch(pc: PollerPc) {
    pc.Entering? || pc.TakingInitial? || pc.Fetching?
  }

  /** From the thread's entry to sending a request. */
  function FetchStep(s: State): State
    requires InFetch(s.poller)
  {
    match s.poller
    case Entering => s.(poller := if s.cfg.refreshEnabled then TakingInitial else Finished)
    case TakingInitial => s.(poller := Fetching(s.context), past := s.past.(taken := Some(s.context)))
    case Fetching(c) => s.(poller := AwaitingReply, past := s.past.(polls := s.past.polls + 1, fetchedFor := Some(c)))
  }

  /** A fetched set is on its way from the reply to the flag store. */
  predicate InTransit(pc: PollerPc) {
    pc.Saving? || pc.Writing? || pc.Publishing?
  }

  predicate InPublish(pc: PollerPc) {
    || pc.AnnouncingError? || pc.Saving? || pc.Publishing? || pc.MarkingStore?
    || pc.MarkingReady? || pc.AnnouncingReady? || pc.AnnouncingUpdate?
  }

  /** What is done with the outcome of a fetch; writing the file is a step of its own. */
  function PublishStep(s: State): State
    requires InPublish(s.poller)
  {
    match s.poller
    case AnnouncingError => Offering(s, Error(ToggleFetchFailed)).(poller := LoopTest)
    // opening the file for writing truncates it
    case Saving(t) => s.(cell := Unreadable, poller := Writing(t))
    case Publishing(t) =>
      s.(store := s.store.(snapshot := t), poller := MarkingStore,
         past := s.past.(versions := s.past.versions + [t], lastFetched := Some(t)))
    case MarkingStore => s.(store := s.store.(ready := true), poller := MarkingReady)
    case MarkingReady => s.(ready := true, poller := if s.ready then AnnouncingUpdate else AnnouncingReady)
    case AnnouncingReady => Offering(s, Ready).(poller := AnnouncingUpdate)
    case AnnouncingUpdate => Offering(s, Update).(poller := LoopTest)
  }

  predicate InWait(pc: PollerPc) {
    || pc.LoopTest? || pc.Locking? || pc.Evaluating? || pc.AboutToBlock?
    || pc.TimedOut? || pc.Holding? || pc.Taking? || pc.Rechecking?
  }

  /** Between two fetches; sleeping ends by a wakeup or a timeout. */
  function WaitStep(s: State): State
    requires InWait(s.poller)
  {
    match s.poller
    case LoopTest => s.(poller := if s.exitThreads then Finished else Locking)
    case Locking => s.(poller := Evaluating)
    case Evaluating => s.(poller := if s.exitThreads || s.contextUpdated then Holding else AboutToBlock)
    case AboutToBlock => s.(poller := Blocked)
    case TimedOut => s.(poller := Holding)
    case Holding => s.(poller := if s.exitThreads then Rechecking(s.context) else Taking)
    case Taking =>
      s.(contextUpdated := false, poller := Rechecking(s.context), past := s.past.(taken := Some(s.context)))
    case Rechecking(c) => s.(poller := if s.exitThreads then Finished else Fetching(c))
  }

  function PollerAfter(r: FetchResult): PollerPc {
    if r.error.Some? then AnnouncingError
    else if r.toggles.Some? then Saving(r.toggles.value)
    else LoopTest
  }

  /** After a 304 or a decoded 2xx an unconditional client would hold the server's current set. */
  function UnconditionalAfter(s: State, reply: Reply): Option<ToggleSet> {
    if (NotModified(reply) || Decoded(reply)) && s.server.tag in s.server.contents
    then Some(s.server.contents[s.server.tag]) else s.past.unconditional
  }

  function AfterReply(s: State, reply: Reply): State {
    s.(fetcher := FetcherState(TagAfter(s.fetcher.etag, reply), HeadersAfter(s.fetcher.headers, reply)),
       poller := PollerAfter(Classify(reply)),
       past := s.past.(unconditional := UnconditionalAfter(s, reply)))
  }

  // ---- the system ----

  ghost predicate Enabled(s: State, a: Action) {
    match a
    case ServerMoves(tag) => tag in s.server.contents
    case EmitImpression(_) => true
    case CallStart => s.control.Idle?
    case CallStop => s.control.Idle?
    case StepStart => InStart(s.control)
    case StepStop => CanStepStop(s)
    case StepFetch => InFetch(s.poller)
    case StepPublish => InPublish(s.poller)
    case StepWait => InWait(s.poller)
    case Receive(_) => s.poller.AwaitingReply?
    case SkipSave => s.poller.Saving?
    case WriteDocument(order) => s.poller.Writing? && IterationOrder(order, s.poller.fetched)
    case WakePoller => s.poller.Blocked?
    case TimeOut => s.poller.Blocked?
    case UpdateContext(u, _) => u !in s.updaters && !PollerHoldsLock(s.poller)
    case NotifyUpdate(u) => u in s.updaters
  }

  ghost function Next(s: State, a: Action): State
    requires Enabled(s, a)
  {
    match a
    case ServerMoves(tag) => s.(server := s.server.(tag := tag))
    case EmitImpression(info) => Offering(s, Impression(info))
    case CallStart => if s.running then s else s.(running := true, control := EmittingInit)
    case CallStop => if !s.running then s else s.(running := false, control := RaisingExit)
    case StepStart => StartStep(s)
    case StepStop => StopStep(s)
    case StepFetch => FetchStep(s)
    case StepPublish => PublishStep(s)
    case StepWait => WaitStep(s)
    case Receive(reply) => AfterReply(s, reply)
    case SkipSave => s.(poller := Publishing(s.poller.fetched))
    case WriteDocument(order) =>
      s.(cell := Document(EncodeFeatures(order, s.poller.fetched)), poller := Publishing(s.poller.fetched))
    case WakePoller => s.(poller := Locking)
    case TimeOut => s.(poller := TimedOut)
    case UpdateContext(u, fields) =>
      s.(context := UpdateMutable(s.context, fields), contextUpdated := true, updaters := s.updaters + {u})
    case NotifyUpdate(u) =>
      s.(poller := if s.poller.Blocked? then Locking else s.poller, updaters := s.updaters - {u})
  }

  /** What the constructor makes of the bootstrap and the stored copy: a non-empty stored copy wins. */
  predicate UsesBootstrap(cfg: Config) {
    cfg.bootstrapOverride && cfg.bootstrap.Some? && cfg.bootstrap.value != map[]
  }

  predicate HasStoredToggles(cell: Stored) {
    Load(cell).Some? && Load(cell).value != map[]
  }

  function InitialStore(cfg: Config, cell: Stored): FlagStoreState {
    if HasStoredToggles(cell) then FlagStoreState(Load(cell).value, true)
    else if UsesBootstrap(cfg) then FlagStoreState(cfg.bootstrap.value, true)
    else FlagStoreState(map[], false)
  }

  /** A bootstrap is used only if it may override, and only where no toggles are stored. */
  lemma InitialStoreIs(cfg: Config, cell: Stored)
    ensures var s := InitialStore(cfg, cell);
            if Load(cell).Some? && Load(cell).value != map[] then s.ready && s.snapshot == Load(cell).value
            else if cfg.bootstrapOverride && cfg.bootstrap.Some? && cfg.bootstrap.value != map[]
            then s.ready && s.snapshot == cfg.bootstrap.value
            else !s.ready && s.snapshot == map[]
  {
  }

  /** A used bootstrap is stored when there is no stored copy, if the file can be written. */
  ghost predicate InitialCell(cfg: Config, before: Stored, after: Stored) {
    after == before || (!HasStoredToggles(before) && UsesBootstrap(cfg) && Stores(after, cfg.bootstrap.value))
  }

  /** A client just constructed on a stored copy. */
  ghost predicate IsInitial(s: State, cfg: Config, server: Server, context: ContextFields, before: Stored) {
    && InitialCell(cfg, before, s.cell)
    && s == State(cfg, server, false, false, false, false, context, InitialStore(cfg, before), s.cell,
         FetcherState("", WithCustom(DefaultHeaders(cfg, ""), cfg.customHeaders)), false, Idle, Absent, {},
         History([], 0, [InitialStore(cfg, before).snapshot], None, None, None, None, false))
  }

  /** An update replaces the mutable context as a whole, keeps the rest, and raises the flag. */
  lemma UpdateContextIs(s: State, u: nat, fields: MutableFields)
    requires Enabled(s, UpdateContext(u, fields))
    ensures var t := Next(s, UpdateContext(u, fields));
            && t.context.mutable == fields && t.contextUpdated
            && t.context.appName == s.context.appName && t.context.sessionId == s.context.sessionId
            && t.context.environment == s.context.environment
  {
    UpdateReplaces(s.context, fields);
  }

  ghost predicate IsRun(s: State, steps: seq<Action>)
    decreases |steps|
  {
    steps == [] || (Enabled(s, steps[0]) && IsRun(Next(s, steps[0]), steps[1..]))
  }

  ghost function After(s: State, steps: seq<Action>): State
    requires IsRun(s, steps)
    decreases |steps|
  {
    if steps == [] then s else After(Next(s, steps[0]), steps[1..])
  }

  lemma {:induction false} RunsCompose(s: State, first: seq<Action>, second: seq<Action>)
    requires IsRun(s, first) && IsRun(After(s, first), second)
    ensures IsRun(s, first + second) && After(s, first + second) == After(After(s, first), second)
    decreases |first|
  {
    if first == [] {
      assert first + second == second;
    } else {
      RunsCompose(Next(s, first[0]), first[1..], second);
      assert (first + second)[1..] == first[1..] + second;
    }
  }

  lemma OneStep(s: State, a: Action)
    requires Enabled(s, a)
    ensures IsRun(s, [a]) && After(s, [a]) == Next(s, a)
  {
    var t := Next(s, a);
    assert [a][0] == a && [a][1..] == [];
    assert IsRun(t, []) && After(t, []) == t;
    assert After(s, [a]) == After(t, [a][1..]);
  }

  lemma OneStepMore(s: State, steps: seq<Action>, a: Action) returns (more: seq<Action>)
    requires IsRun(s, steps) && Enabled(After(s, steps), a)
    ensures more == steps + [a] && IsRun(s, more) && After(s, more) == Next(After(s, steps), a)
  {
    more := steps + [a];
    var t := After(s, steps);
    OneStep(t, a);
    RunsCompose(s, steps, [a]);
  }
}
