/**
 * What conditional polling does where its assumptions fail: after an empty set, and with a configured
 * conditional header, the client keeps a snapshot that is not the server's, in runs given step by step.
 */
module StalePolling {
  import opened Wrappers
  import opened JsonCodec
  import opened ClientConfig
  import opened Context
  import opened ToggleFetcher
  import opened Store
  import opened Polling
  import opened ClientLifecycle
  import opened ClientShutdown
  import opened ConditionalPolling

  // ---- runs ----

  ghost predicate NoReplies(steps: seq<Action>) {
    forall i :: 0 <= i < |steps| ==> !steps[i].Receive?
  }

  lemma {:induction false} NoReplyIsHonest(s: State, steps: seq<Action>)
    requires IsRun(s, steps) && NoReplies(steps)
    ensures HonestRun(s, steps)
    decreases |steps|
  {
    if steps != [] {
      assert !steps[0].Receive?;
      NoReplyIsHonest(Next(s, steps[0]), steps[1..]);
    }
  }

  lemma {:induction false} HonestRunsCompose(s: State, first: seq<Action>, second: seq<Action>)
    requires IsRun(s, first) && HonestRun(s, first)
    requires IsRun(After(s, first), second) && HonestRun(After(s, first), second)
    ensures IsRun(s, first + second) && After(s, first + second) == After(After(s, first), second)
    ensures HonestRun(s, first + second)
    decreases |first|
  {
    RunsCompose(s, first, second);
    if first == [] {
      assert first + second == second;
    } else {
      HonestRunsCompose(Next(s, first[0]), first[1..], second);
      assert (first + second)[1..] == first[1..] + second;
    }
  }

  lemma HonestReply(s: State, steps: seq<Action>, reply: Reply) returns (more: seq<Action>)
    requires IsRun(s, steps) && HonestRun(s, steps)
    requires After(s, steps).poller.AwaitingReply? && Honest(After(s, steps), reply)
    ensures IsRun(s, more) && HonestRun(s, more) && After(s, more) == AfterReply(After(s, steps), reply)
  {
    var t := After(s, steps);
    var last := OneStepMore(t, [], Receive(reply));
    assert last == [Receive(reply)] && last[1..] == [];
    HonestRunsCompose(s, steps, last);
    more := steps + last;
  }

  lemma {:induction false} HoldingRun(s: State, steps: seq<Action>)
    requires ClientInvariant(s) && s.server.tag in s.server.contents && IsRun(s, steps) && NoReplies(steps)
    ensures SameHolding(s, After(s, steps)) && ClientInvariant(After(s, steps))
    decreases |steps|
  {
    if steps != [] {
      assert !steps[0].Receive?;
      OthersHold(s, steps[0]);
      InvariantStep(s, steps[0]);
      HoldingRun(Next(s, steps[0]), steps[1..]);
    }
  }

  /** Every client that polls comes to wait for its first reply. */
  lemma FirstRequest(s: State, cfg: Config, server: Server, c: ContextFields, cell: Stored)
    returns (steps: seq<Action>)
    requires IsInitial(s, cfg, server, c, cell) && cfg.refreshEnabled
    ensures IsRun(s, steps) && NoReplies(steps)
    ensures var t := After(s, steps);
            && t.poller.AwaitingReply? && !t.exitThreads && t.past.polls == 1
            && t.fetcher == s.fetcher && t.server == s.server && t.store == s.store
  {
    steps := StartedClient(s);
    steps := OneStepMore(s, steps, StepFetch);
    steps := OneStepMore(s, steps, StepFetch);
    steps := OneStepMore(s, steps, StepFetch);
  }

  /** From the end of a poll the poller comes to wait for the next reply. */
  lemma NextRequest(s: State) returns (steps: seq<Action>)
    requires s.poller.LoopTest? && !s.exitThreads
    ensures IsRun(s, steps) && NoReplies(steps)
    ensures var t := After(s, steps);
            && t.poller.AwaitingReply? && !t.exitThreads && t.past.polls == s.past.polls + 1
            && t.fetcher == s.fetcher && t.server == s.server && t.store == s.store
            && !t.contextUpdated && t.context == s.context && t.past.fetchedFor == Some(s.context)
  {
    var wait := WaitEnds(s);
    var fetch := FetchUnlessStopped(After(s, wait));
    RunsCompose(s, wait, fetch);
    steps := wait + fetch;
  }

  /** Whether an update is flagged or the timeout comes. */
  lemma WaitEnds(s: State) returns (steps: seq<Action>)
    requires s.poller.LoopTest? && !s.exitThreads
    ensures IsRun(s, steps) && NoReplies(steps) && After(s, steps) == s.(poller := Holding)
  {
    steps := OneStepMore(s, [], StepWait);
    steps := OneStepMore(s, steps, StepWait);
    steps := OneStepMore(s, steps, StepWait);
    if !s.contextUpdated {
      var t := After(s, steps);
      var sleep := SleepEnds(t);
      RunsCompose(s, steps, sleep);
      steps := steps + sleep;
    }
  }

  lemma SleepEnds(s: State) returns (steps: seq<Action>)
    requires s.poller.AboutToBlock?
    ensures IsRun(s, steps) && NoReplies(steps) && After(s, steps) == s.(poller := Holding)
  {
    steps := OneStepMore(s, [], StepWait);
    steps := OneStepMore(s, steps, TimeOut);
    steps := OneStepMore(s, steps, StepWait);
  }

  lemma FetchUnlessStopped(s: State) returns (steps: seq<Action>)
    requires s.poller.Holding? && !s.exitThreads
    ensures IsRun(s, steps) && NoReplies(steps)
    ensures var t := After(s, steps);
            && t.poller.AwaitingReply? && !t.exitThreads && t.past.polls == s.past.polls + 1
            && t.fetcher == s.fetcher && t.server == s.server && t.store == s.store
            && !t.contextUpdated && t.context == s.context && t.past.fetchedFor == Some(s.context)
  {
    steps := OneStepMore(s, [], StepWait);
    steps := OneStepMore(s, steps, StepWait);
    steps := OneStepMore(s, steps, StepWait);
    steps := OneStepMore(s, steps, StepFetch);
  }

  // ---- an empty set ----

  /** The client announces the server's current tag and does not hold the set that it names. */
  ghost predicate Stale(s: State) {
    && s.server.tag in s.server.contents && s.server.tag != ""
    && s.fetcher.etag == s.server.tag && InSync(s.fetcher.etag, s.fetcher.headers)
    && Held(s) != s.server.contents[s.server.tag]
  }

  /** The server's toggles stay as they are, and no reply brings them. */
  predicate NothingNew(a: Action) {
    !a.ServerMoves? && (a.Receive? ==> !Decoded(a.reply))
  }

  lemma StaleStep(s: State, a: Action)
    requires ClientInvariant(s) && Stale(s) && Enabled(s, a) && NothingNew(a)
    ensures Stale(Next(s, a)) && Held(Next(s, a)) == Held(s)
  {
    if a.Receive? {
      ResultsWithoutError(a.reply);
    } else {
      OthersHold(s, a);
    }
  }

  lemma {:induction false} StaleLasts(s: State, steps: seq<Action>)
    requires ClientInvariant(s) && Stale(s) && IsRun(s, steps)
    requires forall i :: 0 <= i < |steps| ==> NothingNew(steps[i])
    ensures Stale(After(s, steps)) && Held(After(s, steps)) == Held(s)
    decreases |steps|
  {
    if steps != [] {
      assert NothingNew(steps[0]);
      StaleStep(s, steps[0]);
      InvariantStep(s, steps[0]);
      StaleLasts(Next(s, steps[0]), steps[1..]);
    }
  }

  /**
   * An empty set with a tag is not published, but its tag is stored. From then on, in every run in which
   * the server's set stays empty, every 304 is a correct answer, and the client keeps what it held.
   */
  lemma {:induction false} EmptySetLeavesStaleSnapshot(s: State, empty: Reply, steps: seq<Action>, unmodified: Reply)
    requires ClientInvariant(s) && Coherent(s) && s.poller.AwaitingReply?
    requires Truthful(s, empty) && Decoded(empty) && CarriesTag(empty)
    requires s.server.contents[s.server.tag] == map[] && s.store.snapshot != map[]
    requires IsRun(AfterReply(s, empty), steps) && forall i :: 0 <= i < |steps| ==> NothingNew(steps[i])
    requires NotModified(unmodified)
    ensures var t := After(AfterReply(s, empty), steps);
            && Truthful(t, unmodified)
            && Held(t) == s.store.snapshot && Held(t) != t.server.contents[t.server.tag]
  {
    ResultsWithoutError(empty);
    SyncIsKept(s.fetcher.etag, s.fetcher.headers, empty);
    InvariantUnderReply(s, empty);
    StaleLasts(AfterReply(s, empty), steps);
  }

  lemma {:induction false} StalePolls(s: State, unmodified: Reply, n: nat) returns (steps: seq<Action>)
    requires ClientInvariant(s) && Stale(s) && s.poller.LoopTest? && !s.exitThreads && NotModified(unmodified)
    ensures IsRun(s, steps) && HonestRun(s, steps)
    ensures var t := After(s, steps);
            && Stale(t) && t.store.snapshot == s.store.snapshot && t.server == s.server
            && t.past.polls == s.past.polls + n
    decreases n
  {
    if n == 0 {
      steps := [];
    } else {
      var poll := NextRequest(s);
      HoldingRun(s, poll);
      NoReplyIsHonest(s, poll);
      var waiting := After(s, poll);
      poll := HonestReply(s, poll, unmodified);
      var t := AfterReply(waiting, unmodified);
      InvariantUnderReply(waiting, unmodified);
      ResultsWithoutError(unmodified);
      var rest := StalePolls(t, unmodified, n - 1);
      HonestRunsCompose(s, poll, rest);
      steps := poll + rest;
    }
  }

  /**
   * So an empty version does harm. Take any client that polls and starts with toggles,
   * and a server whose current version is empty: in a run in which every reply is honest the client
   * polls as often as one likes and keeps its initial snapshot, which an unconditional client would not hold.
   */
  lemma {:induction false} EmptySetSchedule(
    s: State, cfg: Config, server: Server, c: ContextFields, cell: Stored, empty: Reply, unmodified: Reply, n: nat)
    returns (steps: seq<Action>)
    requires IsInitial(s, cfg, server, c, cell) && cfg.refreshEnabled && NoConditionalHeader(cfg)
    requires HasStoredToggles(cell) || UsesBootstrap(cfg)
    requires server.tag in server.contents && server.tag != "" && server.contents[server.tag] == map[]
    requires Decoded(empty) && DecodeFeatures(empty.body).value == map[]
    requires CarriesTag(empty) && empty.headers["etag"] == server.tag && NotModified(unmodified)
    ensures IsRun(s, steps) && HonestRun(s, steps)
    ensures var t := After(s, steps);
            && t.past.polls == n + 1 && t.server == server
            && t.store.snapshot == InitialStore(cfg, cell).snapshot != map[]
            && Stale(t)
  {
    FirstRequestIsUnconditionalIff(cfg);
    var poll := FirstRequest(s, cfg, server, c, cell);
    HoldingRun(s, poll);
    NoReplyIsHonest(s, poll);
    var waiting := After(s, poll);
    poll := HonestReply(s, poll, empty);
    InvariantUnderReply(waiting, empty);
    ResultsWithoutError(empty);
    SyncIsKept(waiting.fetcher.etag, waiting.fetcher.headers, empty);
    var rest := StalePolls(AfterReply(waiting, empty), unmodified, n);
    HonestRunsCompose(s, poll, rest);
    steps := poll + rest;
  }

  // ---- a configured conditional header ----

  /**
   * In every run up to the first reply, that reply can be a 304 if and only if a configured header announces
   * the server's tag; then the client keeps what it started with in place of the server's set.
   */
  lemma {:induction false} ConditionalHeaderBreaksFirstPoll(
    s: State, cfg: Config, server: Server, c: ContextFields, cell: Stored, steps: seq<Action>, reply: Reply)
    requires IsInitial(s, cfg, server, c, cell) && GoodServer(server) && NotModified(reply)
    requires IsRun(s, steps) && NoReplies(steps) && After(s, steps).poller.AwaitingReply?
    ensures var t := After(s, steps); var u := AfterReply(t, reply);
            && (Truthful(t, reply) <==>
                  IF_NONE_MATCH in s.fetcher.headers && s.fetcher.headers[IF_NONE_MATCH] == t.server.tag)
            && (Truthful(t, reply) ==> !NoConditionalHeader(cfg))
            && Held(u) == InitialStore(cfg, cell).snapshot
            && t.server.tag in server.contents
            && u.past.unconditional == Some(server.contents[t.server.tag])
  {
    FirstRequestIsUnconditionalIff(cfg);
    HoldingRun(s, steps);
    ResultsWithoutError(reply);
  }

  /** Wherever a configured header announces the current tag, such a run exists. */
  lemma ConditionalHeaderSchedule(
    s: State, cfg: Config, server: Server, c: ContextFields, cell: Stored, reply: Reply) returns (steps: seq<Action>)
    requires IsInitial(s, cfg, server, c, cell) && GoodServer(server) && cfg.refreshEnabled && NotModified(reply)
    requires IF_NONE_MATCH in s.fetcher.headers && s.fetcher.headers[IF_NONE_MATCH] == server.tag
    ensures IsRun(s, steps) && HonestRun(s, steps)
    ensures var t := After(s, steps);
            && t.poller.LoopTest? && t.store == InitialStore(cfg, cell)
            && t.past.unconditional == Some(server.contents[server.tag])
  {
    steps := FirstRequest(s, cfg, server, c, cell);
    NoReplyIsHonest(s, steps);
    ResultsWithoutError(reply);
    steps := HonestReply(s, steps, reply);
  }

  // ---- exactly which configured headers do harm ----

  /** The tag announced, wherever it comes from, names the set held if it names any version. */
  ghost predicate AnnouncesHeld(s: State) {
    IF_NONE_MATCH in s.fetcher.headers && s.fetcher.headers[IF_NONE_MATCH] in s.server.contents
    ==> Held(s) == s.server.contents[s.fetcher.headers[IF_NONE_MATCH]]
  }

  lemma AnnouncedReply(s: State, reply: Reply)
    requires GoodServer(s.server) && AnnouncesHeld(s) && Refines(s)
    requires s.poller.AwaitingReply? && Honest(s, reply)
    ensures var t := AfterReply(s, reply); GoodServer(t.server) && AnnouncesHeld(t) && Refines(t)
  {
    ResultsWithoutError(reply);
  }

  lemma {:induction false} AnnouncedRun(s: State, steps: seq<Action>)
    requires ClientInvariant(s) && GoodServer(s.server) && AnnouncesHeld(s) && Refines(s)
    requires IsRun(s, steps) && HonestRun(s, steps)
    ensures Refines(After(s, steps))
    decreases |steps|
  {
    if steps != [] {
      var a := steps[0];
      InvariantStep(s, a);
      if a.Receive? {
        AnnouncedReply(s, a.reply);
      } else {
        OthersHold(s, a);
      }
      AnnouncedRun(Next(s, a), steps[1..]);
    }
  }

  /** A client that does not refresh never hears from the server. */
  ghost predicate NeverPolls(s: State) {
    && !s.cfg.refreshEnabled && s.past.unconditional.None?
    && (s.poller.Absent? || s.poller.Entering? || s.poller.Finished?)
  }

  lemma {:induction false} NeverPollsRun(s: State, steps: seq<Action>)
    requires NeverPolls(s) && IsRun(s, steps)
    ensures NeverPolls(After(s, steps))
    decreases |steps|
  {
    if steps != [] {
      NeverPollsStep(s, steps[0]);
      NeverPollsRun(Next(s, steps[0]), steps[1..]);
    }
  }

  lemma NeverPollsStep(s: State, a: Action)
    requires NeverPolls(s) && Enabled(s, a)
    ensures NeverPolls(Next(s, a))
  {
    match a
    case StepStart => NeverPollsStart(s);
    case StepStop => NeverPollsStop(s);
    case StepFetch => assert FetchStep(s) == s.(poller := Finished);
    case StepPublish =>
    case StepWait =>
    case Receive(_) =>
    case _ =>
  }

  lemma NeverPollsStart(s: State)
    requires NeverPolls(s) && InStart(s.control)
    ensures NeverPolls(StartStep(s))
  {
  }

  lemma NeverPollsStop(s: State)
    requires NeverPolls(s) && CanStepStop(s)
    ensures NeverPolls(StopStep(s))
  {
  }

  /** An honest run that leaves the client without the set of an unconditional one. */
  ghost predicate GoesStale(s: State, steps: seq<Action>) {
    IsRun(s, steps) && HonestRun(s, steps) && !Refines(After(s, steps))
  }

  /** The configured value is a tag of the server that names another set than the one the client starts with. */
  ghost predicate HarmfulHeader(s: State) {
    && IF_NONE_MATCH in s.fetcher.headers && s.fetcher.headers[IF_NONE_MATCH] in s.server.contents
    && s.server.contents[s.fetcher.headers[IF_NONE_MATCH]] != s.store.snapshot
  }

  lemma HarmfulHeaderGoesStale(s: State, cfg: Config, server: Server, c: ContextFields, cell: Stored)
    returns (steps: seq<Action>)
    requires IsInitial(s, cfg, server, c, cell) && GoodServer(server) && cfg.refreshEnabled && HarmfulHeader(s)
    ensures GoesStale(s, steps)
  {
    var tag := s.fetcher.headers[IF_NONE_MATCH];
    var move := OneStepMore(s, [], ServerMoves(tag));
    assert move == [ServerMoves(tag)];
    NoReplyIsHonest(s, move);
    var moved := s.server.(tag := tag);
    var unmodified := HttpReply(NO_UPDATE, map[], None);
    var rest := ConditionalHeaderSchedule(Next(s, ServerMoves(tag)), cfg, moved, c, cell, unmodified);
    HonestRunsCompose(s, move, rest);
    steps := move + rest;
  }

  /**
   * Exactly which configured headers break the refinement, against a server whose tags name non-empty sets:
   * some honest run leaves the client without the set of an unconditional one if and only if it polls and
   * its configured if-none-match names a version other than the set that it starts with. A value that
   * names no version, or names that set, does no harm.
   */
  lemma {:induction false} HeaderIsHarmfulIff(s: State, cfg: Config, server: Server, c: ContextFields, cell: Stored)
    requires IsInitial(s, cfg, server, c, cell) && GoodServer(server)
    ensures (exists steps :: GoesStale(s, steps)) <==> cfg.refreshEnabled && HarmfulHeader(s)
  {
    if cfg.refreshEnabled && HarmfulHeader(s) {
      var steps := HarmfulHeaderGoesStale(s, cfg, server, c, cell);
      assert GoesStale(s, steps);
    } else {
      forall steps | IsRun(s, steps) && HonestRun(s, steps) ensures Refines(After(s, steps)) {
        if cfg.refreshEnabled {
          AnnouncedRun(s, steps);
        } else {
          NeverPollsRun(s, steps);
        }
      }
    }
  }
}
