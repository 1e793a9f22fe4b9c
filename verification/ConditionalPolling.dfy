/**
 * Conditional polling agrees with unconditional polling, whatever fails on the way. A server names
 * each version of the toggles by a tag; a 304 answers only a request that carries the current tag
 * (sections 13.1.2 and 15.4.5 of RFC 9110).
 */
module ConditionalPolling {
  import opened Wrappers
  import opened Domain
  import opened JsonCodec
  import opened ClientConfig
  import opened Context
  import opened ToggleFetcher
  import opened Store
  import opened Polling
  import opened ClientLifecycle

  /** Tags are not empty, and no version is empty. */
  ghost predicate GoodServer(server: Server) {
    && server.tag in server.contents
    && forall tag :: tag in server.contents ==> tag != "" && server.contents[tag] != map[]
  }

  /** What a correct server may answer now; failures and bodies that do not decode are unrestricted. */
  ghost predicate Truthful(s: State, reply: Reply) {
    && s.server.tag in s.server.contents && s.server.tag != ""
    && (NotModified(reply) ==>
          IF_NONE_MATCH in s.fetcher.headers && s.fetcher.headers[IF_NONE_MATCH] == s.server.tag)
    && (Decoded(reply) ==> DecodeFeatures(reply.body).value == s.server.contents[s.server.tag])
    && (Decoded(reply) && CarriesTag(reply) ==> reply.headers["etag"] == s.server.tag)
  }

  ghost predicate Honest(s: State, reply: Reply) {
    Truthful(s, reply) && (Decoded(reply) ==> CarriesTag(reply))
  }

  ghost predicate HonestRun(s: State, steps: seq<Action>)
    requires IsRun(s, steps)
    decreases |steps|
  {
    steps == [] ||
    ((steps[0].Receive? ==> Honest(s, steps[0].reply)) && HonestRun(Next(s, steps[0]), steps[1..]))
  }

  /** The set being published, or else the published one. */
  function Held(s: State): ToggleSet {
    if InTransit(s.poller) then s.poller.fetched else s.store.snapshot
  }

  /** The stored tag is the one announced, and it names the set held. */
  ghost predicate Coherent(s: State) {
    && InSync(s.fetcher.etag, s.fetcher.headers)
    && (s.fetcher.etag != "" ==>
          s.fetcher.etag in s.server.contents && Held(s) == s.server.contents[s.fetcher.etag])
  }

  ghost predicate Refines(s: State) {
    s.past.unconditional.Some? ==> Held(s) == s.past.unconditional.value
  }

  ghost predicate PollInvariant(s: State) {
    GoodServer(s.server) && Coherent(s) && Refines(s)
  }

  /** A step that neither talks to the server nor changes the set held. */
  ghost predicate SameHolding(s: State, t: State) {
    && t.fetcher == s.fetcher && t.server.contents == s.server.contents && t.server.tag in t.server.contents
    && t.past.unconditional == s.past.unconditional && Held(t) == Held(s)
  }

  lemma StartHolds(s: State)
    requires s.server.tag in s.server.contents && InStart(s.control) && ClientInvariant(s)
    ensures SameHolding(s, StartStep(s)) && StartStep(s).server == s.server
  {
    var t := StartStep(s);
    assert t.store == s.store && (t.poller == s.poller || (s.poller.Absent? && t.poller.Entering?));
  }

  lemma StopHolds(s: State)
    requires s.server.tag in s.server.contents && CanStepStop(s)
    ensures SameHolding(s, StopStep(s)) && StopStep(s).server == s.server
  {
    var t := StopStep(s);
    match s.control
    case RaisingExit =>
    case NotifyingPoller => assert t.store == s.store && (t.poller == s.poller || !InTransit(s.poller));
    case JoiningPoller => assert t.store == s.store && !InTransit(s.poller) && !InTransit(t.poller);
    case StoppingHandler =>
    case ClearingRunning =>
  }

  lemma FetchHolds(s: State)
    requires s.server.tag in s.server.contents && InFetch(s.poller)
    ensures SameHolding(s, FetchStep(s)) && FetchStep(s).server == s.server
  {
  }

  lemma PublishHolds(s: State)
    requires s.server.tag in s.server.contents && InPublish(s.poller)
    ensures SameHolding(s, PublishStep(s)) && PublishStep(s).server == s.server
  {
    var t := PublishStep(s);
    match s.poller
    case Saving(fetched) => assert t.poller == Writing(fetched);
    case Publishing(fetched) => assert t.store.snapshot == fetched && !InTransit(t.poller);
    case AnnouncingError =>
    case MarkingStore => assert t.store.snapshot == s.store.snapshot;
    case MarkingReady =>
    case AnnouncingReady =>
    case AnnouncingUpdate =>
  }

  lemma WaitHolds(s: State)
    requires s.server.tag in s.server.contents && InWait(s.poller)
    ensures SameHolding(s, WaitStep(s)) && WaitStep(s).server == s.server
  {
    var t := WaitStep(s);
    assert t.store == s.store && !InTransit(t.poller);
  }

  lemma OthersHold(s: State, a: Action)
    requires s.server.tag in s.server.contents && ClientInvariant(s)
    requires Enabled(s, a) && !a.Receive?
    ensures SameHolding(s, Next(s, a)) && (!a.ServerMoves? ==> Next(s, a).server == s.server)
  {
    match a
    case StepStart => StartHolds(s);
    case StepStop => StopHolds(s);
    case StepFetch => FetchHolds(s);
    case StepPublish => PublishHolds(s);
    case StepWait => WaitHolds(s);
    case _ =>
  }

  /** An honest reply leaves the held set equal to the server's, if it is a 304 or a decoded 2xx. */
  lemma HonestReplyHolds(s: State, reply: Reply)
    requires PollInvariant(s) && s.poller.AwaitingReply? && Honest(s, reply)
    ensures PollInvariant(AfterReply(s, reply))
    ensures NotModified(reply) || Decoded(reply) ==> Held(AfterReply(s, reply)) == s.server.contents[s.server.tag]
  {
    ResultsWithoutError(reply);
    SyncIsKept(s.fetcher.etag, s.fetcher.headers, reply);
  }

  lemma {:induction false} PollInvariantRun(s: State, steps: seq<Action>)
    requires ClientInvariant(s) && PollInvariant(s) && IsRun(s, steps) && HonestRun(s, steps)
    ensures PollInvariant(After(s, steps))
    decreases |steps|
  {
    if steps != [] {
      var a := steps[0];
      InvariantStep(s, a);
      if a.Receive? {
        HonestReplyHolds(s, a.reply);
      } else {
        OthersHold(s, a);
      }
      PollInvariantRun(Next(s, a), steps[1..]);
    }
  }

  lemma InitiallyCoherent(s: State, cfg: Config, server: Server, c: ContextFields, cell: Stored)
    requires IsInitial(s, cfg, server, c, cell) && NoConditionalHeader(cfg) && GoodServer(server)
    ensures ClientInvariant(s) && PollInvariant(s)
  {
    FirstRequestIsUnconditionalIff(cfg);
  }

  /**
   * Whenever no set is in transit, the snapshot is the one a client would hold that had transferred
   * the whole set at each successful poll; a stored tag always names the snapshot.
   */
  lemma {:induction false} ConditionalPollingRefinesUnconditional(
    s: State, cfg: Config, server: Server, c: ContextFields, cell: Stored, steps: seq<Action>)
    requires IsInitial(s, cfg, server, c, cell) && NoConditionalHeader(cfg) && GoodServer(server)
    requires IsRun(s, steps) && HonestRun(s, steps)
    ensures var t := After(s, steps);
            !InTransit(t.poller) ==>
              && (t.past.unconditional.Some? ==> t.store.snapshot == t.past.unconditional.value)
              && (t.fetcher.etag != "" ==> t.fetcher.etag in t.server.contents
                                           && t.store.snapshot == t.server.contents[t.fetcher.etag])
  {
    InitiallyCoherent(s, cfg, server, c, cell);
    PollInvariantRun(s, steps);
  }

  /** After each 304 and each decoded 2xx the set published, or about to be, is the server's current one. */
  lemma {:induction false} EachSuccessIsCurrent(
    s: State, cfg: Config, server: Server, c: ContextFields, cell: Stored, steps: seq<Action>, reply: Reply)
    requires IsInitial(s, cfg, server, c, cell) && NoConditionalHeader(cfg) && GoodServer(server)
    requires IsRun(s, steps) && HonestRun(s, steps)
    requires After(s, steps).poller.AwaitingReply? && Honest(After(s, steps), reply)
    ensures var t := After(s, steps);
            NotModified(reply) || Decoded(reply) ==> Held(AfterReply(t, reply)) == t.server.contents[t.server.tag]
  {
    InitiallyCoherent(s, cfg, server, c, cell);
    PollInvariantRun(s, steps);
    HonestReplyHolds(After(s, steps), reply);
  }

  // ---- exactly when replies keep the client in agreement with the server ----

  /** Dropping the assumptions on the server: an empty set, or a decoded reply without a tag. */
  predicate KeepsCoherence(s: State, reply: Reply)
    requires s.server.tag in s.server.contents && (s.fetcher.etag != "" ==> s.fetcher.etag in s.server.contents)
  {
    var current := s.server.contents[s.server.tag];
    Decoded(reply) ==>
      if CarriesTag(reply) then current != map[] || s.store.snapshot == map[]
      else current == map[] || s.fetcher.etag == "" || s.server.contents[s.fetcher.etag] == current
  }

  /** An empty set is never published, with or without a tag. */
  predicate IsTaken(s: State, reply: Reply)
    requires s.server.tag in s.server.contents
  {
    Decoded(reply) ==> s.server.contents[s.server.tag] != map[] || s.store.snapshot == map[]
  }

  /**
   * A truthful reply leaves the stored tag naming the set held if and only if it is neither an empty set with
   * a tag over a non-empty snapshot, whose tag is stored while the old snapshot stays, nor a changed set
   * without a tag over a stored tag, which is published while the old tag stays.
   */
  lemma ReplyKeepsCoherenceIff(s: State, reply: Reply)
    requires Coherent(s) && s.poller.AwaitingReply? && Truthful(s, reply)
    ensures Coherent(AfterReply(s, reply)) <==> KeepsCoherence(s, reply)
  {
    ResultsWithoutError(reply);
    SyncIsKept(s.fetcher.etag, s.fetcher.headers, reply);
  }

  /** And a success leaves the client with the server's current set if and only if that set is taken. */
  lemma SuccessIsCurrentIff(s: State, reply: Reply)
    requires Coherent(s) && s.poller.AwaitingReply? && Truthful(s, reply)
    requires NotModified(reply) || Decoded(reply)
    ensures Held(AfterReply(s, reply)) == s.server.contents[s.server.tag] <==> IsTaken(s, reply)
  {
    ResultsWithoutError(reply);
  }

  lemma ReplyKeepsAgreementIff(s: State, reply: Reply)
    requires Coherent(s) && Refines(s) && s.poller.AwaitingReply? && Truthful(s, reply)
    ensures var t := AfterReply(s, reply);
            Coherent(t) && Refines(t) <==> KeepsCoherence(s, reply) && IsTaken(s, reply)
  {
    ReplyKeepsCoherenceIff(s, reply);
    ResultsWithoutError(reply);
    if NotModified(reply) || Decoded(reply) {
      SuccessIsCurrentIff(s, reply);
    }
  }

  ghost predicate TruthfulRun(s: State, steps: seq<Action>)
    requires IsRun(s, steps)
    decreases |steps|
  {
    steps == [] ||
    ((steps[0].Receive? ==> Truthful(s, steps[0].reply)) && TruthfulRun(Next(s, steps[0]), steps[1..]))
  }

  /** In every state of the run the stored tag names the set held, which is the unconditional client's. */
  ghost predicate AgreesThroughout(s: State, steps: seq<Action>)
    requires IsRun(s, steps)
    decreases |steps|
  {
    Coherent(s) && Refines(s) && (steps == [] || AgreesThroughout(Next(s, steps[0]), steps[1..]))
  }

  /** No reply is an empty set over a non-empty snapshot, or a changed set without a tag over a stored tag. */
  ghost predicate OnlyGoodReplies(s: State, steps: seq<Action>)
    requires IsRun(s, steps)
    decreases |steps|
  {
    steps == [] ||
    ((steps[0].Receive? ==> GoodReply(s, steps[0].reply)) && OnlyGoodReplies(Next(s, steps[0]), steps[1..]))
  }

  /** What the server can check before it answers; a tag that is stored but unknown to it counts as bad. */
  predicate GoodReply(s: State, reply: Reply) {
    Decoded(reply) && s.server.tag in s.server.contents ==>
      var current := s.server.contents[s.server.tag];
      if current == map[] then s.store.snapshot == map[]
      else CarriesTag(reply) || s.fetcher.etag == ""
           || (s.fetcher.etag in s.server.contents && s.server.contents[s.fetcher.etag] == current)
  }

  lemma {:induction false} AgreementRun(s: State, steps: seq<Action>)
    requires ClientInvariant(s) && s.server.tag in s.server.contents && Coherent(s) && Refines(s)
    requires IsRun(s, steps) && TruthfulRun(s, steps)
    ensures AgreesThroughout(s, steps) <==> OnlyGoodReplies(s, steps)
    decreases |steps|
  {
    if steps != [] {
      var a, t := steps[0], Next(s, steps[0]);
      InvariantStep(s, a);
      if a.Receive? {
        ReplyKeepsAgreementIff(s, a.reply);
        assert GoodReply(s, a.reply) <==> KeepsCoherence(s, a.reply) && IsTaken(s, a.reply);
      } else {
        OthersHold(s, a);
      }
      if Coherent(t) && Refines(t) {
        AgreementRun(t, steps[1..]);
      }
    }
  }

  /**
   * Exactly when conditional polling refines unconditional polling: against any server that answers truthfully,
   * whatever its sets and tags, in every run the client agrees with an unconditional one throughout if and
   * only if no reply is an empty set over a non-empty snapshot, with or without a tag, or a changed set
   * without a tag over a stored tag.
   */
  lemma {:induction false} RefinementIff(
    s: State, cfg: Config, server: Server, c: ContextFields, cell: Stored, steps: seq<Action>)
    requires IsInitial(s, cfg, server, c, cell) && NoConditionalHeader(cfg) && server.tag in server.contents
    requires IsRun(s, steps) && TruthfulRun(s, steps)
    ensures AgreesThroughout(s, steps) <==> OnlyGoodReplies(s, steps)
  {
    FirstRequestIsUnconditionalIff(cfg);
    AgreementRun(s, steps);
  }
}
