/** The client's own methods, each run by one thread without interference. */
module Client {
  import opened Wrappers
  import opened Domain
  import opened JsonValue
  import opened JsonCodec
  import opened ClientConfig
  import opened Context
  import ContextQuery
  import EventHandler
  import opened ToggleFetcher
  import opened Store
  import opened Metrics
  import Polling

  type Event = EventHandler.Event
  type Shared = EventHandler.Shared

  /** The events of one poll, in order: Ready goes before Update, and only the first time. */
  function PollEvents(ready: bool, r: FetchResult): seq<Event> {
    if r.error.Some? then [EventHandler.Error(EventHandler.ToggleFetchFailed)]
    else if r.toggles.None? then []
    else UpdateEvents(ready)
  }

  function UpdateEvents(ready: bool): seq<Event> {
    if ready then [EventHandler.Update] else [EventHandler.Ready, EventHandler.Update]
  }

  function EmitAll(s: Shared, events: seq<Event>): Shared
    decreases |events|
  {
    if events == [] then s else EmitAll(EventHandler.EmitAlone(s, events[0]), events[1..])
  }

  lemma EmitOne(s: Shared, e: Event)
    ensures EmitAll(s, [e]) == EventHandler.EmitAlone(s, e)
  {
    assert [e][1..] == [];
  }

  lemma EmitTwo(s: Shared, e: Event, f: Event)
    ensures EmitAll(s, [e, f]) == EventHandler.EmitAlone(EventHandler.EmitAlone(s, e), f)
  {
    assert [e, f][1..] == [f];
    EmitOne(EventHandler.EmitAlone(s, e), f);
  }

  /** What a poll may change in the client, its stored copy apart. */
  datatype Visible = Visible(
    store: FlagStoreState, ready: bool, etag: string, headers: map<string, string>, handler: Shared)

  function StoreAfterPoll(store: FlagStoreState, r: FetchResult): FlagStoreState {
    if r.error.None? && r.toggles.Some? then FlagStoreState(r.toggles.value, true) else store
  }

  function AfterPoll(v: Visible, reply: Reply): Visible {
    var r := Classify(reply);
    Visible(StoreAfterPoll(v.store, r), v.ready || r.toggles.Some?,
            TagAfter(v.etag, reply), HeadersAfter(v.headers, reply), EmitAll(v.handler, PollEvents(v.ready, r)))
  }

  /** A failed poll emits one Error event and leaves store and flag alone. */
  lemma FailedPoll(v: Visible, reply: Reply)
    requires Classify(reply).error.Some?
    ensures AfterPoll(v, reply)
         == v.(etag := TagAfter(v.etag, reply), headers := HeadersAfter(v.headers, reply),
               handler := EventHandler.EmitAlone(v.handler, EventHandler.Error(EventHandler.ToggleFetchFailed)))
    ensures Classify(reply).toggles.None?
  {
    ResultsWithoutError(reply);
    EmitOne(v.handler, EventHandler.Error(EventHandler.ToggleFetchFailed));
  }

  /** One that brings no toggles changes at most the tag. */
  lemma UnchangedPoll(v: Visible, reply: Reply)
    requires Classify(reply).error.None? && Classify(reply).toggles.None?
    ensures AfterPoll(v, reply)
         == v.(etag := TagAfter(v.etag, reply), headers := HeadersAfter(v.headers, reply))
  {
  }

  /** One that brings toggles publishes them, and emits Update, after Ready if the client was not ready before. */
  lemma SuccessfulPoll(v: Visible, reply: Reply)
    requires Classify(reply).toggles.Some?
    ensures AfterPoll(v, reply)
         == Visible(FlagStoreState(Classify(reply).toggles.value, true), true,
                    TagAfter(v.etag, reply), HeadersAfter(v.headers, reply), EmitAll(v.handler, UpdateEvents(v.ready)))
    ensures var update := EventHandler.EmitAlone(v.handler, EventHandler.Update);
            var ready := EventHandler.EmitAlone(v.handler, EventHandler.Ready);
            AfterPoll(v, reply).handler
            == if v.ready then update else EventHandler.EmitAlone(ready, EventHandler.Update)
  {
    ResultsWithoutError(reply);
    EmitOne(v.handler, EventHandler.Update);
    EmitTwo(v.handler, EventHandler.Ready, EventHandler.Update);
  }

  /** The set that was fetched is stored, if the file can be opened. */
  ghost predicate CopyAfterPoll(before: Stored, after: Stored, reply: Reply, opens: bool) {
    if Classify(reply).toggles.Some? && opens then Stores(after, Classify(reply).toggles.value) else after == before
  }

  /** One poll: the context it fetched for, the request sent, the reply, and whether the copy could be written. */
  datatype Poll = Poll(context: ContextFields, request: HttpRequest, reply: Reply, opens: bool)

  function AfterPolls(v: Visible, polls: seq<Poll>): Visible {
    if polls == [] then v else AfterPoll(AfterPolls(v, polls[..|polls| - 1]), polls[|polls| - 1].reply)
  }

  /** The stored copy is that of the last poll that wrote one. */
  ghost predicate CopyAfterPolls(before: Stored, after: Stored, polls: seq<Poll>) {
    if polls == [] then after == before
    else
      var p := polls[|polls| - 1];
      if Classify(p.reply).toggles.Some? && p.opens then Stores(after, Classify(p.reply).toggles.value)
      else CopyAfterPolls(before, after, polls[..|polls| - 1])
  }

  lemma OneMorePoll(v: Visible, polls: seq<Poll>, p: Poll)
    ensures AfterPolls(v, polls + [p]) == AfterPoll(AfterPolls(v, polls), p.reply)
  {
    assert (polls + [p])[..|polls|] == polls;
  }

  lemma OneMoreCopy(before: Stored, between: Stored, after: Stored, polls: seq<Poll>, p: Poll)
    requires CopyAfterPolls(before, between, polls) && CopyAfterPoll(between, after, p.reply, p.opens)
    ensures CopyAfterPolls(before, after, polls + [p])
  {
    assert (polls + [p])[..|polls|] == polls;
  }

  /** The store holds the toggles of the last reply that carried any, whatever the others were. */
  lemma {:induction false} LastFetchedSetIsHeld(v: Visible, polls: seq<Poll>, i: nat)
    requires i < |polls| && Classify(polls[i].reply).toggles.Some?
    requires forall j :: i < j < |polls| ==> Classify(polls[j].reply).toggles.None?
    ensures AfterPolls(v, polls).store == FlagStoreState(Classify(polls[i].reply).toggles.value, true)
    ensures AfterPolls(v, polls).ready
  {
    var n := |polls| - 1;
    var front := polls[..n];
    var before, reply := AfterPolls(v, front), polls[n].reply;
    assert AfterPolls(v, polls) == AfterPoll(before, reply);
    if i == n {
      SuccessfulPoll(before, reply);
    } else {
      assert forall j :: 0 <= j < n ==> front[j] == polls[j];
      LastFetchedSetIsHeld(v, front, i);
    }
  }

  /** The stored copy is of the set of the last poll that could write one, and untouched if there was none. */
  lemma {:induction false} LastWrittenSetIsStored(before: Stored, after: Stored, polls: seq<Poll>, i: nat)
    requires CopyAfterPolls(before, after, polls) && i <= |polls|
    requires forall j :: i <= j < |polls| ==> Classify(polls[j].reply).toggles.None? || !polls[j].opens
    ensures i == 0 ==> after == before
    ensures i > 0 && Classify(polls[i - 1].reply).toggles.Some? && polls[i - 1].opens ==>
              Stores(after, Classify(polls[i - 1].reply).toggles.value)
  {
    var n := |polls| - 1;
    if i < |polls| {
      assert forall j :: 0 <= j < n ==> polls[..n][j] == polls[j];
      LastWrittenSetIsStored(before, after, polls[..n], i);
    }
  }

  /** What happens around one pass of the polling loop while the poller waits. */
  datatype Turn = Turn(update: Option<MutableFields>, exit: bool, server: HttpRequest -> Reply, opens: bool)

  /** The passes that end in a fetch: those before the first that raises the exit flag. */
  function TurnsBeforeExit(turns: seq<Turn>): nat {
    if turns == [] || turns[0].exit then 0 else 1 + TurnsBeforeExit(turns[1..])
  }

  /** The context as the updates of the turns so far have left it. */
  function ContextAfter(c: ContextFields, turns: seq<Turn>): ContextFields {
    if turns == [] then c
    else
      var front, update := ContextAfter(c, turns[..|turns| - 1]), turns[|turns| - 1].update;
      if update.Some? then UpdateMutable(front, update.value) else front
  }

  /** The first turn that raises the exit flag ends the counting. */
  lemma {:induction false} TurnsBeforeExitIs(turns: seq<Turn>)
    ensures var n := TurnsBeforeExit(turns);
            && n <= |turns| && (forall i :: 0 <= i < n ==> !turns[i].exit)
            && (n < |turns| ==> turns[n].exit)
  {
    if turns != [] && !turns[0].exit {
      TurnsBeforeExitIs(turns[1..]);
      assert forall i :: 1 <= i < |turns| ==> turns[i] == turns[1..][i - 1];
    }
  }

  /** The context has the mutable fields of the last update, and the identity it had. */
  lemma {:induction false} ContextAfterIs(c: ContextFields, turns: seq<Turn>)
    ensures var d := ContextAfter(c, turns);
            && d.appName == c.appName && d.sessionId == c.sessionId && d.environment == c.environment
            && (forall i :: 0 <= i < |turns| && turns[i].update.Some?
                            && (forall j :: i < j < |turns| ==> turns[j].update.None?)
                  ==> d.mutable == turns[i].update.value)
            && ((forall i :: 0 <= i < |turns| ==> turns[i].update.None?) ==> d == c)
  {
    if turns != [] {
      var n := |turns| - 1;
      var front := turns[..n];
      ContextAfterIs(c, front);
      assert forall i :: 0 <= i < n ==> front[i] == turns[i];
      if turns[n].update.Some? {
        UpdateReplaces(ContextAfter(c, front), turns[n].update.value);
      }
    }
  }

  /** A poll fetches for the current context, announces the current tag, and takes what the server then answers. */
  ghost predicate PollOfTurn(p: Poll, c: ContextFields, headers: map<string, string>, baseUrl: string, turn: Turn) {
    && p.context == c && CarriesContext(p.request, baseUrl, c) && p.request.headers == headers
    && p.reply == turn.server(p.request) && p.opens == turn.opens
  }

  /** The k-th poll belongs to the k-th turn; the first comes before all turns. */
  ghost predicate PollsOfTurns(
    polls: seq<Poll>, v: Visible, c: ContextFields, baseUrl: string, first: Turn, turns: seq<Turn>)
  {
    && |polls| <= 1 + |turns|
    && forall k :: 0 <= k < |polls| ==>
         PollOfTurn(polls[k], ContextAfter(c, turns[..k]), AfterPolls(v, polls[..k]).headers, baseUrl,
                    if k == 0 then first else turns[k - 1])
  }

  lemma OneMorePollOfTurns(
    polls: seq<Poll>, p: Poll, v: Visible, c: ContextFields, baseUrl: string, first: Turn, turns: seq<Turn>)
    requires PollsOfTurns(polls, v, c, baseUrl, first, turns) && |polls| <= |turns|
    requires PollOfTurn(p, ContextAfter(c, turns[..|polls|]), AfterPolls(v, polls).headers, baseUrl,
                        if |polls| == 0 then first else turns[|polls| - 1])
    ensures PollsOfTurns(polls + [p], v, c, baseUrl, first, turns)
  {
    var more := polls + [p];
    forall k | 0 <= k < |more|
      ensures PollOfTurn(more[k], ContextAfter(c, turns[..k]), AfterPolls(v, more[..k]).headers, baseUrl,
                         if k == 0 then first else turns[k - 1])
    {
      assert more[..k] == polls[..k];
      if k == |polls| {
        assert polls[..k] == polls;
      } else {
        assert more[k] == polls[k];
        assert PollOfTurn(polls[k], ContextAfter(c, turns[..k]), AfterPolls(v, polls[..k]).headers, baseUrl,
                          if k == 0 then first else turns[k - 1]);
      }
    }
  }

  /** What the polling thread works on. */
  datatype Workplace = Workplace(visible: Visible, cell: Stored, baseUrl: string)

  /** These polls, one for each turn, lead from one state to the other. */
  ghost predicate PollsLead(
    polls: seq<Poll>, s: Workplace, t: Workplace, c: ContextFields, first: Turn, turns: seq<Turn>)
  {
    && PollsOfTurns(polls, s.visible, c, s.baseUrl, first, turns)
    && t.visible == AfterPolls(s.visible, polls)
    && CopyAfterPolls(s.cell, t.cell, polls)
    && t.baseUrl == s.baseUrl
  }

  ghost predicate PollLeads(p: Poll, s: Workplace, t: Workplace, c: ContextFields, turn: Turn) {
    && PollOfTurn(p, c, s.visible.headers, s.baseUrl, turn)
    && t.visible == AfterPoll(s.visible, p.reply)
    && CopyAfterPoll(s.cell, t.cell, p.reply, p.opens)
    && t.baseUrl == s.baseUrl
  }

  /** Poll k fetches for the context after k turns, with the tag then stored, and gets the answer of its turn. */
  lemma PollsLeadIs(
    polls: seq<Poll>, s: Workplace, t: Workplace, c: ContextFields, first: Turn, turns: seq<Turn>, k: nat)
    requires PollsLead(polls, s, t, c, first, turns) && k < |polls|
    ensures k <= |turns| && polls[k].context == ContextAfter(c, turns[..k])
    ensures var p := polls[k];
            && p.reply == (if k == 0 then first else turns[k - 1]).server(p.request)
            && p.opens == (if k == 0 then first else turns[k - 1]).opens
            && p.request.headers == AfterPolls(s.visible, polls[..k]).headers
            && (p.request.usePost ==> p.request.body == Some(ContextQuery.ContextBody(p.context)))
            && (!p.request.usePost ==>
                  p.request.url == s.baseUrl + ContextQuery.Print(ContextQuery.NonEmptyFields(p.context)))
    ensures t.visible == AfterPolls(s.visible, polls) && CopyAfterPolls(s.cell, t.cell, polls)
  {
    assert PollOfTurn(polls[k], ContextAfter(c, turns[..k]), AfterPolls(s.visible, polls[..k]).headers, s.baseUrl,
                      if k == 0 then first else turns[k - 1]);
  }

  lemma NoPollsLead(s: Workplace, c: ContextFields, first: Turn, turns: seq<Turn>)
    ensures PollsLead([], s, s, c, first, turns) && ContextAfter(c, turns[..0]) == c
  {
  }

  lemma OneMoreLeads(
    polls: seq<Poll>, p: Poll, s: Workplace, t: Workplace, u: Workplace,
    c: ContextFields, first: Turn, turns: seq<Turn>)
    requires PollsLead(polls, s, t, c, first, turns) && |polls| <= |turns|
    requires PollLeads(p, t, u, ContextAfter(c, turns[..|polls|]), if |polls| == 0 then first else turns[|polls| - 1])
    ensures PollsLead(polls + [p], s, u, c, first, turns)
  {
    OneMorePoll(s.visible, polls, p);
    OneMoreCopy(s.cell, t.cell, u.cell, polls, p);
    OneMorePollOfTurns(polls, p, s.visible, c, s.baseUrl, first, turns);
  }

  lemma OneMoreTurn(c: ContextFields, turns: seq<Turn>, i: nat)
    requires i < |turns|
    ensures ContextAfter(c, turns[..i + 1])
         == (if turns[i].update.Some? then UpdateMutable(ContextAfter(c, turns[..i]), turns[i].update.value)
             else ContextAfter(c, turns[..i]))
    ensures TurnsBeforeExit(turns[i..]) == if turns[i].exit then 0 else 1 + TurnsBeforeExit(turns[i + 1..])
  {
    assert turns[..i + 1][..i] == turns[..i];
    assert turns[i..][1..] == turns[i + 1..];
  }

  class UnleashClient {
    const cfg: Config
    const flagStore: FlagStore
    const provider: FileStorageProvider
    const fetcher: Fetcher
    const metricStore: MetricsStore
    const handler: EventHandler.EventHandler
    var running: bool
    var ready: bool
    var exitThreads: bool
    var contextUpdated: bool
    var context: ContextFields

    /** opens tells whether the provider can write its file; now is the clock's current time. */
    constructor (cfg: Config, context: ContextFields, provider: FileStorageProvider, opens: bool, now: string)
      modifies provider
      ensures this.cfg == cfg && this.context == context && this.provider == provider
      ensures !running && !ready && !exitThreads && !contextUpdated
      ensures fresh(flagStore) && fresh(fetcher) && fresh(handler) && fresh(metricStore.Repr())
      ensures flagStore.View() == Polling.InitialStore(cfg, old(provider.cell))
      ensures Polling.InitialCell(cfg, old(provider.cell), provider.cell)
      ensures if opens && !Polling.HasStoredToggles(old(provider.cell)) && Polling.UsesBootstrap(cfg)
              then Stores(provider.cell, cfg.bootstrap.value) else provider.cell == old(provider.cell)
      ensures handler.View() == EventHandler.Shared(false, [], map[])
      ensures metricStore.Valid() && metricStore.View() == map[]
      ensures metricStore.appName == cfg.appName && metricStore.instanceId == cfg.instanceId && metricStore.start == now
      ensures fetcher.baseUrl == cfg.url && fetcher.etag == "" && fetcher.usePost == cfg.usePostRequests
      ensures fetcher.headers == WithCustom(DefaultHeaders(cfg, ""), cfg.customHeaders)
    {
      this.cfg, this.context, this.provider := cfg, context, provider;
      running, ready, exitThreads, contextUpdated := false, false, false, false;
      flagStore := new FlagStore();
      fetcher := new Fetcher(cfg);
      handler := new EventHandler.EventHandler();
      metricStore := new MetricsStore(cfg.appName, cfg.instanceId, now);
      new;
      InitializeToggleCache(opens);
    }

    method InitializeToggleCache(opens: bool)
      requires flagStore.View() == FlagStoreState(map[], false)
      modifies flagStore, provider
      ensures flagStore.View() == Polling.InitialStore(cfg, old(provider.cell))
      ensures Polling.InitialCell(cfg, old(provider.cell), provider.cell)
      ensures if opens && !Polling.HasStoredToggles(old(provider.cell)) && Polling.UsesBootstrap(cfg)
              then Stores(provider.cell, cfg.bootstrap.value) else provider.cell == old(provider.cell)
    {
      var bootstrapValid := false;
      if cfg.bootstrapOverride && cfg.bootstrap.Some? && cfg.bootstrap.value != map[] {
        flagStore.Replace(cfg.bootstrap);
        bootstrapValid := true;
      }
      var cached := provider.Get();
      if cached.Some? && |cached.value| > 0 {
        flagStore.Replace(cached);
      } else if bootstrapValid {
        PersistToggles(cfg.bootstrap.value, opens);
      }
    }

    method PersistToggles(t: ToggleSet, opens: bool)
      modifies provider
      ensures if opens then Stores(provider.cell, t) else provider.cell == old(provider.cell)
    {
      provider.Save(t, opens);
    }

    function View(): Visible
      reads this, flagStore, fetcher, handler
    {
      Visible(flagStore.View(), ready, fetcher.etag, fetcher.headers, handler.View())
    }

    ghost function Work(): Workplace
      reads this, flagStore, fetcher, handler, provider
    {
      Workplace(View(), provider.cell, fetcher.baseUrl)
    }

    /** A poll with what its turn supplies. */
    method FetchInTurn(c: ContextFields, turn: Turn) returns (ghost poll: Poll)
      modifies this`ready, flagStore, provider, fetcher, handler
      ensures PollLeads(poll, old(Work()), Work(), c, turn)
    {
      poll := SingleFetchToggles(c, turn.server, turn.opens);
    }

    method SingleFetchToggles(c: ContextFields, server: HttpRequest -> Reply, opens: bool)
      returns (ghost poll: Poll)
      modifies this`ready, flagStore, provider, fetcher, handler
      ensures poll.context == c && poll.opens == opens && poll.reply == server(poll.request)
      ensures CarriesContext(poll.request, old(fetcher.baseUrl), c) && poll.request.headers == old(fetcher.headers)
      ensures View() == AfterPoll(old(View()), poll.reply)
      ensures CopyAfterPoll(old(provider.cell), provider.cell, poll.reply, opens)
      ensures if Classify(poll.reply).toggles.Some? && opens
              then Stores(provider.cell, Classify(poll.reply).toggles.value) else provider.cell == old(provider.cell)
      ensures fetcher.baseUrl == old(fetcher.baseUrl)
    {
      ghost var v := View();
      var result, sent := fetcher.Fetch(c, server);
      poll := Poll(c, sent, server(sent), opens);
      HandleResult(result, opens, v, poll.reply);
    }

    /** What is done with the outcome of a fetch; v is the state before it. */
    method HandleResult(result: FetchResult, opens: bool, ghost v: Visible, ghost reply: Reply)
      requires result == Classify(reply)
      requires View() == v.(etag := TagAfter(v.etag, reply), headers := HeadersAfter(v.headers, reply))
      modifies this`ready, flagStore, provider, handler
      ensures View() == AfterPoll(v, reply)
      ensures CopyAfterPoll(old(provider.cell), provider.cell, reply, opens)
    {
      ResultsWithoutError(reply);
      if result.error.Some? {
        FailedPoll(v, reply);
        var _ := handler.Emit(EventHandler.Error(EventHandler.ToggleFetchFailed));
        return;
      }
      if result.status == NO_UPDATE {
        UnchangedPoll(v, reply);
        return;
      }
      if OK_LOWER <= result.status < OK_UPPER {
        if result.toggles.Some? {
          SuccessfulPoll(v, reply);
          PersistToggles(result.toggles.value, opens);
          Publish(result.toggles.value);
        } else {
          UnchangedPoll(v, reply);
        }
      } else {
        // an error would be dereferenced here; every result without one is a 304 or a 2xx
        assert false;
      }
    }

    /** The end of a successful poll. */
    method Publish(t: ToggleSet)
      modifies this`ready, flagStore, handler
      ensures flagStore.View() == FlagStoreState(t, true) && ready
      ensures handler.View() == EmitAll(old(handler.View()), UpdateEvents(old(ready)))
    {
      EmitOne(handler.View(), EventHandler.Update);
      EmitTwo(handler.View(), EventHandler.Ready, EventHandler.Update);
      flagStore.Replace(Some(t));
      var wasReady := ready;
      ready := true;
      if !wasReady {
        var _ := handler.Emit(EventHandler.Ready);
      }
      var _ := handler.Emit(EventHandler.Update);
    }

    /** The two emissions come before the handler is started, so a stopped handler drops both. */
    method Start() returns (spawns: bool)
      requires !running ==> !handler.started
      modifies this, handler
      ensures running && spawns == !old(running)
      ensures !spawns ==>
                ready == old(ready) && exitThreads == old(exitThreads) && handler.View() == old(handler.View())
      ensures spawns ==>
                && ready == (old(ready) || flagStore.ready) && !exitThreads
                && handler.View() == old(handler.View()).(started := true)
      ensures context == old(context) && contextUpdated == old(contextUpdated)
    {
      spawns := !running;
      running := true;
      if !spawns {
        return;
      }
      var _ := handler.Emit(EventHandler.Init);
      if flagStore.ready {
        var _ := handler.Emit(EventHandler.Ready);
        ready := true;
      }
      exitThreads := false;
      var _ := handler.Start();
      running := true;
    }

    /** The wait under the polling mutex: the flag of an update is cleared unless the client is stopping. */
    method AwaitTurn(turn: Turn) returns (snapshot: ContextFields)
      modifies this`context, this`contextUpdated, this`exitThreads
      ensures exitThreads == turn.exit && snapshot == context && Work() == old(Work())
      ensures context == if turn.update.Some? then UpdateMutable(old(context), turn.update.value) else old(context)
      ensures contextUpdated == (exitThreads && (turn.update.Some? || old(contextUpdated)))
    {
      if turn.update.Some? {
        UpdateContext(turn.update.value);
      }
      exitThreads := turn.exit;
      if exitThreads {
        return context;
      }
      contextUpdated := false;
      return context;
    }

    /**
     * The polling thread's loop over the turns seen so far. Other threads act only while it waits:
     * each turn may update the context and may raise the exit flag.
     */
    method FeaturePollingLoop(first: Turn, turns: seq<Turn>) returns (ghost polls: seq<Poll>)
      modifies this`ready, this`exitThreads, this`contextUpdated, this`context, flagStore, provider, fetcher, handler
      ensures |polls| == if !cfg.refreshEnabled then 0
                         else if old(exitThreads) then 1 else 1 + TurnsBeforeExit(turns)
      ensures PollsLead(polls, old(Work()), Work(), old(context), first, turns)
    {
      polls := [];
      ghost var s, c := Work(), context;
      ghost var stopping, total := exitThreads, 1 + TurnsBeforeExit(turns);
      NoPollsLead(s, c, first, turns);
      if !cfg.refreshEnabled {
        return;
      }
      ghost var poll := FetchInTurn(context, first);
      OneMoreLeads([], poll, s, s, Work(), c, first, turns);
      polls := [] + [poll];
      var i := 0;
      while !exitThreads && i < |turns|
        invariant 0 <= i <= |turns|
        invariant exitThreads ==> |polls| <= i + 1
        invariant !exitThreads ==> |polls| == i + 1 && !stopping && |polls| + TurnsBeforeExit(turns[i..]) == total
        invariant exitThreads ==> |polls| == if stopping then 1 else total
        invariant !exitThreads ==> context == ContextAfter(c, turns[..i])
        invariant PollsLead(polls, s, Work(), c, first, turns)
      {
        ghost var t := Work();
        OneMoreTurn(c, turns, i);
        var snapshot := AwaitTurn(turns[i]);
        if exitThreads {
          break;
        }
        poll := FetchInTurn(snapshot, turns[i]);
        OneMoreLeads(polls, poll, s, t, Work(), c, first, turns);
        polls := polls + [poll];
        i := i + 1;
      }
    }

    method Stop() returns (joins: bool)
      modifies this, handler
      ensures !running && joins == old(running)
      ensures exitThreads == (old(exitThreads) || joins)
      ensures handler.View() == (if joins then EventHandler.StopAlone(old(handler.View())) else old(handler.View()))
      ensures joins ==> !handler.started
      ensures handler.eventQueue == if joins && old(handler.started) then [] else old(handler.eventQueue)
      ensures ready == old(ready) && context == old(context) && contextUpdated == old(contextUpdated)
    {
      joins := running;
      running := false;
      if !joins {
        return;
      }
      exitThreads := true;
      var _ := handler.Stop();
      running := false;
    }

    /**
     * send stands for the network; its answer only tells whether an error event follows. The clock reads
     * stop when the payload is made, and restart at the reset after the send.
     */
    method SendMetrics(stop: string, restart: string, send: Json -> bool) returns (sent: Option<Json>, ok: bool)
      requires metricStore.Valid()
      modifies metricStore
      ensures metricStore.Valid() && metricStore.View() == map[] && metricStore.start == restart
      ensures sent == if old(metricStore.View()) == map[] then None
                      else Some(EncodeMetrics(old(metricStore.View()), old(metricStore.start), stop,
                                              metricStore.appName, metricStore.instanceId))
      ensures ok <==> sent.Some? ==> send(sent.value)
    {
      ghost var tally := metricStore.View();
      var empty := metricStore.Empty();
      assert metricStore.View() == tally;
      if empty {
        sent, ok := None, true;
      } else {
        sent := metricStore.ToJsonMetricsPayload(stop);
        assert metricStore.View() == tally;
        ok := send(sent.value);
      }
      metricStore.Reset(restart);
    }

    /**
     * One pass of the sending loop: exit tells whether the exit flag is up when the wait ends. The error event
     * of a failed send follows the reset.
     */
    method WaitAndMaybeSend(exit: bool, stop: string, restart: string, send: Json -> bool)
      returns (goesOn: bool, ghost sent: Option<Json>)
      requires Separate()
      modifies this`exitThreads, metricStore, handler
      ensures metricStore.Valid() && exitThreads == exit && goesOn == !exit
      ensures exit ==> sent == None && metricStore.View() == old(metricStore.View())
                       && metricStore.start == old(metricStore.start)
      ensures !exit ==> metricStore.View() == map[] && metricStore.start == restart
                        && sent == (if old(metricStore.View()) == map[] then None
                                    else Some(EncodeMetrics(old(metricStore.View()), old(metricStore.start), stop,
                                                            metricStore.appName, metricStore.instanceId)))
      ensures handler.View() == (if sent.Some? && !send(sent.value)
                                 then EventHandler.EmitAlone(old(handler.View()),
                                                             EventHandler.Error(EventHandler.MetricSendingFailed))
                                 else old(handler.View()))
    {
      exitThreads := exit;
      if exitThreads {
        return false, None;
      }
      var payload, ok := SendMetrics(stop, restart, send);
      sent := payload;
      if !ok {
        var _ := handler.Emit(EventHandler.Error(EventHandler.MetricSendingFailed));
      }
      return true, sent;
    }

    method UpdateContext(fields: MutableFields)
      modifies this`context, this`contextUpdated
      ensures context == UpdateMutable(old(context), fields) && contextUpdated
      ensures context.mutable == fields && context.appName == old(context.appName)
      ensures context.sessionId == old(context.sessionId) && context.environment == old(context.environment)
    {
      context := context.(mutable := fields);
      contextUpdated := true;
    }

    ghost predicate Separate()
      reads this, metricStore, metricStore.list, metricStore.Repr()
    {
      metricStore.Valid() && this !in metricStore.Repr() && handler !in metricStore.Repr()
      && flagStore !in metricStore.Repr()
    }

    method IsEnabled(flag: string) returns (enabled: bool)
      requires Separate()
      modifies handler, metricStore.Repr()
      ensures metricStore.Valid()
      ensures var t := flagStore.snapshot; var answers := ready && flag in t;
              && enabled == (answers && t[flag].enabled)
              && metricStore.View() == (if answers then Record(old(metricStore.View()),
                                          Use(flag, t[flag].enabled, None))
                                        else old(metricStore.View()))
              && handler.View() == (if answers && (cfg.impressionDataAll || t[flag].impressionData)
                                    then EventHandler.EmitAlone(old(handler.View()), EventHandler.Impression(
                                      EventHandler.ClientImpression(
                                        context, flag, t[flag].enabled, "isEnabled", t[flag].impressionData, "")))
                                    else old(handler.View()))
    {
      if !ready {
        return false;
      }
      var t := flagStore.snapshot;
      if flag !in t {
        return false;
      }
      enabled := FlagEnabled(t, flag);
      metricStore.AddEnableMetric(flag, enabled);
      var impression := FlagImpression(t, flag);
      if cfg.impressionDataAll || impression {
        var _ := handler.Emit(EventHandler.Impression(
          EventHandler.ClientImpression(context, flag, enabled, "isEnabled", impression, "")));
      }
    }

    method GetVariant(flag: string) returns (variant: Variant)
      requires Separate()
      modifies handler, metricStore.Repr()
      ensures metricStore.Valid()
      ensures var t := flagStore.snapshot; var answers := ready && flag in t;
              && variant == (if answers then t[flag].variant else VariantFields("disabled", false, None))
              && metricStore.View() == (if answers then Record(old(metricStore.View()),
                                          Use(flag, t[flag].enabled, Some(t[flag].variant.name)))
                                        else old(metricStore.View()))
              && handler.View() == (if answers && (cfg.impressionDataAll || t[flag].impressionData)
                                    then EventHandler.EmitAlone(old(handler.View()), EventHandler.Impression(
                                      EventHandler.ClientImpression(
                                        context, flag, t[flag].enabled, "getVariant", t[flag].impressionData,
                                        t[flag].variant.name)))
                                    else old(handler.View()))
    {
      if !ready {
        return DISABLED_VARIANT;
      }
      var t := flagStore.snapshot;
      if flag !in t {
        return DISABLED_VARIANT;
      }
      var enabled := FlagEnabled(t, flag);
      variant := FlagVariant(t, flag);
      metricStore.AddVariantMetric(flag, enabled, variant.name);
      var impression := FlagImpression(t, flag);
      if cfg.impressionDataAll || FlagImpression(t, flag) {
        var _ := handler.Emit(EventHandler.Impression(
          EventHandler.ClientImpression(context, flag, enabled, "getVariant", impression, variant.name)));
      }
    }
  }

  // ---- the polling methods are the system's steps ----

  function OfferAll(events: seq<Event>, poll: nat): seq<Polling.Offer> {
    if events == [] then [] else [Polling.Offer(events[0], poll)] + OfferAll(events[1..], poll)
  }

  /** The system has gone through a poll with the outcome of the method. */
  ghost predicate PollHasRun(s: Polling.State, t: Polling.State, reply: Reply, opens: bool) {
    && t.poller.LoopTest?
    && t.store == StoreAfterPoll(s.store, Classify(reply))
    && t.ready == (s.ready || Classify(reply).toggles.Some?)
    && t.fetcher == Polling.FetcherState(TagAfter(s.fetcher.etag, reply), HeadersAfter(s.fetcher.headers, reply))
    && CopyAfterPoll(s.cell, t.cell, reply, opens)
    && t.past.offered == s.past.offered + OfferAll(PollEvents(s.ready, Classify(reply)), s.past.polls)
  }

  lemma FailedPollIsItsSteps(s: Polling.State, reply: Reply, opens: bool) returns (steps: seq<Polling.Action>)
    requires s.poller.AwaitingReply? && s.handlerStarted && Classify(reply).error.Some?
    ensures Polling.IsRun(s, steps)
    ensures PollHasRun(s, Polling.After(s, steps), reply, opens)
  {
    ResultsWithoutError(reply);
    steps := Polling.OneStepMore(s, [], Polling.Receive(reply));
    steps := Polling.OneStepMore(s, steps, Polling.StepPublish);
    assert OfferAll([EventHandler.Error(EventHandler.ToggleFetchFailed)], s.past.polls)
        == [Polling.Offer(EventHandler.Error(EventHandler.ToggleFetchFailed), s.past.polls)] + [];
  }

  lemma FetchedSetIsStored(s: Polling.State, reply: Reply, opens: bool) returns (steps: seq<Polling.Action>)
    requires s.poller.AwaitingReply? && Classify(reply).toggles.Some?
    ensures Polling.IsRun(s, steps)
    ensures var t := Polling.After(s, steps);
            && t.poller == Polling.Publishing(Classify(reply).toggles.value)
            && CopyAfterPoll(s.cell, t.cell, reply, opens)
            && t.fetcher == Polling.AfterReply(s, reply).fetcher
            && t.ready == s.ready && t.handlerStarted == s.handlerStarted && t.past.offered == s.past.offered
            && t.past.polls == s.past.polls
  {
    ResultsWithoutError(reply);
    steps := Polling.OneStepMore(s, [], Polling.Receive(reply));
    if opens {
      var order := SomeIterationOrder(Classify(reply).toggles.value);
      steps := Polling.OneStepMore(s, steps, Polling.StepPublish);
      steps := Polling.OneStepMore(s, steps, Polling.WriteDocument(order));
    } else {
      steps := Polling.OneStepMore(s, steps, Polling.SkipSave);
    }
  }

  lemma PublicationIsItsSteps(s: Polling.State) returns (steps: seq<Polling.Action>)
    requires s.poller.Publishing? && s.handlerStarted
    ensures Polling.IsRun(s, steps)
    ensures var t := Polling.After(s, steps);
            && t.poller.LoopTest? && t.store == FlagStoreState(s.poller.fetched, true) && t.ready
            && t.cell == s.cell && t.fetcher == s.fetcher
            && t.past.offered == s.past.offered
               + (if s.ready then [] else [Polling.Offer(EventHandler.Ready, s.past.polls)])
               + [Polling.Offer(EventHandler.Update, s.past.polls)]
  {
    steps := Polling.OneStepMore(s, [], Polling.StepPublish);
    steps := Polling.OneStepMore(s, steps, Polling.StepPublish);
    steps := Polling.OneStepMore(s, steps, Polling.StepPublish);
    if !s.ready {
      steps := Polling.OneStepMore(s, steps, Polling.StepPublish);
    }
    steps := Polling.OneStepMore(s, steps, Polling.StepPublish);
  }

  lemma SuccessfulPollIsItsSteps(s: Polling.State, reply: Reply, opens: bool) returns (steps: seq<Polling.Action>)
    requires s.poller.AwaitingReply? && s.handlerStarted && Classify(reply).toggles.Some?
    ensures Polling.IsRun(s, steps)
    ensures PollHasRun(s, Polling.After(s, steps), reply, opens)
  {
    ResultsWithoutError(reply);
    var store := FetchedSetIsStored(s, reply, opens);
    var publish := PublicationIsItsSteps(Polling.After(s, store));
    Polling.RunsCompose(s, store, publish);
    steps := store + publish;
    var update := Polling.Offer(EventHandler.Update, s.past.polls);
    assert OfferAll([EventHandler.Update], s.past.polls) == [update] + [];
    assert OfferAll([EventHandler.Ready, EventHandler.Update], s.past.polls)
        == [Polling.Offer(EventHandler.Ready, s.past.polls)] + OfferAll([EventHandler.Update], s.past.polls) by {
      assert [EventHandler.Ready, EventHandler.Update][1..] == [EventHandler.Update];
    }
  }

  /** Whatever the reply, the system's steps of a poll, undisturbed, do what the method does. */
  lemma PollIsItsSteps(s: Polling.State, reply: Reply, opens: bool) returns (steps: seq<Polling.Action>)
    requires s.poller.AwaitingReply? && s.handlerStarted
    ensures Polling.IsRun(s, steps)
    ensures PollHasRun(s, Polling.After(s, steps), reply, opens)
  {
    if Classify(reply).error.Some? {
      steps := FailedPollIsItsSteps(s, reply, opens);
    } else if Classify(reply).toggles.Some? {
      steps := SuccessfulPollIsItsSteps(s, reply, opens);
    } else {
      steps := Polling.OneStepMore(s, [], Polling.Receive(reply));
      assert s.past.offered + [] == s.past.offered;
    }
  }
}
