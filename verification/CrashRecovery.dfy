/** What a client starts from that is rebuilt after a crash at any moment. */
module CrashRecovery {
  import opened Wrappers
  import opened Domain
  import opened JsonCodec
  import opened ClientConfig
  import opened Context
  import opened ToggleFetcher
  import opened Store
  import opened Polling
  import opened ClientLifecycle

  /** Fetched sets are normal, from the reply to their publication. */
  ghost predicate FetchedSetsAreNormal(s: State) {
    && (InTransit(s.poller) ==> NormalSet(s.poller.fetched) && s.poller.fetched != map[])
    && (s.past.lastFetched.Some? ==> NormalSet(s.past.lastFetched.value) && s.past.lastFetched.value != map[])
  }

  /** How the stored copy follows the poller; before is what it held when the client was built. */
  ghost predicate CopyFollows(s: State, before: Stored) {
    if s.poller.Writing? then s.cell == Unreadable
    else if s.poller.Publishing? then Load(s.cell) == Some(s.poller.fetched)
    else if s.past.lastFetched.Some? then Load(s.cell) == s.past.lastFetched
    else s.cell == before
  }

  ghost predicate RecoveryInvariant(s: State, before: Stored) {
    FetchedSetsAreNormal(s) && CopyFollows(s, before)
  }

  /** A step that does not touch the stored copy or what it should hold. */
  ghost predicate SameCopy(s: State, t: State) {
    && t.cell == s.cell && t.past.lastFetched == s.past.lastFetched
    && (t.poller == s.poller || (!InTransit(s.poller) && !InTransit(t.poller)))
  }

  /** Nor the snapshots so far. */
  ghost predicate SameKnown(s: State, t: State) {
    SameCopy(s, t) && t.past.versions == s.past.versions
  }

  lemma StartKeepsCopy(s: State)
    requires ClientInvariant(s) && InStart(s.control)
    ensures SameKnown(s, StartStep(s))
  {
  }

  lemma StopKeepsCopy(s: State)
    requires CanStepStop(s)
    ensures SameKnown(s, StopStep(s))
  {
  }

  lemma FetchKeepsCopy(s: State)
    requires InFetch(s.poller)
    ensures SameKnown(s, FetchStep(s))
  {
  }

  lemma WaitKeepsCopy(s: State)
    requires InWait(s.poller)
    ensures SameKnown(s, WaitStep(s))
  {
    var t := WaitStep(s);
    assert !InTransit(t.poller) && t.cell == s.cell;
  }

  lemma SameCopyFollows(s: State, t: State, before: Stored)
    requires RecoveryInvariant(s, before) && SameCopy(s, t)
    ensures RecoveryInvariant(t, before)
  {
  }

  lemma CopyUnderPublish(s: State, before: Stored)
    requires RecoveryInvariant(s, before) && InPublish(s.poller)
    ensures RecoveryInvariant(PublishStep(s), before)
  {
    if !InTransit(s.poller) {
      AnnouncingIsSame(s);
      SameCopyFollows(s, PublishStep(s), before);
    }
  }

  lemma CopyUnderReply(s: State, before: Stored, reply: Reply)
    requires RecoveryInvariant(s, before) && s.poller.AwaitingReply?
    ensures RecoveryInvariant(AfterReply(s, reply), before)
  {
    ResultsWithoutError(reply);
  }

  lemma CopyUnderWrite(s: State, before: Stored, order: seq<string>)
    requires RecoveryInvariant(s, before) && Enabled(s, WriteDocument(order))
    ensures RecoveryInvariant(Next(s, WriteDocument(order)), before)
  {
    NormalSetsSurviveStorage(order, s.poller.fetched);
  }

  lemma CopyStep(s: State, before: Stored, a: Action)
    requires ClientInvariant(s) && RecoveryInvariant(s, before) && Enabled(s, a) && !a.SkipSave?
    ensures RecoveryInvariant(Next(s, a), before)
  {
    if a.StepPublish? {
      CopyUnderPublish(s, before);
    } else if a.Receive? {
      CopyUnderReply(s, before, a.reply);
    } else if a.WriteDocument? {
      CopyUnderWrite(s, before, a.order);
    } else {
      OthersAreSame(s, a);
      SameCopyFollows(s, Next(s, a), before);
    }
  }

  lemma {:induction false} CopyRun(s: State, before: Stored, steps: seq<Action>)
    requires ClientInvariant(s) && RecoveryInvariant(s, before) && IsRun(s, steps) && SkipSave !in steps
    ensures RecoveryInvariant(After(s, steps), before)
    decreases |steps|
  {
    if steps != [] {
      InvariantStep(s, steps[0]);
      CopyStep(s, before, steps[0]);
      CopyRun(Next(s, steps[0]), before, steps[1..]);
    }
  }

  /** The set that a client rebuilt now should start from: the one just stored, or else the last one published. */
  function Due(s: State): Option<ToggleSet> {
    if s.poller.Publishing? then Some(s.poller.fetched) else s.past.lastFetched
  }

  /**
   * If every save could open its file, a client rebuilt at any step, with any bootstrap, starts from
   * the set just stored or last published, and is ready. If nothing was fetched yet the stored copy is
   * as the constructor left it. Only a crash inside the write, when the file has been truncated,
   * leaves nothing to load.
   */
  lemma {:induction false} RestartRecoversLastSnapshot(
    s: State, cfg: Config, server: Server, c: ContextFields, cell: Stored, steps: seq<Action>, rebuilt: Config)
    requires IsInitial(s, cfg, server, c, cell) && IsRun(s, steps) && SkipSave !in steps
    ensures var t := After(s, steps);
            && (t.poller.Writing? ==> Load(t.cell) == None)
            && (!t.poller.Writing? && Due(t).Some? ==>
                  InitialStore(rebuilt, t.cell) == FlagStoreState(Due(t).value, true))
            && (!t.poller.Writing? && Due(t).None? ==> t.cell == s.cell)
  {
    CopyRun(s, s.cell, steps);
  }

  /** With no bootstrap to fall back on, the set due is recovered if and only if no write is under way. */
  lemma {:induction false} RecoveredIffNotWriting(
    s: State, cfg: Config, server: Server, c: ContextFields, cell: Stored, steps: seq<Action>, rebuilt: Config)
    requires IsInitial(s, cfg, server, c, cell) && IsRun(s, steps) && SkipSave !in steps
    requires Due(After(s, steps)).Some? && !UsesBootstrap(rebuilt)
    ensures var t := After(s, steps);
            InitialStore(rebuilt, t.cell).snapshot == Due(t).value <==> !t.poller.Writing?
  {
    CopyRun(s, s.cell, steps);
    RestartRecoversLastSnapshot(s, cfg, server, c, cell, steps, rebuilt);
  }

  /** Before anything is fetched a stored non-empty copy wins over any bootstrap, and survives further restarts. */
  lemma {:induction false} StoredCopyWins(
    s: State, cfg: Config, server: Server, c: ContextFields, cell: Stored, steps: seq<Action>, rebuilt: Config)
    requires IsInitial(s, cfg, server, c, cell) && IsRun(s, steps) && SkipSave !in steps
    requires HasStoredToggles(cell) && !After(s, steps).poller.Writing? && Due(After(s, steps)).None?
    ensures s.store == FlagStoreState(Load(cell).value, true)
    ensures InitialStore(rebuilt, After(s, steps).cell) == s.store
  {
    RestartRecoversLastSnapshot(s, cfg, server, c, cell, steps, rebuilt);
  }

  // ---- when saves may fail ----

  /** The copy is as the constructor left it, or one of the sets fetched, unless a write is under way. */
  ghost predicate CopyIsKnown(s: State, before: Stored) {
    && (InTransit(s.poller) ==> NormalSet(s.poller.fetched))
    && (!s.poller.Writing? ==>
          || s.cell == before
          || (s.poller.Publishing? && Load(s.cell) == Some(s.poller.fetched))
          || Published(s, s.cell))
  }

  ghost predicate Published(s: State, cell: Stored) {
    exists i :: 0 <= i < |s.past.versions| && Load(cell) == Some(s.past.versions[i])
  }

  lemma PublishedStays(s: State, t: State, cell: Stored)
    requires Published(s, cell) && s.past.versions <= t.past.versions
    ensures Published(t, cell)
  {
    var i :| 0 <= i < |s.past.versions| && Load(cell) == Some(s.past.versions[i]);
    assert t.past.versions[i] == s.past.versions[i];
  }

  lemma KnownWhenSame(s: State, t: State, before: Stored)
    requires CopyIsKnown(s, before) && SameKnown(s, t)
    ensures CopyIsKnown(t, before)
  {
    if Published(s, s.cell) {
      PublishedStays(s, t, s.cell);
    }
  }

  lemma KnownWhenPublished(s: State, before: Stored)
    requires CopyIsKnown(s, before) && s.poller.Publishing?
    ensures CopyIsKnown(PublishStep(s), before)
  {
    var t := PublishStep(s);
    assert t.past.versions == s.past.versions + [s.poller.fetched] && t.cell == s.cell;
    if Published(s, s.cell) {
      PublishedStays(s, t, s.cell);
    } else if Load(s.cell) == Some(s.poller.fetched) {
      assert t.past.versions[|s.past.versions|] == s.poller.fetched;
      assert Published(t, t.cell);
    }
  }

  lemma AnnouncingIsSame(s: State)
    requires InPublish(s.poller) && !InTransit(s.poller)
    ensures SameKnown(s, PublishStep(s))
  {
  }

  lemma KnownUnderPublish(s: State, before: Stored)
    requires CopyIsKnown(s, before) && InPublish(s.poller)
    ensures CopyIsKnown(PublishStep(s), before)
  {
    if s.poller.Publishing? {
      KnownWhenPublished(s, before);
    } else if !s.poller.Saving? {
      AnnouncingIsSame(s);
      KnownWhenSame(s, PublishStep(s), before);
    }
  }

  lemma KnownUnderReply(s: State, before: Stored, reply: Reply)
    requires CopyIsKnown(s, before) && s.poller.AwaitingReply?
    ensures CopyIsKnown(AfterReply(s, reply), before)
  {
    ResultsWithoutError(reply);
    if Published(s, s.cell) {
      PublishedStays(s, AfterReply(s, reply), s.cell);
    }
  }

  lemma KnownWhenSkipped(s: State, before: Stored)
    requires CopyIsKnown(s, before) && s.poller.Saving?
    ensures CopyIsKnown(Next(s, SkipSave), before)
  {
    if Published(s, s.cell) {
      PublishedStays(s, Next(s, SkipSave), s.cell);
    }
  }

  lemma KnownWhenWritten(s: State, before: Stored, order: seq<string>)
    requires CopyIsKnown(s, before) && Enabled(s, WriteDocument(order))
    ensures CopyIsKnown(Next(s, WriteDocument(order)), before)
  {
    NormalSetsSurviveStorage(order, s.poller.fetched);
  }

  lemma OthersAreSame(s: State, a: Action)
    requires ClientInvariant(s) && Enabled(s, a)
    requires !a.StepPublish? && !a.Receive? && !a.SkipSave? && !a.WriteDocument?
    ensures SameKnown(s, Next(s, a))
  {
    match a
    case StepStart => StartKeepsCopy(s);
    case StepStop => StopKeepsCopy(s);
    case StepFetch => FetchKeepsCopy(s);
    case StepWait => WaitKeepsCopy(s);
    case _ =>
  }

  lemma KnownStep(s: State, before: Stored, a: Action)
    requires ClientInvariant(s) && CopyIsKnown(s, before) && Enabled(s, a)
    ensures CopyIsKnown(Next(s, a), before)
  {
    if a.StepPublish? {
      KnownUnderPublish(s, before);
    } else if a.Receive? {
      KnownUnderReply(s, before, a.reply);
    } else if a.SkipSave? {
      KnownWhenSkipped(s, before);
    } else if a.WriteDocument? {
      KnownWhenWritten(s, before, a.order);
    } else {
      OthersAreSame(s, a);
      KnownWhenSame(s, Next(s, a), before);
    }
  }

  lemma {:induction false} KnownRun(s: State, before: Stored, steps: seq<Action>)
    requires ClientInvariant(s) && CopyIsKnown(s, before) && IsRun(s, steps)
    ensures CopyIsKnown(After(s, steps), before)
    decreases |steps|
  {
    if steps != [] {
      InvariantStep(s, steps[0]);
      KnownStep(s, before, steps[0]);
      KnownRun(Next(s, steps[0]), before, steps[1..]);
    }
  }

  /** Whatever saves fail, a restart never invents toggles: it finds the old copy, nothing, or a fetched set. */
  lemma {:induction false} RestartNeverInvents(
    s: State, cfg: Config, server: Server, c: ContextFields, cell: Stored, steps: seq<Action>)
    requires IsInitial(s, cfg, server, c, cell) && IsRun(s, steps)
    ensures var t := After(s, steps);
            t.poller.Writing? || t.cell == s.cell || Published(t, t.cell)
            || (t.poller.Publishing? && Load(t.cell) == Some(t.poller.fetched))
  {
    KnownRun(s, s.cell, steps);
  }

  // ---- what a restart finds when saves may fail ----

  /** The set last written to the file; last is what was written before the run. */
  ghost function LastWritten(s: State, steps: seq<Action>, last: Option<ToggleSet>): Option<ToggleSet>
    requires IsRun(s, steps)
    decreases |steps|
  {
    if steps == [] then last
    else LastWritten(Next(s, steps[0]), steps[1..], WrittenBy(s, steps[0], last))
  }

  ghost function WrittenBy(s: State, a: Action, last: Option<ToggleSet>): Option<ToggleSet>
    requires Enabled(s, a)
  {
    if a.WriteDocument? then Some(s.poller.fetched) else last
  }

  ghost predicate Usable(t: ToggleSet) {
    NormalSet(t) && t != map[]
  }

  ghost predicate CopyIsLastWritten(s: State, before: Stored, last: Option<ToggleSet>) {
    && (InTransit(s.poller) ==> Usable(s.poller.fetched))
    && (last.Some? ==> Usable(last.value))
    && (if s.poller.Writing? then s.cell == Unreadable
        else if last.Some? then Load(s.cell) == last
        else s.cell == before)
  }

  lemma WrittenUnderPublish(s: State, before: Stored, last: Option<ToggleSet>)
    requires CopyIsLastWritten(s, before, last) && InPublish(s.poller)
    ensures CopyIsLastWritten(PublishStep(s), before, last)
  {
    if !InTransit(s.poller) {
      AnnouncingIsSame(s);
    }
  }

  lemma WrittenUnderReply(s: State, before: Stored, last: Option<ToggleSet>, reply: Reply)
    requires CopyIsLastWritten(s, before, last) && s.poller.AwaitingReply?
    ensures CopyIsLastWritten(AfterReply(s, reply), before, last)
  {
    ResultsWithoutError(reply);
  }

  lemma WrittenNow(s: State, before: Stored, last: Option<ToggleSet>, order: seq<string>)
    requires CopyIsLastWritten(s, before, last) && Enabled(s, WriteDocument(order))
    ensures CopyIsLastWritten(Next(s, WriteDocument(order)), before, Some(s.poller.fetched))
  {
    NormalSetsSurviveStorage(order, s.poller.fetched);
  }

  lemma WrittenStep(s: State, before: Stored, last: Option<ToggleSet>, a: Action)
    requires ClientInvariant(s) && CopyIsLastWritten(s, before, last) && Enabled(s, a)
    ensures CopyIsLastWritten(Next(s, a), before, WrittenBy(s, a, last))
  {
    if a.StepPublish? {
      WrittenUnderPublish(s, before, last);
    } else if a.Receive? {
      WrittenUnderReply(s, before, last, a.reply);
    } else if a.WriteDocument? {
      WrittenNow(s, before, last, a.order);
    } else if !a.SkipSave? {
      OthersAreSame(s, a);
    }
  }

  lemma {:induction false} WrittenRun(s: State, before: Stored, last: Option<ToggleSet>, steps: seq<Action>)
    requires ClientInvariant(s) && CopyIsLastWritten(s, before, last) && IsRun(s, steps)
    ensures CopyIsLastWritten(After(s, steps), before, LastWritten(s, steps, last))
    decreases |steps|
  {
    if steps != [] {
      InvariantStep(s, steps[0]);
      WrittenStep(s, before, last, steps[0]);
      WrittenRun(Next(s, steps[0]), before, WrittenBy(s, steps[0], last), steps[1..]);
    }
  }

  /**
   * Exactly what a restart finds in any run, whatever saves could not open the file: inside a write nothing;
   * else, with any bootstrap, the set last written, and before the first write what the constructor left.
   */
  lemma {:induction false} RestartFindsLastWrite(
    s: State, cfg: Config, server: Server, c: ContextFields, cell: Stored, steps: seq<Action>, rebuilt: Config)
    requires IsInitial(s, cfg, server, c, cell) && IsRun(s, steps)
    ensures var t := After(s, steps); var last := LastWritten(s, steps, None);
            && (t.poller.Writing? ==> Load(t.cell) == None)
            && (!t.poller.Writing? && last.Some? ==>
                  InitialStore(rebuilt, t.cell) == FlagStoreState(last.value, true))
            && (!t.poller.Writing? && last.None? ==> t.cell == s.cell)
  {
    WrittenRun(s, s.cell, None, steps);
  }
}
