/** Threads that read flags while the client starts, stops and polls. */
module FlagReads {
  import opened Wrappers
  import opened Domain
  import opened ClientConfig
  import opened Context
  import opened EventHandler
  import opened ToggleFetcher
  import opened Store
  import opened Metrics
  import Polling
  import ClientLifecycle

  datatype Operation = IsEnabled | GetVariant

  datatype Answer = Flag(enabled: bool) | Variation(variant: Variant)

  /** When the call was made: the versions of the snapshot and of the context then current, and the client's flag. */
  datatype Request = Request(op: Operation, flag: string, begin: nat, beginContext: nat, foundReady: bool)

  /** The toggles in hand are those of the snapshot loaded; version records which one it was. */
  datatype ReaderPc =
    | TestingReady(request: Request)
    | LoadingSnapshot(request: Request)
    | Recording(request: Request, toggles: ToggleSet, version: nat)
    | CopyingContext(request: Request, toggles: ToggleSet, version: nat, use: Use)
    | EmittingImpression(
        request: Request, toggles: ToggleSet, version: nat, use: Use, context: ContextFields, copied: nat)

  /** What an impression said, and which version of the context it took. */
  datatype Shown = Shown(info: ClientImpression, copied: nat)

  /** A completed read; version is the snapshot it loaded, if any. */
  datatype Call = Call(
    request: Request, end: End, version: Option<nat>, answer: Answer, use: Option<Use>, shown: Option<Shown>)

  /** When the call ended. */
  datatype End = End(version: nat, context: nat, ready: bool)

  /** contexts: every context the client has had, the current one last. */
  datatype State = State(
    client: Polling.State, readers: map<nat, ReaderPc>, calls: seq<Call>, contexts: seq<ContextFields>)

  datatype Action =
    | StepClient(step: Polling.Action)
    | CallFlag(reader: nat, op: Operation, flag: string)
    | StepReader(reader: nat)

  // ---- what a read computes from one set ----

  function DefaultAnswer(op: Operation): Answer {
    match op
    case IsEnabled => Flag(false)
    case GetVariant => Variation(DISABLED_VARIANT)
  }

  function AnswerFrom(op: Operation, t: ToggleSet, flag: string): Answer {
    if flag !in t then DefaultAnswer(op)
    else
      match op
      case IsEnabled => Flag(t[flag].enabled)
      case GetVariant => Variation(t[flag].variant)
  }

  function UseFrom(op: Operation, t: ToggleSet, flag: string): Use {
    Use(flag, FlagEnabled(t, flag), if op.IsEnabled? then None else Some(FlagVariant(t, flag).name))
  }

  function ImpressionFrom(op: Operation, t: ToggleSet, flag: string, c: ContextFields): ClientImpression {
    if op.IsEnabled? then
      ClientImpression(c, flag, FlagEnabled(t, flag), "isEnabled", FlagImpression(t, flag), "")
    else
      ClientImpression(c, flag, FlagEnabled(t, flag), "getVariant", FlagImpression(t, flag), FlagVariant(t, flag).name)
  }

  predicate WantsImpression(cfg: Config, t: ToggleSet, flag: string) {
    cfg.impressionDataAll || FlagImpression(t, flag)
  }

  // ---- the steps ----

  function Current(client: Polling.State): nat {
    if client.past.versions == [] then 0 else |client.past.versions| - 1
  }

  function CurrentContext(s: State): nat {
    if s.contexts == [] then 0 else |s.contexts| - 1
  }

  function Complete(s: State, reader: nat, c: Call): State {
    s.(readers := s.readers - {reader}, calls := s.calls + [c])
  }

  predicate CanStepReader(s: State, reader: nat) {
    reader in s.readers && (s.readers[reader].CopyingContext? ==> !Polling.PollerHoldsLock(s.client.poller))
  }

  function ReaderStep(s: State, reader: nat): State
    requires CanStepReader(s, reader)
  {
    var now := Current(s.client);
    var end := End(now, CurrentContext(s), s.client.ready);
    match s.readers[reader]
    case TestingReady(q) =>
      if s.client.ready then s.(readers := s.readers[reader := LoadingSnapshot(q)])
      else Complete(s, reader, Call(q, end, None, DefaultAnswer(q.op), None, None))
    case LoadingSnapshot(q) =>
      var t := s.client.store.snapshot;
      if q.flag in t then s.(readers := s.readers[reader := Recording(q, t, now)])
      else Complete(s, reader, Call(q, end, Some(now), DefaultAnswer(q.op), None, None))
    case Recording(q, t, v) =>
      var use := UseFrom(q.op, t, q.flag);
      if WantsImpression(s.client.cfg, t, q.flag)
      then s.(readers := s.readers[reader := CopyingContext(q, t, v, use)])
      else Complete(s, reader, Call(q, end, Some(v), AnswerFrom(q.op, t, q.flag), Some(use), None))
    case CopyingContext(q, t, v, use) =>
      s.(readers := s.readers[reader := EmittingImpression(q, t, v, use, s.client.context, CurrentContext(s))])
    case EmittingImpression(q, t, v, use, c, copied) =>
      var impression := ImpressionFrom(q.op, t, q.flag, c);
      Complete(s.(client := Polling.Offering(s.client, Impression(impression))), reader,
        Call(q, end, Some(v), AnswerFrom(q.op, t, q.flag), Some(use), Some(Shown(impression, copied))))
  }

  ghost predicate Enabled(s: State, a: Action) {
    match a
    case StepClient(step) => Polling.Enabled(s.client, step)
    case CallFlag(r, _, _) => r !in s.readers
    case StepReader(r) => CanStepReader(s, r)
  }

  ghost function Next(s: State, a: Action): State
    requires Enabled(s, a)
  {
    match a
    case StepClient(step) =>
      var next := Polling.Next(s.client, step);
      s.(client := next, contexts := if step.UpdateContext? then s.contexts + [next.context] else s.contexts)
    case CallFlag(r, op, flag) =>
      var request := Request(op, flag, Current(s.client), CurrentContext(s), s.client.ready);
      s.(readers := s.readers[r := TestingReady(request)])
    case StepReader(r) => ReaderStep(s, r)
  }

  ghost predicate IsRun(s: State, steps: seq<Action>)
    decreases |steps|
  {
    steps == [] || (Enabled(s, steps[0]) && IsRun(Next(s, steps[0]), steps[1..]))
  }

  ghost function After(s: State, steps: seq<Action>): State
    requires IsRun(s, steps)
    decreases |steps|
  {
    if steps == [] then s else After(Next(s, steps[0]), steps[1..])
  }

  // ---- linearizability ----

  ghost predicate HeldVersion(versions: seq<ToggleSet>, q: Request, t: ToggleSet, v: nat) {
    q.begin <= v < |versions| && t == versions[v] && t != map[] && q.flag in t
  }

  ghost predicate HeldContext(contexts: seq<ContextFields>, q: Request, c: ContextFields, copied: nat) {
    q.beginContext <= copied < |contexts| && c == contexts[copied]
  }

  ghost predicate GoodReader(
    cfg: Config, versions: seq<ToggleSet>, contexts: seq<ContextFields>, ready: bool, pc: ReaderPc)
  {
    && pc.request.begin < |versions| && pc.request.beginContext < |contexts|
    && (pc.request.foundReady || !pc.TestingReady? ==> ready)
    && (pc.Recording? || pc.CopyingContext? || pc.EmittingImpression? ==>
          HeldVersion(versions, pc.request, pc.toggles, pc.version))
    && (pc.CopyingContext? || pc.EmittingImpression? ==>
          && pc.use == UseFrom(pc.request.op, pc.toggles, pc.request.flag)
          && WantsImpression(cfg, pc.toggles, pc.request.flag))
    && (pc.EmittingImpression? ==> HeldContext(contexts, pc.request, pc.context, pc.copied))
  }

  /** Nothing happened but the answer of a client that does not know the flag. */
  ghost predicate NoEffect(call: Call) {
    && call.use.None? && call.shown.None?
    && call.answer == if call.request.op.IsEnabled? then Flag(false)
                      else Variation(VariantFields("disabled", false, None))
  }

  /** The whole effect of a read is what one set says. */
  ghost predicate FromOneSet(cfg: Config, call: Call, t: ToggleSet) {
    var q := call.request;
    if q.flag !in t then NoEffect(call)
    else
      var f, asked := t[q.flag], q.op.IsEnabled?;
      && call.answer == (if asked then Flag(f.enabled) else Variation(f.variant))
      && call.use == Some(Use(q.flag, f.enabled, if asked then None else Some(f.variant.name)))
      && (call.shown.Some? <==> cfg.impressionDataAll || f.impressionData)
      && (call.shown.Some? ==>
            && call.shown.value.info.flagName == q.flag
            && call.shown.value.info.enabled == f.enabled
            && call.shown.value.info.impressionData == f.impressionData
            && call.shown.value.info.eventType == (if asked then "isEnabled" else "getVariant")
            && call.shown.value.info.variant == (if asked then "" else f.variant.name))
  }

  ghost predicate GoodCall(cfg: Config, versions: seq<ToggleSet>, contexts: seq<ContextFields>, call: Call) {
    && call.request.begin <= call.end.version < |versions|
    && call.request.beginContext <= call.end.context < |contexts|
    && (call.request.foundReady ==> call.version.Some?)
    && (call.version.Some? ==> call.end.ready)
    && (call.version.None? ==> NoEffect(call))
    && (call.version.Some? ==>
          && call.request.begin <= call.version.value <= call.end.version
          && versions[call.version.value] != map[]
          && FromOneSet(cfg, call, versions[call.version.value]))
    && (call.shown.Some? ==>
          && call.request.beginContext <= call.shown.value.copied <= call.end.context
          && call.shown.value.info.context == contexts[call.shown.value.copied])
  }

  ghost predicate Tracked(client: Polling.State) {
    var versions := client.past.versions;
    versions != [] && versions[|versions| - 1] == client.store.snapshot
  }

  ghost predicate ContextTracked(s: State) {
    s.contexts != [] && s.contexts[|s.contexts| - 1] == s.client.context
  }

  ghost predicate Reads(s: State) {
    var cfg, versions := s.client.cfg, s.client.past.versions;
    && (forall r :: r in s.readers ==> GoodReader(cfg, versions, s.contexts, s.client.ready, s.readers[r]))
    && (forall i :: 0 <= i < |s.calls| ==> GoodCall(cfg, versions, s.contexts, s.calls[i]))
  }

  /** Snapshots are only ever added, and readiness is never lost. */
  ghost predicate Extends(c: Polling.State, d: Polling.State) {
    && d.cfg == c.cfg && c.past.versions <= d.past.versions && (c.ready ==> d.ready)
    && (Tracked(c) ==> Tracked(d))
  }

  lemma PublishExtends(c: Polling.State)
    requires Polling.InPublish(c.poller)
    ensures Extends(c, Polling.PublishStep(c)) && Polling.PublishStep(c).context == c.context
  {
  }

  lemma StartExtends(c: Polling.State)
    requires Polling.InStart(c.control)
    ensures Extends(c, Polling.StartStep(c)) && Polling.StartStep(c).context == c.context
  {
  }

  lemma StopExtends(c: Polling.State)
    requires Polling.CanStepStop(c)
    ensures Extends(c, Polling.StopStep(c)) && Polling.StopStep(c).context == c.context
  {
  }

  lemma FetchExtends(c: Polling.State)
    requires Polling.InFetch(c.poller)
    ensures Extends(c, Polling.FetchStep(c)) && Polling.FetchStep(c).context == c.context
  {
  }

  lemma WaitExtends(c: Polling.State)
    requires Polling.InWait(c.poller)
    ensures Extends(c, Polling.WaitStep(c)) && Polling.WaitStep(c).context == c.context
  {
  }

  lemma ClientStepExtends(c: Polling.State, a: Polling.Action)
    requires Polling.Enabled(c, a)
    ensures Extends(c, Polling.Next(c, a)) && (!a.UpdateContext? ==> Polling.Next(c, a).context == c.context)
  {
    match a
    case StepPublish => PublishExtends(c);
    case StepStart => StartExtends(c);
    case StepStop => StopExtends(c);
    case StepFetch => FetchExtends(c);
    case StepWait => WaitExtends(c);
    case _ =>
  }

  lemma ReadsExtend(s: State, t: State)
    requires Reads(s) && Extends(s.client, t.client) && s.contexts <= t.contexts
    requires t.readers == s.readers && t.calls == s.calls
    ensures Reads(t)
  {
    var cfg, v, w := s.client.cfg, s.client.past.versions, t.client.past.versions;
    assert forall i :: 0 <= i < |v| ==> v[i] == w[i];
    assert forall i :: 0 <= i < |s.contexts| ==> s.contexts[i] == t.contexts[i];
    forall r | r in s.readers ensures GoodReader(cfg, w, t.contexts, t.client.ready, s.readers[r]) {
      assert GoodReader(cfg, v, s.contexts, s.client.ready, s.readers[r]);
    }
    forall i | 0 <= i < |s.calls| ensures GoodCall(cfg, w, t.contexts, s.calls[i]) {
      assert GoodCall(cfg, v, s.contexts, s.calls[i]);
    }
  }

  lemma CompletingKeepsReads(s: State, r: nat, c: Call)
    requires Reads(s) && GoodCall(s.client.cfg, s.client.past.versions, s.contexts, c)
    ensures Reads(Complete(s, r, c))
  {
  }

  ghost predicate SameClient(s: State, t: State) {
    && t.client.cfg == s.client.cfg && t.client.past.versions == s.client.past.versions
    && t.client.ready == s.client.ready && t.contexts == s.contexts
  }

  lemma ReaderStepIsGood(s: State, r: nat)
    requires ClientLifecycle.ClientInvariant(s.client) && Tracked(s.client) && ContextTracked(s)
    requires CanStepReader(s, r)
    requires GoodReader(s.client.cfg, s.client.past.versions, s.contexts, s.client.ready, s.readers[r])
    ensures var t := ReaderStep(s, r); var cfg, versions := s.client.cfg, s.client.past.versions;
            && SameClient(s, t)
            && (if r in t.readers
                then t.calls == s.calls && GoodReader(cfg, versions, s.contexts, s.client.ready, t.readers[r])
                     && t.readers == s.readers[r := t.readers[r]]
                else |t.calls| == |s.calls| + 1 && GoodCall(cfg, versions, s.contexts, t.calls[|s.calls|])
                     && t.readers == s.readers - {r} && t.calls == s.calls + [t.calls[|s.calls|]])
  {
  }

  lemma ReaderKeepsReads(s: State, r: nat)
    requires ClientLifecycle.ClientInvariant(s.client) && Tracked(s.client) && ContextTracked(s)
    requires Reads(s) && CanStepReader(s, r)
    ensures Reads(ReaderStep(s, r))
  {
    var cfg, versions := s.client.cfg, s.client.past.versions;
    assert GoodReader(cfg, versions, s.contexts, s.client.ready, s.readers[r]);
    ReaderStepIsGood(s, r);
    var t := ReaderStep(s, r);
    if r in t.readers {
      assert forall q :: q in t.readers && q != r ==> t.readers[q] == s.readers[q];
    } else {
      CompletingKeepsReads(s, r, t.calls[|s.calls|]);
    }
  }

  lemma ReaderStepsClient(s: State, r: nat)
    requires ClientLifecycle.ClientInvariant(s.client) && CanStepReader(s, r)
    ensures ContextTracked(s) ==> ContextTracked(ReaderStep(s, r))
    ensures ClientLifecycle.ClientInvariant(ReaderStep(s, r).client)
    ensures Tracked(s.client) ==> Tracked(ReaderStep(s, r).client)
  {
    if s.readers[r].EmittingImpression? {
      var pc := s.readers[r];
      var info := ImpressionFrom(pc.request.op, pc.toggles, pc.request.flag, pc.context);
      ClientLifecycle.InvariantStep(s.client, Polling.EmitImpression(info));
    }
  }

  ghost predicate ReadInvariant(s: State) {
    ClientLifecycle.ClientInvariant(s.client) && Tracked(s.client) && ContextTracked(s) && Reads(s)
  }

  lemma ReadStep(s: State, a: Action)
    requires ReadInvariant(s) && Enabled(s, a)
    ensures ReadInvariant(Next(s, a))
  {
    match a
    case StepClient(step) =>
      ClientLifecycle.InvariantStep(s.client, step);
      ClientStepExtends(s.client, step);
      ReadsExtend(s, Next(s, a));
    case CallFlag(_, _, _) =>
    case StepReader(r) =>
      ReaderKeepsReads(s, r);
      ReaderStepsClient(s, r);
  }

  lemma {:induction false} ReadRun(s: State, steps: seq<Action>)
    requires ReadInvariant(s) && IsRun(s, steps)
    ensures ReadInvariant(After(s, steps))
    decreases |steps|
  {
    if steps != [] {
      ReadStep(s, steps[0]);
      ReadRun(Next(s, steps[0]), steps[1..]);
    }
  }

  /**
   * Reads are linearizable against replacement. A call made when the client is ready takes its answer,
   * the use it records and the impression it emits from one non-empty snapshot that was current at some
   * moment of the call; the impression's context, too, was current at some moment of it. Only a call
   * made before may give the default and do nothing else; if it does more, the client is ready when it ends.
   */
  lemma ReadsAreLinearizable(
    s: State, cfg: Config, server: Polling.Server, c: ContextFields, cell: Stored, steps: seq<Action>, i: nat)
    requires Polling.IsInitial(s.client, cfg, server, c, cell)
    requires s.readers == map[] && s.calls == [] && s.contexts == [c]
    requires IsRun(s, steps) && i < |After(s, steps).calls|
    ensures var t := After(s, steps); GoodCall(cfg, t.client.past.versions, t.contexts, t.calls[i])
  {
    ReadRun(s, steps);
    ConfigIsFixed(s, steps);
  }

  lemma ConfigStaysUnderReader(s: State, r: nat)
    requires CanStepReader(s, r)
    ensures ReaderStep(s, r).client.cfg == s.client.cfg
  {
  }

  lemma {:induction false} ConfigIsFixed(s: State, steps: seq<Action>)
    requires IsRun(s, steps)
    ensures After(s, steps).client.cfg == s.client.cfg
    decreases |steps|
  {
    if steps != [] {
      if steps[0].StepClient? {
        ClientStepExtends(s.client, steps[0].step);
      } else if steps[0].StepReader? {
        ConfigStaysUnderReader(s, steps[0].reader);
      }
      ConfigIsFixed(Next(s, steps[0]), steps[1..]);
    }
  }

  // ---- the client without its readers ----

  /** The client's own steps in a run, a reader's emission counting as one of them. */
  ghost function ClientSteps(s: State, steps: seq<Action>): seq<Polling.Action>
    requires IsRun(s, steps)
    decreases |steps|
  {
    if steps == [] then []
    else
      var rest := ClientSteps(Next(s, steps[0]), steps[1..]);
      match steps[0]
      case StepClient(step) => [step] + rest
      case CallFlag(_, _, _) => rest
      case StepReader(r) =>
        var pc := s.readers[r];
        if !pc.EmittingImpression? then rest
        else
          [Polling.EmitImpression(ImpressionFrom(pc.request.op, pc.toggles, pc.request.flag, pc.context))] + rest
  }

  /** So every theorem about runs of the client holds with readers beside it. */
  lemma {:induction false} ReadersOnlyEmit(s: State, steps: seq<Action>)
    requires IsRun(s, steps)
    ensures Polling.IsRun(s.client, ClientSteps(s, steps))
    ensures Polling.After(s.client, ClientSteps(s, steps)) == After(s, steps).client
    decreases |steps|
  {
    if steps != [] {
      var rest := ClientSteps(Next(s, steps[0]), steps[1..]);
      ReadersOnlyEmit(Next(s, steps[0]), steps[1..]);
      var all := ClientSteps(s, steps);
      if all != rest {
        assert all[1..] == rest;
      }
    }
  }
}
