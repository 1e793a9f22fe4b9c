/**
 * The metrics window under concurrency: any number of application threads record uses while one
 * sender thread checks, snapshots, sends and resets, and start and stop are called one after the
 * other. A schedule is any sequence of enabled atomic steps.
 */
module MetricsLedger {
  import opened Wrappers
  import opened ClientConfig
  import opened Metrics

  datatype ControlPc = Stopped | Spawning | Up | Raised | Notified

  /** point is the number of uses recorded when the list was checked or copied. */
  datatype SenderPc =
    | Absent
    | Entering
    | LoopTest
    | WaitTest
    | AboutToSleep
    | Asleep
    | WaitDone
    | Checking
    | Snapshotting
    | Sending(point: nat, payload: Option<Tally>)
    | Resetting(point: nat, payload: Option<Tally>, delivered: bool)
    | Reporting
    | Finished

  /** A closed window: uses [from, snap) made up the payload, uses [snap, to) fell between copy and reset. */
  datatype Window = Window(from: nat, snap: nat, to: nat, payload: Option<Tally>, delivered: bool)

  predicate Failed(w: Window) {
    w.payload.Some? && !w.delivered
  }

  datatype State = State(
    metricsEnabled: bool,
    metricsDelayed: bool,
    tally: Tally,
    exitThreads: bool,
    control: ControlPc,
    sender: SenderPc,
    // history
    recorded: seq<Use>,
    lastReset: nat,
    windows: seq<Window>,
    sends: nat,
    errors: nat)

  datatype Action =
    | RecordUse(use: Use)
    // start and stop
    | LowerExit
    | SpawnSender
    | RaiseExit
    | NotifySender
    | JoinSender
    // sender
    | Enter
    | TestExit
    | TestWait
    | FallAsleep
    | WakeUp
    | TimeOut
    | LeaveWait
    | CheckEmpty
    | CopyList
    | Send(ok: bool)
    | Reset
    | ReportError

  predicate Enabled(s: State, a: Action) {
    match a
    case RecordUse(_) => true
    case LowerExit => s.control.Stopped?
    case SpawnSender => s.control.Spawning?
    case RaiseExit => s.control.Up?
    case NotifySender => s.control.Raised?
    case JoinSender => s.control.Notified? && s.sender.Finished?
    case Enter => s.sender.Entering?
    case TestExit => s.sender.LoopTest?
    case TestWait => s.sender.WaitTest?
    case FallAsleep => s.sender.AboutToSleep?
    case WakeUp => s.sender.Asleep?
    case TimeOut => s.sender.Asleep?
    case LeaveWait => s.sender.WaitDone?
    case CheckEmpty => s.sender.Checking?
    case CopyList => s.sender.Snapshotting?
    // the unwrapped payload must be there
    case Send(_) => s.sender.Sending? && s.sender.payload.Some?
    case Reset => s.sender.Resetting?
    case ReportError => s.sender.Reporting?
  }

  function Next(s: State, a: Action): State
    requires Enabled(s, a)
  {
    match a
    case RecordUse(u) => s.(tally := Record(s.tally, u), recorded := s.recorded + [u])
    case LowerExit => s.(exitThreads := false, control := Spawning)
    case SpawnSender => s.(sender := Entering, control := Up)
    case RaiseExit => s.(exitThreads := true, control := Raised)
    case NotifySender => s.(sender := if s.sender.Asleep? then WaitTest else s.sender, control := Notified)
    case JoinSender => s.(sender := Absent, control := Stopped)
    case Enter =>
      s.(sender := if !s.metricsEnabled then Finished else if s.metricsDelayed then WaitTest else LoopTest)
    case TestExit => s.(sender := if s.exitThreads then Finished else WaitTest)
    case TestWait => s.(sender := if s.exitThreads then WaitDone else AboutToSleep)
    case FallAsleep => s.(sender := Asleep)
    case WakeUp => s.(sender := WaitTest)
    case TimeOut => s.(sender := WaitDone)
    case LeaveWait => s.(sender := if s.exitThreads then Finished else Checking)
    case CheckEmpty =>
      s.(sender := if s.tally == map[] then Resetting(|s.recorded|, None, false) else Snapshotting)
    case CopyList =>
      s.(sender := Sending(|s.recorded|, if s.tally == map[] then None else Some(s.tally)))
    case Send(ok) => s.(sender := Resetting(s.sender.point, s.sender.payload, ok), sends := s.sends + 1)
    case Reset =>
      var closed := Window(s.lastReset, s.sender.point, |s.recorded|, s.sender.payload, s.sender.delivered);
      s.(tally := map[], sender := if Failed(closed) then Reporting else LoopTest,
         lastReset := |s.recorded|, windows := s.windows + [closed])
    // the error event; the sender runs only while the event handler is started
    case ReportError => s.(sender := LoopTest, errors := s.errors + 1)
  }

  function Initial(cfg: Config): State {
    State(cfg.metricsEnabled, cfg.metricsDelayed, map[], false, Stopped, Absent, [], 0, [], 0, 0)
  }

  predicate IsRun(s: State, steps: seq<Action>)
    decreases |steps|
  {
    steps == [] || (Enabled(s, steps[0]) && IsRun(Next(s, steps[0]), steps[1..]))
  }

  function After(s: State, steps: seq<Action>): State
    requires IsRun(s, steps)
    decreases |steps|
  {
    if steps == [] then s else After(Next(s, steps[0]), steps[1..])
  }

  // ---- the ledger ----

  ghost predicate GoodWindow(recorded: seq<Use>, w: Window) {
    && w.from <= w.snap <= w.to <= |recorded|
    && (w.payload.None? ==> w.from == w.snap)
    && (w.payload.Some? ==> w.from < w.snap && w.payload.value == TallyOf(recorded[w.from..w.snap]))
  }

  /** The closed windows tile the uses recorded before the last reset. */
  ghost predicate Tiled(windows: seq<Window>, end: nat) {
    && (windows == [] ==> end == 0)
    && (windows != [] ==> windows[0].from == 0 && windows[|windows| - 1].to == end)
    && forall i :: 0 <= i < |windows| - 1 ==> windows[i].to == windows[i + 1].from
  }

  ghost predicate PayloadPending(s: State, point: nat, payload: Option<Tally>) {
    GoodWindow(s.recorded, Window(s.lastReset, point, |s.recorded|, payload, false))
  }

  ghost predicate Ledger(s: State) {
    && s.lastReset <= |s.recorded|
    && s.tally == TallyOf(s.recorded[s.lastReset..])
    && Tiled(s.windows, s.lastReset)
    && (forall i :: 0 <= i < |s.windows| ==> GoodWindow(s.recorded, s.windows[i]))
    && (s.sender.Snapshotting? ==> s.tally != map[])
    && (s.sender.Sending? ==> s.sender.payload.Some? && PayloadPending(s, s.sender.point, s.sender.payload))
    && (s.sender.Resetting? ==> PayloadPending(s, s.sender.point, s.sender.payload))
  }

  lemma GoodWindowStays(recorded: seq<Use>, u: Use, w: Window)
    requires GoodWindow(recorded, w)
    ensures GoodWindow(recorded + [u], w)
  {
    var more := recorded + [u];
    assert more[w.from..w.snap] == recorded[w.from..w.snap];
  }

  lemma RecordingKeepsLedger(s: State, u: Use)
    requires Ledger(s)
    ensures Ledger(Next(s, RecordUse(u)))
  {
    var t := Next(s, RecordUse(u));
    TallyGrows(s.recorded[s.lastReset..], u);
    assert t.recorded[s.lastReset..] == s.recorded[s.lastReset..] + [u];
    assert u.flag in t.tally;
    forall w | GoodWindow(s.recorded, w) ensures GoodWindow(t.recorded, w) {
      GoodWindowStays(s.recorded, u, w);
    }
    if s.sender.Sending? || s.sender.Resetting? {
      assert GoodWindow(t.recorded,
        Window(s.lastReset, s.sender.point, |s.recorded|, s.sender.payload, false));
    }
  }

  lemma CopyingKeepsLedger(s: State)
    requires Ledger(s) && s.sender.Snapshotting?
    ensures Ledger(Next(s, CopyList))
  {
    TallyIsEmptyIff(s.recorded[s.lastReset..]);
    assert s.recorded[s.lastReset..|s.recorded|] == s.recorded[s.lastReset..];
  }

  lemma ResetKeepsLedger(s: State)
    requires Ledger(s) && s.sender.Resetting?
    ensures Ledger(Next(s, Reset))
  {
    var t := Next(s, Reset);
    assert s.recorded[|s.recorded|..] == [];
    assert GoodWindow(s.recorded, t.windows[|s.windows|]);
  }

  lemma LedgerStep(s: State, a: Action)
    requires Ledger(s) && Enabled(s, a)
    ensures Ledger(Next(s, a))
  {
    match a
    case RecordUse(u) => RecordingKeepsLedger(s, u);
    case CheckEmpty => TallyIsEmptyIff(s.recorded[s.lastReset..]);
    case CopyList => CopyingKeepsLedger(s);
    case Reset => ResetKeepsLedger(s);
    case _ =>
  }

  lemma {:induction false} LedgerRun(s: State, steps: seq<Action>)
    requires Ledger(s) && IsRun(s, steps)
    ensures Ledger(After(s, steps))
    decreases |steps|
  {
    if steps != [] {
      LedgerStep(s, steps[0]);
      LedgerRun(Next(s, steps[0]), steps[1..]);
    }
  }

  /** Where a recorded use has gone. */
  datatype Place = InPayload(window: nat) | InGap(window: nat) | InList

  ghost predicate IsAt(s: State, use: nat, place: Place) {
    match place
    case InPayload(k) => k < |s.windows| && s.windows[k].from <= use < s.windows[k].snap
    case InGap(k) => k < |s.windows| && s.windows[k].snap <= use < s.windows[k].to
    case InList => s.lastReset <= use
  }

  /** Tiles to the left of a window end before it starts. */
  lemma {:induction false} WindowsAreOrdered(s: State, i: nat, j: nat)
    requires Ledger(s) && i < j < |s.windows|
    ensures s.windows[i].to <= s.windows[j].from && s.windows[j].to <= s.lastReset
    decreases |s.windows| - i, j - i
  {
    var w := s.windows;
    assert w[i].to == w[i + 1].from;
    assert GoodWindow(s.recorded, w[i + 1]) && GoodWindow(s.recorded, w[j]);
    if i + 1 < j {
      WindowsAreOrdered(s, i + 1, j);
    } else if j + 1 < |w| {
      WindowsAreOrdered(s, j, |w| - 1);
      assert GoodWindow(s.recorded, w[|w| - 1]);
    }
  }

  lemma {:induction false} FindWindow(s: State, use: nat, n: nat) returns (k: nat)
    requires Ledger(s) && n <= |s.windows| && n > 0
    requires use < s.windows[n - 1].to
    ensures k < n && s.windows[k].from <= use < s.windows[k].to
  {
    k := n - 1;
    if use < s.windows[k].from {
      assert k > 0 && s.windows[k - 1].to == s.windows[k].from;
      k := FindWindow(s, use, n - 1);
    }
  }

  /** Every recorded use is in exactly one payload, or in exactly one gap, or still in the list. */
  lemma EachUseHasOnePlace(cfg: Config, steps: seq<Action>, use: nat) returns (place: Place)
    requires IsRun(Initial(cfg), steps) && use < |After(Initial(cfg), steps).recorded|
    ensures IsAt(After(Initial(cfg), steps), use, place)
    ensures forall other :: IsAt(After(Initial(cfg), steps), use, other) ==> other == place
  {
    LedgerRun(Initial(cfg), steps);
    var s := After(Initial(cfg), steps);
    if s.lastReset <= use {
      place := InList;
    } else {
      var k := FindWindow(s, use, |s.windows|);
      place := if use < s.windows[k].snap then InPayload(k) else InGap(k);
    }
    forall other | IsAt(s, use, other) ensures other == place {
      OnePlaceOnly(s, use, place, other);
    }
  }

  lemma OnePlaceOnly(s: State, use: nat, p: Place, q: Place)
    requires Ledger(s) && IsAt(s, use, p) && IsAt(s, use, q)
    ensures p == q
  {
    if !p.InList? {
      assert GoodWindow(s.recorded, s.windows[p.window]);
      EndsBeforeReset(s, p.window);
    }
    if !q.InList? {
      assert GoodWindow(s.recorded, s.windows[q.window]);
      EndsBeforeReset(s, q.window);
    }
    if !p.InList? && !q.InList? && p.window != q.window {
      if p.window < q.window {
        WindowsAreOrdered(s, p.window, q.window);
      } else {
        WindowsAreOrdered(s, q.window, p.window);
      }
    }
  }

  lemma EndsBeforeReset(s: State, k: nat)
    requires Ledger(s) && k < |s.windows|
    ensures s.windows[k].to <= s.lastReset
  {
    var last := |s.windows| - 1;
    if k < last {
      WindowsAreOrdered(s, k, last);
      assert GoodWindow(s.recorded, s.windows[last]);
    }
  }

  /**
   * Payload k tallies exactly the uses recorded after the reset that opened its window and before
   * the copy; the list tallies exactly the uses since the last reset.
   */
  lemma PayloadsAreExact(cfg: Config, steps: seq<Action>, k: nat)
    requires IsRun(Initial(cfg), steps) && k < |After(Initial(cfg), steps).windows|
    ensures var s := After(Initial(cfg), steps); var w := s.windows[k];
            && w.from == (if k == 0 then 0 else s.windows[k - 1].to)
            && w.from <= w.snap <= w.to <= s.lastReset <= |s.recorded|
            && w.payload == (if w.from == w.snap then None else Some(TallyOf(s.recorded[w.from..w.snap])))
            && s.tally == TallyOf(s.recorded[s.lastReset..])
  {
    LedgerRun(Initial(cfg), steps);
    var s := After(Initial(cfg), steps);
    EndsBeforeReset(s, k);
    assert GoodWindow(s.recorded, s.windows[k]);
    if k > 0 {
      assert s.windows[k - 1].to == s.windows[(k - 1) + 1].from;
    }
  }

  /** The payload unwrapped by the sender is never absent, whatever the other threads did since the check. */
  lemma PayloadIsNeverEmpty(cfg: Config, steps: seq<Action>)
    requires IsRun(Initial(cfg), steps)
    ensures var s := After(Initial(cfg), steps);
            && (s.sender.Snapshotting? ==> s.tally != map[])
            && (s.sender.Sending? ==> s.sender.payload.Some? && s.sender.payload.value != map[])
  {
    LedgerRun(Initial(cfg), steps);
    var s := After(Initial(cfg), steps);
    if s.sender.Sending? {
      TallyIsEmptyIff(s.recorded[s.lastReset..s.sender.point]);
      assert |s.recorded[s.lastReset..s.sender.point]| > 0;
    }
  }

  // ---- conservation ----

  function Sent(recorded: seq<Use>, windows: seq<Window>): seq<Use>
    requires forall i :: 0 <= i < |windows| ==> GoodWindow(recorded, windows[i])
  {
    if windows == [] then []
    else
      var w := windows[|windows| - 1];
      assert GoodWindow(recorded, w);
      Sent(recorded, windows[..|windows| - 1]) + recorded[w.from..w.snap]
  }

  function Lost(windows: seq<Window>): int {
    if windows == [] then 0
    else
      var w := windows[|windows| - 1];
      Lost(windows[..|windows| - 1]) + (w.to - w.snap)
  }

  ghost predicate NoGaps(windows: seq<Window>) {
    forall i :: 0 <= i < |windows| ==> windows[i].snap == windows[i].to
  }

  lemma {:induction false} SentAndLost(recorded: seq<Use>, windows: seq<Window>, end: nat)
    requires Tiled(windows, end) && end <= |recorded|
    requires forall i :: 0 <= i < |windows| ==> GoodWindow(recorded, windows[i])
    ensures |Sent(recorded, windows)| + Lost(windows) == end && Lost(windows) >= 0
    ensures Lost(windows) == 0 <==> NoGaps(windows)
  {
    if windows != [] {
      var n := |windows| - 1;
      var front, w := windows[..n], windows[n];
      assert n > 0 ==> windows[n - 1].to == windows[n - 1 + 1].from;
      SentAndLost(recorded, front, w.from);
      assert GoodWindow(recorded, w);
      assert NoGaps(windows) <==> NoGaps(front) && w.snap == w.to;
    }
  }

  lemma {:induction false} SentWithoutGaps(recorded: seq<Use>, windows: seq<Window>, end: nat)
    requires Tiled(windows, end) && end <= |recorded| && NoGaps(windows)
    requires forall i :: 0 <= i < |windows| ==> GoodWindow(recorded, windows[i])
    ensures Sent(recorded, windows) == recorded[..end]
  {
    if windows != [] {
      var n := |windows| - 1;
      var front, w := windows[..n], windows[n];
      assert n > 0 ==> windows[n - 1].to == windows[n - 1 + 1].from;
      assert GoodWindow(recorded, w);
      SentWithoutGaps(recorded, front, w.from);
      assert recorded[..w.from] + recorded[w.from..w.snap] == recorded[..end];
    }
  }

  /**
   * Conservation is exact when, and only when, nothing was recorded in a gap: then the payloads,
   * followed by the list, are the recorded uses in order. In every run the shortfall is the gaps' total.
   */
  lemma ConservedIffNoGaps(cfg: Config, steps: seq<Action>)
    requires IsRun(Initial(cfg), steps)
    ensures var s := After(Initial(cfg), steps);
            && s.lastReset <= |s.recorded|
            && (forall i :: 0 <= i < |s.windows| ==> GoodWindow(s.recorded, s.windows[i]))
            && var kept := Sent(s.recorded, s.windows) + s.recorded[s.lastReset..];
               && |kept| + Lost(s.windows) == |s.recorded|
               && (kept == s.recorded <==> NoGaps(s.windows))
  {
    LedgerRun(Initial(cfg), steps);
    var s := After(Initial(cfg), steps);
    SentAndLost(s.recorded, s.windows, s.lastReset);
    if NoGaps(s.windows) {
      SentWithoutGaps(s.recorded, s.windows, s.lastReset);
      assert s.recorded[..s.lastReset] + s.recorded[s.lastReset..] == s.recorded;
    }
  }

  /** What the server was told: a failed send is not repeated, its window is reset all the same. */
  function Received(recorded: seq<Use>, windows: seq<Window>): seq<Use>
    requires forall i :: 0 <= i < |windows| ==> GoodWindow(recorded, windows[i])
  {
    if windows == [] then []
    else
      var w := windows[|windows| - 1];
      assert GoodWindow(recorded, w);
      Received(recorded, windows[..|windows| - 1]) + (if w.delivered then recorded[w.from..w.snap] else [])
  }

  ghost predicate AllDelivered(windows: seq<Window>) {
    forall i :: 0 <= i < |windows| ==> !Failed(windows[i])
  }

  lemma {:induction false} ReceivedAndSent(recorded: seq<Use>, windows: seq<Window>)
    requires forall i :: 0 <= i < |windows| ==> GoodWindow(recorded, windows[i])
    ensures |Received(recorded, windows)| <= |Sent(recorded, windows)|
    ensures |Received(recorded, windows)| == |Sent(recorded, windows)| <==> AllDelivered(windows)
    ensures AllDelivered(windows) ==> Received(recorded, windows) == Sent(recorded, windows)
  {
    if windows != [] {
      var n := |windows| - 1;
      var front, w := windows[..n], windows[n];
      assert GoodWindow(recorded, w);
      ReceivedAndSent(recorded, front);
      if AllDelivered(front) && !Failed(w) {
        assert AllDelivered(windows);
        assert w.payload.None? ==> recorded[w.from..w.snap] == [];
      }
    }
  }

  /** The server, with the list, knows every use if and only if no use fell in a gap and no send failed. */
  lemma NothingLostIff(cfg: Config, steps: seq<Action>)
    requires IsRun(Initial(cfg), steps)
    ensures var s := After(Initial(cfg), steps);
            && s.lastReset <= |s.recorded|
            && (forall i :: 0 <= i < |s.windows| ==> GoodWindow(s.recorded, s.windows[i]))
            && (Received(s.recorded, s.windows) + s.recorded[s.lastReset..] == s.recorded
                <==> NoGaps(s.windows) && AllDelivered(s.windows))
  {
    ConservedIffNoGaps(cfg, steps);
    LedgerRun(Initial(cfg), steps);
    var s := After(Initial(cfg), steps);
    SentAndLost(s.recorded, s.windows, s.lastReset);
    ReceivedAndSent(s.recorded, s.windows);
    var list := s.recorded[s.lastReset..];
    assert |Received(s.recorded, s.windows) + list| == |Received(s.recorded, s.windows)| + |list|;
  }

  // ---- the error events ----

  function FailedSends(windows: seq<Window>): nat {
    if windows == [] then 0
    else FailedSends(windows[..|windows| - 1]) + (if Failed(windows[|windows| - 1]) then 1 else 0)
  }

  ghost predicate ErrorsCounted(s: State) {
    && s.errors + (if s.sender.Reporting? then 1 else 0) == FailedSends(s.windows)
    && (s.control.Stopped? || s.control.Spawning? ==> s.sender.Absent?)
  }

  lemma ErrorsStep(s: State, a: Action)
    requires ErrorsCounted(s) && Enabled(s, a)
    ensures ErrorsCounted(Next(s, a))
  {
    var t := Next(s, a);
    if a.Reset? {
      assert t.windows[..|t.windows| - 1] == s.windows;
    }
  }

  lemma {:induction false} ErrorsRun(s: State, steps: seq<Action>)
    requires ErrorsCounted(s) && IsRun(s, steps)
    ensures ErrorsCounted(After(s, steps))
    decreases |steps|
  {
    if steps != [] {
      ErrorsStep(s, steps[0]);
      ErrorsRun(Next(s, steps[0]), steps[1..]);
    }
  }

  lemma {:induction false} NoFailuresIff(windows: seq<Window>)
    ensures FailedSends(windows) == 0 <==> AllDelivered(windows)
  {
    if windows != [] {
      var n := |windows| - 1;
      NoFailuresIff(windows[..n]);
      assert AllDelivered(windows) <==> AllDelivered(windows[..n]) && !Failed(windows[n]);
    }
  }

  /**
   * Each failed send is reported by one error event, unless its report is just under way; so an application
   * that saw none, while none is under way, knows that every payload reached the server, and conversely.
   */
  lemma {:induction false} ErrorsAreFailedSends(cfg: Config, steps: seq<Action>)
    requires IsRun(Initial(cfg), steps)
    ensures var s := After(Initial(cfg), steps);
            && s.errors + (if s.sender.Reporting? then 1 else 0) == FailedSends(s.windows)
            && (s.errors == 0 && !s.sender.Reporting? <==> AllDelivered(s.windows))
  {
    ErrorsRun(Initial(cfg), steps);
    NoFailuresIff(After(Initial(cfg), steps).windows);
  }

  // ---- conservation of each counter ----

  /** What the payload of a window says about one counter. */
  function PayloadReading(w: Window, flag: string, k: Counter): nat {
    if w.payload.Some? then Reading(w.payload.value, flag, k) else 0
  }

  function SumOfPayloads(windows: seq<Window>, flag: string, k: Counter): nat {
    if windows == [] then 0
    else SumOfPayloads(windows[..|windows| - 1], flag, k) + PayloadReading(windows[|windows| - 1], flag, k)
  }

  /** What one counter would have counted in the gaps. */
  function SumOfGaps(recorded: seq<Use>, windows: seq<Window>, flag: string, k: Counter): nat
    requires forall i :: 0 <= i < |windows| ==> GoodWindow(recorded, windows[i])
  {
    if windows == [] then 0
    else
      var w := windows[|windows| - 1];
      assert GoodWindow(recorded, w);
      SumOfGaps(recorded, windows[..|windows| - 1], flag, k) + Occurrences(recorded[w.snap..w.to], flag, k)
  }

  /** n turns of a 32-bit counter. */
  function Turns(n: nat): nat {
    0x1_0000_0000 * n
  }

  lemma ReadingWraps(uses: seq<Use>, flag: string, k: Counter) returns (wraps: nat)
    requires k != OfVariant("")
    ensures Occurrences(uses, flag, k) == Reading(TallyOf(uses), flag, k) + Turns(wraps)
  {
    TallyCountsUses(uses, flag, if k.OfVariant? then k.name else "");
    wraps := Occurrences(uses, flag, k) / UINT_RANGE;
  }

  lemma WindowAddsUp(recorded: seq<Use>, w: Window, flag: string, k: Counter) returns (wraps: nat)
    requires GoodWindow(recorded, w) && k != OfVariant("")
    ensures Occurrences(recorded[w.from..w.to], flag, k)
         == PayloadReading(w, flag, k) + Occurrences(recorded[w.snap..w.to], flag, k) + Turns(wraps)
  {
    var sent, gap := recorded[w.from..w.snap], recorded[w.snap..w.to];
    assert sent + gap == recorded[w.from..w.to];
    OccurrencesOfConcatenation(sent, gap, flag, k);
    if w.payload.None? {
      assert sent == [];
      wraps := 0;
    } else {
      wraps := ReadingWraps(sent, flag, k);
    }
  }

  lemma OccurrencesUpTo(recorded: seq<Use>, from: nat, to: nat, flag: string, k: Counter)
    requires from <= to <= |recorded|
    ensures Occurrences(recorded[..to], flag, k)
         == Occurrences(recorded[..from], flag, k) + Occurrences(recorded[from..to], flag, k)
  {
    assert recorded[..from] + recorded[from..to] == recorded[..to];
    OccurrencesOfConcatenation(recorded[..from], recorded[from..to], flag, k);
  }

  lemma {:induction false} WindowsAddUp(
    recorded: seq<Use>, windows: seq<Window>, end: nat, flag: string, k: Counter) returns (wraps: nat)
    requires Tiled(windows, end) && end <= |recorded| && k != OfVariant("")
    requires forall i :: 0 <= i < |windows| ==> GoodWindow(recorded, windows[i])
    ensures Occurrences(recorded[..end], flag, k)
         == SumOfPayloads(windows, flag, k) + SumOfGaps(recorded, windows, flag, k) + Turns(wraps)
  {
    if windows == [] {
      assert recorded[..end] == [];
      wraps := 0;
    } else {
      var n := |windows| - 1;
      var front, w := windows[..n], windows[n];
      assert n > 0 ==> windows[n - 1].to == windows[n - 1 + 1].from;
      assert GoodWindow(recorded, w);
      var before := WindowsAddUp(recorded, front, w.from, flag, k);
      var last := WindowAddsUp(recorded, w, flag, k);
      OccurrencesUpTo(recorded, w.from, w.to, flag, k);
      wraps := before + last;
    }
  }

  lemma {:induction false} NoGapsCountNothing(recorded: seq<Use>, windows: seq<Window>, flag: string, k: Counter)
    requires NoGaps(windows)
    requires forall i :: 0 <= i < |windows| ==> GoodWindow(recorded, windows[i])
    ensures SumOfGaps(recorded, windows, flag, k) == 0
  {
    if windows != [] {
      var n := |windows| - 1;
      NoGapsCountNothing(recorded, windows[..n], flag, k);
      assert GoodWindow(recorded, windows[n]) && recorded[windows[n].snap..windows[n].to] == [];
    }
  }

  lemma LedgerConservesCounts(s: State, flag: string, k: Counter) returns (wraps: nat)
    requires Ledger(s) && k != OfVariant("")
    ensures Occurrences(s.recorded, flag, k)
         == SumOfPayloads(s.windows, flag, k) + SumOfGaps(s.recorded, s.windows, flag, k)
            + Reading(s.tally, flag, k) + Turns(wraps)
  {
    var closed, list := s.recorded[..s.lastReset], s.recorded[s.lastReset..];
    assert closed + list == s.recorded;
    OccurrencesOfConcatenation(closed, list, flag, k);
    var before := WindowsAddUp(s.recorded, s.windows, s.lastReset, flag, k);
    var last := ReadingWraps(list, flag, k);
    wraps := before + last;
  }

  /**
   * In every run, for every flag and each of its counters (yes, no and every variant): the readings in the
   * payloads, the one in the list and the uses in the gaps add up to the uses recorded, but for whole
   * turns of a 32-bit counter. Without gaps the payloads and the list account for every use.
   */
  lemma CountsAreConserved(cfg: Config, steps: seq<Action>, flag: string, k: Counter) returns (wraps: nat)
    requires IsRun(Initial(cfg), steps) && k != OfVariant("")
    ensures var s := After(Initial(cfg), steps);
            && (forall i :: 0 <= i < |s.windows| ==> GoodWindow(s.recorded, s.windows[i]))
            && Occurrences(s.recorded, flag, k)
               == SumOfPayloads(s.windows, flag, k) + SumOfGaps(s.recorded, s.windows, flag, k)
                  + Reading(s.tally, flag, k) + Turns(wraps)
            && (NoGaps(s.windows) ==> SumOfGaps(s.recorded, s.windows, flag, k) == 0)
  {
    LedgerRun(Initial(cfg), steps);
    var s := After(Initial(cfg), steps);
    wraps := LedgerConservesCounts(s, flag, k);
    if NoGaps(s.windows) {
      NoGapsCountNothing(s.recorded, s.windows, flag, k);
    }
  }

  // ---- an undisturbed send ----

  lemma WindowIsSent(s: State, ok: bool) returns (steps: seq<Action>)
    requires s.sender.Checking? && s.tally != map[]
    ensures IsRun(s, steps)
    ensures After(s, steps)
         == s.(sender := Resetting(|s.recorded|, Some(s.tally), ok), sends := s.sends + 1)
  {
    steps := OneStepMore(s, [], CheckEmpty);
    steps := OneStepMore(s, steps, CopyList);
    steps := OneStepMore(s, steps, Send(ok));
  }

  /** The sender's steps, undisturbed, send the whole window, reset it, and report a failure, as the method does. */
  lemma SendIsItsSteps(s: State, ok: bool) returns (steps: seq<Action>)
    requires s.sender.Checking?
    ensures IsRun(s, steps)
    ensures var t := After(s, steps);
            && t.sender.LoopTest? && t.tally == map[] && t.lastReset == |s.recorded| == |t.recorded|
            && t.sends == s.sends + (if s.tally == map[] then 0 else 1)
            && t.errors == s.errors + (if s.tally == map[] || ok then 0 else 1)
            && |t.windows| == |s.windows| + 1
            && t.windows[|s.windows|].payload == (if s.tally == map[] then None else Some(s.tally))
  {
    if s.tally == map[] {
      steps := OneStepMore(s, [], CheckEmpty);
      steps := OneStepMore(s, steps, Reset);
    } else {
      steps := WindowIsSent(s, ok);
      steps := OneStepMore(s, steps, Reset);
      if !ok {
        steps := OneStepMore(s, steps, ReportError);
      }
    }
  }

  // ---- a use is lost ----

  lemma {:induction false} OneStepMore(s: State, steps: seq<Action>, a: Action) returns (more: seq<Action>)
    requires IsRun(s, steps) && Enabled(After(s, steps), a)
    ensures more == steps + [a] && IsRun(s, more) && After(s, more) == Next(After(s, steps), a)
    decreases |steps|
  {
    more := steps + [a];
    if steps == [] {
      assert more == [a] && [a][1..] == [];
    } else {
      var rest := OneStepMore(Next(s, steps[0]), steps[1..], a);
      assert more[1..] == rest;
    }
  }

  lemma SenderAwake(cfg: Config, first: Use) returns (steps: seq<Action>)
    requires cfg.metricsEnabled && !cfg.metricsDelayed
    ensures IsRun(Initial(cfg), steps)
    ensures var s := After(Initial(cfg), steps);
            && s.sender.Checking? && s.recorded == [first] && s.lastReset == 0 && s.windows == []
            && s.tally == Record(map[], first)
  {
    var s := Initial(cfg);
    steps := OneStepMore(s, [], RecordUse(first));
    steps := OneStepMore(s, steps, LowerExit);
    steps := OneStepMore(s, steps, SpawnSender);
    steps := OneStepMore(s, steps, Enter);
    steps := OneStepMore(s, steps, TestExit);
    steps := OneStepMore(s, steps, TestWait);
    steps := OneStepMore(s, steps, FallAsleep);
    steps := OneStepMore(s, steps, TimeOut);
    steps := OneStepMore(s, steps, LeaveWait);
  }

  lemma SenderAboutToReset(cfg: Config, first: Use) returns (steps: seq<Action>)
    requires cfg.metricsEnabled && !cfg.metricsDelayed
    ensures IsRun(Initial(cfg), steps)
    ensures var s := After(Initial(cfg), steps);
            && s.sender == Resetting(1, Some(Record(map[], first)), true)
            && s.recorded == [first] && s.lastReset == 0 && s.windows == []
  {
    steps := SenderAwake(cfg, first);
    assert first.flag in Record(map[], first);
    steps := OneStepMore(Initial(cfg), steps, CheckEmpty);
    steps := OneStepMore(Initial(cfg), steps, CopyList);
    steps := OneStepMore(Initial(cfg), steps, Send(true));
  }

  /** A use recorded between the copy and the reset is in no payload and no longer in the list. */
  lemma UseInGapIsLost(cfg: Config, first: Use, second: Use) returns (steps: seq<Action>)
    requires cfg.metricsEnabled && !cfg.metricsDelayed
    ensures IsRun(Initial(cfg), steps)
    ensures var s := After(Initial(cfg), steps);
            && s.recorded == [first, second] && s.tally == map[]
            && s.windows == [Window(0, 1, 2, Some(Record(map[], first)), true)]
  {
    steps := SenderAboutToReset(cfg, first);
    steps := OneStepMore(Initial(cfg), steps, RecordUse(second));
    steps := OneStepMore(Initial(cfg), steps, Reset);
  }
}
