/** The event handler's state: the started flag, the bounded queue, and a callback for each kind of event. */
module EventHandler {
  import opened Wrappers
  import opened Context

  const MAX_EVENT_QUEUE_SIZE := 30

  datatype ClientImpression = ClientImpression(
    context: ContextFields, flagName: string, enabled: bool, eventType: string, impressionData: bool, variant: string)

  datatype Kind = InitKind | ErrorKind | ReadyKind | UpdateKind | ImpressionKind

  /** The two messages an error event may carry. */
  datatype ErrorMessage = ToggleFetchFailed | MetricSendingFailed

  datatype Event = Init | Error(message: ErrorMessage) | Ready | Update | Impression(info: ClientImpression) {
    function Kind(): Kind {
      match this
      case Init => InitKind
      case Error(_) => ErrorKind
      case Ready => ReadyKind
      case Update => UpdateKind
      case Impression(_) => ImpressionKind
    }
  }

  /** Each event goes to the callback of its own kind. */
  lemma KindsMatch(e: Event)
    ensures e.Init? <==> e.Kind() == InitKind
    ensures e.Error? <==> e.Kind() == ErrorKind
    ensures e.Ready? <==> e.Kind() == ReadyKind
    ensures e.Update? <==> e.Kind() == UpdateKind
    ensures e.Impression? <==> e.Kind() == ImpressionKind
  {
  }

  /** A callback captured when the event was emitted, with the argument it will be given. */
  datatype Task = Task(callback: nat, event: Event)

  /** Callbacks are named by numbers; a kind without an entry has no callback. */
  datatype Shared = Shared(started: bool, queue: seq<Task>, callbacks: map<Kind, nat>)

  // ---- the atomic sections ----

  function Register(s: Shared, kind: Kind, callback: Option<nat>): Shared {
    s.(callbacks := if callback.Some? then s.callbacks[kind := callback.value] else s.callbacks - {kind})
  }

  predicate HasRoom(s: Shared) {
    |s.queue| < MAX_EVENT_QUEUE_SIZE
  }

  /** The locked push: a full queue refuses the task. */
  function Push(s: Shared, t: Task): Shared {
    if HasRoom(s) then s.(queue := s.queue + [t]) else s
  }

  function DropPending(s: Shared): Shared {
    s.(queue := [])
  }

  function Pop(s: Shared): Shared
    requires s.queue != []
  {
    s.(queue := s.queue[1..])
  }

  // ---- whole calls, without interference ----

  function EmitAlone(s: Shared, e: Event): Shared {
    if s.started && e.Kind() in s.callbacks then Push(s, Task(s.callbacks[e.Kind()], e)) else s
  }

  function StopAlone(s: Shared): Shared {
    if s.started then DropPending(s.(started := false)) else s
  }

  class EventHandler {
    var started: bool
    var eventQueue: seq<Task>
    var callbacks: map<Kind, nat>

    function View(): Shared
      reads this
    {
      Shared(started, eventQueue, callbacks)
    }

    constructor ()
      ensures View() == Shared(false, [], map[])
    {
      started, eventQueue, callbacks := false, [], map[];
    }

    /** spawns tells whether this call creates the dispatch thread. */
    method Start() returns (spawns: bool)
      modifies this
      ensures spawns == !old(started) && View() == old(View()).(started := true)
    {
      spawns := !started;
      started := true;
    }

    method Stop() returns (joins: bool)
      modifies this
      ensures joins == old(started) && View() == StopAlone(old(View()))
      ensures !started && callbacks == old(callbacks)
      ensures eventQueue == if old(started) then [] else old(eventQueue)
    {
      joins := started;
      started := false;
      if !joins {
        return;
      }
      eventQueue := [];
    }

    method On(kind: Kind, callback: Option<nat>)
      modifies this
      ensures View() == Register(old(View()), kind, callback)
      ensures kind in callbacks <==> callback.Some?
      ensures callback.Some? ==> callbacks[kind] == callback.value
      ensures forall k :: k != kind ==> (k in callbacks <==> k in old(callbacks))
                                        && (k in callbacks ==> callbacks[k] == old(callbacks)[k])
      ensures started == old(started) && eventQueue == old(eventQueue)
    {
      if callback.Some? {
        callbacks := callbacks[kind := callback.value];
      } else {
        callbacks := callbacks - {kind};
      }
    }

    /** Tasks already queued keep the callback they captured. */
    method ClearAll()
      modifies this
      ensures View() == old(View()).(callbacks := map[])
    {
      On(InitKind, None);
      On(ErrorKind, None);
      On(ReadyKind, None);
      On(UpdateKind, None);
      On(ImpressionKind, None);
      assert callbacks.Keys == {} by {
        forall k: Kind ensures k !in callbacks {
          assert k.InitKind? || k.ErrorKind? || k.ReadyKind? || k.UpdateKind? || k.ImpressionKind?;
        }
      }
    }

    method Emit(e: Event) returns (notifies: bool)
      modifies this
      ensures notifies == (old(started) && e.Kind() in old(callbacks))
      ensures View() == EmitAlone(old(View()), e)
      ensures started == old(started) && callbacks == old(callbacks)
      ensures eventQueue == if notifies && |old(eventQueue)| < 30
                            then old(eventQueue) + [Task(old(callbacks)[e.Kind()], e)] else old(eventQueue)
    {
      if !started || e.Kind() !in callbacks {
        return false;
      }
      var callback := callbacks[e.Kind()];
      if |eventQueue| < MAX_EVENT_QUEUE_SIZE {
        eventQueue := eventQueue + [Task(callback, e)];
      }
      notifies := true;
    }

    /** The dispatcher's inner loop: pending tasks run first in, first out, whether or not they throw. */
    method RunPending() returns (ran: seq<Task>)
      modifies this
      ensures ran == old(eventQueue) && View() == DropPending(old(View()))
      ensures eventQueue == [] && started == old(started) && callbacks == old(callbacks)
    {
      ran := [];
      while eventQueue != []
        invariant ran + eventQueue == old(eventQueue)
        invariant started == old(started) && callbacks == old(callbacks)
        decreases |eventQueue|
      {
        var task := eventQueue[0];
        eventQueue := eventQueue[1..];
        ran := ran + [task];
      }
    }
  }
}
