// The event bus, its workers, the session scheduler, the debounce tasks and the watchdog as
// one transition system. A step is one locked block, or one stretch of code between awaits.
module SchedulerSystem {
  import opened Wrappers
  import opened Events
  import opened EventBus
  import opened Scheduler

  datatype Worker =
    | Idle                                          // waiting for a ready session
    | Holding(sid: SessionId)                       // took a token, before _pop_next_event
    | Handling(sid: SessionId, event: RuntimeEvent) // popped an event, before its handler's first block
    | Deciding(sid: SessionId)                      // stored a subtask, about to request a wakeup
    | Owing(sid: SessionId, source: Source)         // set wakeup_queued, about to publish the wakeup
    | InTurn(sid: SessionId)                        // running the planner turn
    | Finished(sid: SessionId)                      // dispatch returned, before _reschedule_session

  datatype DebouncePhase = Sleeping | OwingWakeup | Exiting

  datatype Debounce = Debounce(sid: SessionId, phase: DebouncePhase)

  // tasks holds the debounce tasks that are not done; watchdog the sessions the watchdog has
  // flagged and not yet published a wakeup for. The last three fields record the run.
  datatype System = System(
    bus: Bus,
    sched: Sched,
    workers: seq<Worker>,
    tasks: map<TaskId, Debounce>,
    nextTask: TaskId,
    watchdog: seq<SessionId>,
    published: map<SessionId, seq<RuntimeEvent>>,
    handled: map<SessionId, seq<RuntimeEvent>>,
    batches: map<SessionId, seq<seq<Envelope>>>)

  datatype Step =
    | Publish(event: RuntimeEvent)      // any publisher: gateway, timer, tool, running turn
    | Take(w: nat)
    | Pop(w: nat)
    | Handle(w: nat)
    | Decide(w: nat)
    | PublishOwed(w: nat)
    | EndTurn(w: nat)
    | Beat(w: nat)
    | Reschedule(w: nat)
    | DebounceDecide(t: TaskId)
    | DebouncePublish(t: TaskId)
    | DebounceExit(t: TaskId)
    | Sweep(order: seq<SessionId>)
    | WatchdogPublish

  function At<T>(m: map<SessionId, seq<T>>, sid: SessionId): seq<T> {
    if sid in m then m[sid] else []
  }

  function Recorded<T>(m: map<SessionId, seq<T>>, sid: SessionId, x: T): map<SessionId, seq<T>> {
    m[sid := At(m, sid) + [x]]
  }

  ghost predicate Init(sys: System) {
    && sys.bus == EmptyBus && sys.sched == EmptySched
    && |sys.workers| >= 1
    && (forall w :: 0 <= w < |sys.workers| ==> sys.workers[w] == Idle)
    && sys.tasks == map[] && sys.nextTask == 0 && sys.watchdog == []
    && sys.published == map[] && sys.handled == map[] && sys.batches == map[]
  }

  predicate TaskIn(sys: System, t: TaskId, phase: DebouncePhase) {
    t in sys.tasks && sys.tasks[t].phase == phase
  }

  ghost predicate Enabled(sys: System, step: Step) {
    match step
    case Publish(_) => true
    case Take(w) => w < |sys.workers| && sys.workers[w].Idle? && sys.bus.ready != []
    case Pop(w) => w < |sys.workers| && sys.workers[w].Holding?
    case Handle(w) => w < |sys.workers| && sys.workers[w].Handling?
    case Decide(w) => w < |sys.workers| && sys.workers[w].Deciding?
    case PublishOwed(w) => w < |sys.workers| && sys.workers[w].Owing?
    case EndTurn(w) => w < |sys.workers| && sys.workers[w].InTurn?
    case Beat(w) => w < |sys.workers| && sys.workers[w].InTurn?
    case Reschedule(w) => w < |sys.workers| && sys.workers[w].Finished?
    case DebounceDecide(t) => TaskIn(sys, t, Sleeping)
    case DebouncePublish(t) => TaskIn(sys, t, OwingWakeup)
    case DebounceExit(t) => TaskIn(sys, t, Exiting)
    case Sweep(order) => sys.watchdog == [] && Enumerates(order, SessionsToWake(sys.sched))
    case WatchdogPublish => sys.watchdog != []
  }

  function AfterPublish(sys: System, e: RuntimeEvent): System {
    sys.(bus := Published(sys.bus, e), published := Recorded(sys.published, e.sessionId, e))
  }

  function AfterPop(sys: System, w: nat): System
    requires w < |sys.workers| && sys.workers[w].Holding?
  {
    var sid := sys.workers[w].sid;
    var (bus, popped) := Popped(sys.bus, sid);
    match popped
    case None => sys.(bus := bus, workers := sys.workers[w := Idle])
    case Some(e) => sys.(bus := bus, workers := sys.workers[w := Handling(sid, e)])
  }

  function AfterUserMessage(sys: System, w: nat): System
    requires w < |sys.workers| && sys.workers[w].Handling?
  {
    var Handling(sid, e) := sys.workers[w];
    var (sched, scheduled) := UserMessageStored(sys.sched, e, sys.tasks.Keys, sys.nextTask);
    var stored := sys.(sched := sched, workers := sys.workers[w := Finished(sid)]);
    if scheduled then
      stored.(tasks := sys.tasks[sys.nextTask := Debounce(e.sessionId, Sleeping)], nextTask := sys.nextTask + 1)
    else stored
  }

  function AfterSubtask(sys: System, w: nat): System
    requires w < |sys.workers| && sys.workers[w].Handling?
  {
    var Handling(sid, e) := sys.workers[w];
    var requests := ParsedTriggerTurn(e.triggerTurn) && !DebounceActive(sys.sched, e.sessionId, sys.tasks.Keys);
    sys.(sched := Stored(sys.sched, e),
         workers := sys.workers[w := if requests then Deciding(sid) else Finished(sid)])
  }

  function AfterWakeup(sys: System, w: nat): System
    requires w < |sys.workers| && sys.workers[w].Handling?
  {
    var Handling(sid, e) := sys.workers[w];
    var (sched, batch) := TurnStarted(sys.sched, e.sessionId, e.source);
    match batch
    case None => sys.(sched := sched, workers := sys.workers[w := Finished(sid)])
    case Some(consumed) =>
      sys.(sched := sched, workers := sys.workers[w := InTurn(sid)],
           batches := Recorded(sys.batches, e.sessionId, consumed))
  }

  function AfterHandle(sys: System, w: nat): System
    requires w < |sys.workers| && sys.workers[w].Handling?
  {
    var Handling(sid, e) := sys.workers[w];
    var next :=
      match e.eventType
      case UserMessageReceived => AfterUserMessage(sys, w)
      case SubtaskCompleted => AfterSubtask(sys, w)
      case WakeupRequested => AfterWakeup(sys, w)
      case _ => sys.(workers := sys.workers[w := Finished(sid)]);
    next.(handled := Recorded(sys.handled, sid, e))
  }

  function AfterDecide(sys: System, w: nat): System
    requires w < |sys.workers| && sys.workers[w].Deciding?
  {
    var sid := sys.workers[w].sid;
    var next := if CanQueueWakeup(sys.sched, sid) then Owing(sid, SubtaskSource) else Finished(sid);
    sys.(sched := WakeupFlagged(sys.sched, sid), workers := sys.workers[w := next])
  }

  function AfterTurn(sys: System, w: nat): System
    requires w < |sys.workers| && sys.workers[w].InTurn?
  {
    var sid := sys.workers[w].sid;
    var (sched, requeue) := TurnFinished(sys.sched, sid);
    sys.(sched := sched, workers := sys.workers[w := if requeue then Owing(sid, EventBusSource) else Finished(sid)])
  }

  function AfterDebounceDecide(sys: System, t: TaskId): System
    requires t in sys.tasks
  {
    var sid := sys.tasks[t].sid;
    var phase := if CanQueueWakeup(sys.sched, sid) then OwingWakeup else Exiting;
    sys.(sched := WakeupFlagged(sys.sched, sid), tasks := sys.tasks[t := Debounce(sid, phase)])
  }

  ghost function Apply(sys: System, step: Step): System
    requires Enabled(sys, step)
  {
    match step
    case Publish(e) => AfterPublish(sys, e)
    case Take(w) =>
      sys.(bus := sys.bus.(ready := sys.bus.ready[1..]), workers := sys.workers[w := Holding(sys.bus.ready[0])])
    case Pop(w) => AfterPop(sys, w)
    case Handle(w) => AfterHandle(sys, w)
    case Decide(w) => AfterDecide(sys, w)
    case PublishOwed(w) =>
      var Owing(sid, source) := sys.workers[w];
      AfterPublish(sys, WakeupEvent(sid, source)).(workers := sys.workers[w := Finished(sid)])
    case EndTurn(w) => AfterTurn(sys, w)
    case Beat(w) => sys.(sched := Ensured(sys.sched, sys.workers[w].sid))
    case Reschedule(w) =>
      sys.(bus := Rescheduled(sys.bus, sys.workers[w].sid), workers := sys.workers[w := Idle])
    case DebounceDecide(t) => AfterDebounceDecide(sys, t)
    case DebouncePublish(t) =>
      var sid := sys.tasks[t].sid;
      AfterPublish(sys, WakeupEvent(sid, DebounceTimer)).(tasks := sys.tasks[t := Debounce(sid, Exiting)])
    case DebounceExit(t) =>
      sys.(sched := DebounceFinished(sys.sched, sys.tasks[t].sid, t), tasks := sys.tasks - {t})
    case Sweep(order) => sys.(sched := Swept(sys.sched), watchdog := order)
    case WatchdogPublish =>
      AfterPublish(sys, WakeupEvent(sys.watchdog[0], HeartbeatWatchdog)).(watchdog := sys.watchdog[1..])
  }

  // A finite run: every step is enabled where it is taken.
  ghost predicate IsRun(sys: System, steps: seq<Step>)
    decreases |steps|
  {
    steps == [] || (Enabled(sys, steps[0]) && IsRun(Apply(sys, steps[0]), steps[1..]))
  }

  ghost function RunFrom(sys: System, steps: seq<Step>): System
    requires IsRun(sys, steps)
    decreases |steps|
  {
    if steps == [] then sys else RunFrom(Apply(sys, steps[0]), steps[1..])
  }

  ghost predicate Reachable(sys: System) {
    exists init, steps :: Init(init) && IsRun(init, steps) && RunFrom(init, steps) == sys
  }
}
