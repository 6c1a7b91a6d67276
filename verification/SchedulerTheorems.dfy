// What the joint invariant means for every reachable state of the composed system.
module SchedulerTheorems {
  import opened Wrappers
  import opened Events
  import opened EventBus
  import opened Scheduler
  import opened SchedulerSystem
  import opened SchedulerInvariant
  import opened SchedulerSafety

  lemma {:induction false} RunAppend(sys: System, steps: seq<Step>, step: Step)
    requires IsRun(sys, steps) && Enabled(RunFrom(sys, steps), step)
    ensures IsRun(sys, steps + [step])
    ensures RunFrom(sys, steps + [step]) == Apply(RunFrom(sys, steps), step)
    decreases |steps|
  {
    if steps == [] {
      assert steps + [step] == [step];
      assert [step][1..] == [];
    } else {
      RunAppend(Apply(sys, steps[0]), steps[1..], step);
      assert (steps + [step])[1..] == steps[1..] + [step];
    }
  }

  lemma ReachableStep(sys: System, step: Step)
    requires Reachable(sys) && Enabled(sys, step)
    ensures Reachable(Apply(sys, step))
  {
    var init, steps :| Init(init) && IsRun(init, steps) && RunFrom(init, steps) == sys;
    RunAppend(init, steps, step);
  }

  // ---------- bus tokens ----------

  function Holders(workers: seq<Worker>, sid: SessionId): set<int> {
    set w | 0 <= w < |workers| && Busy(workers, w, sid)
  }

  lemma {:induction false} DistinctCount(s: seq<SessionId>, sid: SessionId)
    requires forall i, j :: 0 <= i < j < |s| ==> s[i] != s[j]
    ensures multiset(s)[sid] == if sid in s then 1 else 0
  {
    if s != [] {
      assert s == [s[0]] + s[1..];
      DistinctCount(s[1..], sid);
    }
  }

  // A session is scheduled exactly when one token for it is in the ready queue or a worker's
  // hands, and every queued event is behind such a token.
  lemma TokenTheorem(sys: System, sid: SessionId)
    requires Reachable(sys)
    ensures multiset(sys.bus.ready)[sid] + |Holders(sys.workers, sid)| == if sid in sys.bus.scheduled then 1 else 0
    ensures Queue(sys.bus, sid) != [] ==> sid in sys.bus.scheduled
  {
    ReachableInv(sys);
    DistinctCount(sys.bus.ready, sid);
    if w :| Busy(sys.workers, w, sid) {
      assert Held(sys.workers, sid);
      assert Holders(sys.workers, sid) == {w};
    } else {
      assert Holders(sys.workers, sid) == {};
    }
  }

  // _pop_next_event never takes either of its None branches.
  lemma PopFindsEvent(sys: System, w: nat)
    requires Reachable(sys) && w < |sys.workers| && sys.workers[w].Holding?
    ensures Popped(sys.bus, sys.workers[w].sid).1.Some?
  {
    ReachableInv(sys);
    PopKeepsTokens(sys.bus, sys.workers, w);
  }

  // Two workers are never busy with the same session.
  lemma DispatchesNeverOverlap(sys: System, v: nat, w: nat)
    requires Reachable(sys) && v < |sys.workers| && w < |sys.workers|
    requires !sys.workers[v].Idle? && !sys.workers[w].Idle? && sys.workers[v].sid == sys.workers[w].sid
    ensures v == w
  {
    ReachableInv(sys);
    assert Busy(sys.workers, v, sys.workers[v].sid) && Busy(sys.workers, w, sys.workers[v].sid);
  }

  // ---------- turns ----------

  // A turn in flight is alone, its session's state is in the map with an empty mailbox and a
  // clear flag, its heartbeat creates nothing, and finishing it removes the state without a
  // requeue.
  lemma TurnTheorem(sys: System, w: nat)
    requires Reachable(sys) && w < |sys.workers| && sys.workers[w].InTurn?
    ensures var sid := sys.workers[w].sid;
            && (forall v :: 0 <= v < |sys.workers| && sys.workers[v] == InTurn(sid) ==> v == w)
            && sid in sys.sched.states && sys.sched.states[sid] == SessionState(true, false, [])
            && Apply(sys, Beat(w)) == sys
            && Apply(sys, EndTurn(w)) == sys.(sched := sys.sched.(states := sys.sched.states - {sid}),
                                              workers := sys.workers[w := Finished(sid)])
  {
    ReachableInv(sys);
    var sid := sys.workers[w].sid;
    assert Turning(sys.workers, w, sid) && Busy(sys.workers, w, sid);
    forall v | 0 <= v < |sys.workers| && sys.workers[v] == InTurn(sid) ensures v == w {
      assert Busy(sys.workers, v, sid);
    }
    assert Ensured(sys.sched, sid).states == sys.sched.states;
    EndTurnRemoves(sys, w);
  }

  // inflight is set exactly while some worker runs the session's turn.
  lemma InflightMeansTurn(sys: System, sid: SessionId)
    requires Reachable(sys)
    ensures StateOf(sys.sched, sid).inflight <==>
            exists w :: 0 <= w < |sys.workers| && sys.workers[w] == InTurn(sid)
  {
    ReachableInv(sys);
    if w :| 0 <= w < |sys.workers| && sys.workers[w] == InTurn(sid) {
      assert Turning(sys.workers, w, sid);
    }
    if StateOf(sys.sched, sid).inflight {
      var w :| Turning(sys.workers, w, sid);
    }
  }

  // Handling a wakeup starts a turn exactly when the mailbox holds a trigger, or is empty and
  // the source is none of the four internal ones; either way the flag is clear afterwards.
  lemma WakeupStartsTurn(sys: System, w: nat)
    requires Reachable(sys) && w < |sys.workers|
    requires sys.workers[w].Handling? && sys.workers[w].event.eventType == WakeupRequested
    ensures var Handling(sid, e) := sys.workers[w];
            var next := Apply(sys, Handle(w));
            && !StateOf(next.sched, sid).wakeupQueued
            && (next.workers[w] == InTurn(sid) <==>
                  && sid in sys.sched.states
                  && (HasTrigger(Mailbox(sys.sched, sid)) || (Mailbox(sys.sched, sid) == [] && e.source.OtherSource?)))
            && (next.workers[w] == InTurn(sid) ==>
                  At(next.batches, sid) == At(sys.batches, sid) + [Mailbox(sys.sched, sid)])
            && (next.workers[w] != InTurn(sid) ==> next.batches == sys.batches)
  {
    ReachableInv(sys);
    HandledNotInflight(sys, w);
    StartedSched(sys.sched, sys.workers[w].sid, sys.workers[w].event.source);
  }

  // ---------- the flag ----------

  lemma FlagTheorem(sys: System, sid: SessionId)
    requires Reachable(sys) && StateOf(sys.sched, sid).wakeupQueued
    ensures WakeupPending(sys, sid)
  {
    ReachableInv(sys);
  }

  // After a sweep every session with a trigger in its mailbox has a wakeup pending.
  lemma SweepQueuesWakeups(sys: System, order: seq<SessionId>, sid: SessionId)
    requires Reachable(sys) && Enabled(sys, Sweep(order)) && HasTrigger(Mailbox(sys.sched, sid))
    ensures var next := Apply(sys, Sweep(order));
            StateOf(next.sched, sid).wakeupQueued && WakeupPending(next, sid)
            && Mailbox(next.sched, sid) == Mailbox(sys.sched, sid)
  {
    ReachableStep(sys, Sweep(order));
    ReachableInv(sys);
    ReachableInv(Apply(sys, Sweep(order)));
  }

  // ---------- conservation ----------

  // The event a worker has popped for sid and not yet handled, if any.
  ghost function InHand(sys: System, sid: SessionId): seq<RuntimeEvent> {
    if w :| 0 <= w < |sys.workers| && sys.workers[w].Handling? && sys.workers[w].sid == sid
    then [sys.workers[w].event] else []
  }

  // Per session: what was handled, then the event in a worker's hand, then the queue, is what
  // was published, in order.
  lemma DispatchTheorem(sys: System, sid: SessionId)
    requires Reachable(sys)
    ensures At(sys.handled, sid) + InHand(sys, sid) + Queue(sys.bus, sid) == At(sys.published, sid)
  {
    ReachableInv(sys);
    assert DispatchOrder(sys, sid);
  }

  lemma MailboxPrefix(consumed: seq<Envelope>, done: seq<RuntimeEvent>, hand: seq<RuntimeEvent>,
                      queue: seq<RuntimeEvent>)
    requires consumed == MailboxEvents(done)
    ensures consumed + MailboxEvents(hand + queue) == MailboxEvents(done + hand + queue)
  {
    MailboxEventsConcat(done, hand + queue);
    assert done + hand + queue == done + (hand + queue);
  }

  // Per session: the consumed batches in order, then the mailbox, then the mailbox events in a
  // worker's hand and in the queue, are the published mailbox events, in order.
  lemma ConservationTheorem(sys: System, sid: SessionId)
    requires Reachable(sys)
    ensures Flatten(At(sys.batches, sid)) + Mailbox(sys.sched, sid)
            + MailboxEvents(InHand(sys, sid) + Queue(sys.bus, sid))
         == MailboxEvents(At(sys.published, sid))
  {
    ReachableInv(sys);
    DispatchTheorem(sys, sid);
    assert MailboxOrder(sys, sid);
    MailboxPrefix(Flatten(At(sys.batches, sid)) + Mailbox(sys.sched, sid),
                  At(sys.handled, sid), InHand(sys, sid), Queue(sys.bus, sid));
  }

  // ---------- what is left to the watchdog ----------

  // The live debounce tasks are exactly those registered for their sessions.
  ghost predicate Registered(sched: Sched, tasks: map<TaskId, Debounce>) {
    && (forall t :: t in tasks ==> tasks[t].sid in sched.debounce && sched.debounce[tasks[t].sid] == t)
    && (forall sid :: sid in sched.debounce ==> sched.debounce[sid] in tasks && tasks[sched.debounce[sid]].sid == sid)
  }

  lemma OtherHandleTasks(sys: System, w: nat)
    requires w < |sys.workers| && sys.workers[w].Handling? && !sys.workers[w].event.eventType.UserMessageReceived?
    ensures AfterHandle(sys, w).sched.debounce == sys.sched.debounce && AfterHandle(sys, w).tasks == sys.tasks
  {
  }

  // Handling an event registers a new task, for a session without a live one, or leaves the tasks.
  lemma HandleTasks(sys: System, w: nat)
    requires w < |sys.workers| && sys.workers[w].Handling?
    ensures var next, sid := AfterHandle(sys, w), sys.workers[w].event.sessionId;
            || (next.sched.debounce == sys.sched.debounce && next.tasks == sys.tasks)
            || (!DebounceActive(sys.sched, sid, sys.tasks.Keys)
                && next.sched.debounce == sys.sched.debounce[sid := sys.nextTask]
                && next.tasks == sys.tasks[sys.nextTask := Debounce(sid, Sleeping)])
  {
    if !sys.workers[w].event.eventType.UserMessageReceived? {
      OtherHandleTasks(sys, w);
    }
  }

  lemma NewTaskRegistered(sched: Sched, tasks: map<TaskId, Debounce>, sid: SessionId, t: TaskId, next: Sched)
    requires Registered(sched, tasks) && !DebounceActive(sched, sid, tasks.Keys) && t !in tasks
    requires next.debounce == sched.debounce[sid := t]
    ensures Registered(next, tasks[t := Debounce(sid, Sleeping)])
  {
  }

  lemma HandleKeepsRegistered(sys: System, w: nat)
    requires w < |sys.workers| && sys.workers[w].Handling? && Registered(sys.sched, sys.tasks)
    requires forall t :: t in sys.tasks ==> t < sys.nextTask
    ensures Registered(AfterHandle(sys, w).sched, AfterHandle(sys, w).tasks)
  {
    var next := AfterHandle(sys, w);
    HandleTasks(sys, w);
    if next.tasks != sys.tasks {
      NewTaskRegistered(sys.sched, sys.tasks, sys.workers[w].event.sessionId, sys.nextTask, next.sched);
    }
  }

  lemma RegisteredStep(sys: System, step: Step)
    requires Enabled(sys, step) && Registered(sys.sched, sys.tasks)
    requires forall t :: t in sys.tasks ==> t < sys.nextTask
    ensures Registered(Apply(sys, step).sched, Apply(sys, step).tasks)
  {
    if step.Handle? {
      HandleKeepsRegistered(sys, step.w);
    }
  }

  lemma {:induction false} RunKeepsRegistered(sys: System, steps: seq<Step>)
    requires IsRun(sys, steps) && Inv(sys) && Registered(sys.sched, sys.tasks)
    ensures Registered(RunFrom(sys, steps).sched, RunFrom(sys, steps).tasks)
    decreases |steps|
  {
    if steps != [] {
      StepKeepsInv(sys, steps[0]);
      RegisteredStep(sys, steps[0]);
      RunKeepsRegistered(Apply(sys, steps[0]), steps[1..]);
    }
  }

  lemma ReachableRegistered(sys: System)
    requires Reachable(sys)
    ensures Registered(sys.sched, sys.tasks)
  {
    var init, steps :| Init(init) && IsRun(init, steps) && RunFrom(init, steps) == sys;
    InitInv(init);
    RunKeepsRegistered(init, steps);
  }

  ghost predicate DebounceIn(sys: System, sid: SessionId, phase: DebouncePhase) {
    exists t :: t in sys.tasks && sys.tasks[t] == Debounce(sid, phase)
  }

  // A trigger waits in the mailbox, no wakeup is pending, and neither a debounce task nor a
  // worker is still to decide about one: only a sweep, or another event, can wake the session.
  ghost predicate LeftToSweep(sys: System, sid: SessionId) {
    && HasTrigger(Mailbox(sys.sched, sid))
    && !WakeupPending(sys, sid)
    && !DebounceIn(sys, sid, Sleeping)
    && (forall w :: 0 <= w < |sys.workers| ==> sys.workers[w] != Deciding(sid))
  }

  lemma ActivePhase(sys: System, sid: SessionId)
    requires Registered(sys.sched, sys.tasks)
    ensures DebounceActive(sys.sched, sid, sys.tasks.Keys) <==>
            DebounceIn(sys, sid, Sleeping) || DebounceIn(sys, sid, OwingWakeup) || DebounceIn(sys, sid, Exiting)
    ensures DebounceIn(sys, sid, Exiting) ==> !DebounceIn(sys, sid, Sleeping)
  {
    if DebounceActive(sys.sched, sid, sys.tasks.Keys) {
      var t := sys.sched.debounce[sid];
      var phase := sys.tasks[t].phase;
      assert sys.tasks[t] == Debounce(sid, phase) && DebounceIn(sys, sid, phase);
      assert phase == Sleeping || phase == OwingWakeup || phase == Exiting;
    }
  }

  lemma StoredTrigger(sc: Sched, e: RuntimeEvent)
    requires IsMailboxType(e.eventType) && ParsedTriggerTurn(e.triggerTurn)
    ensures HasTrigger(Mailbox(Stored(sc, e), e.sessionId))
  {
    var mail := Mailbox(Stored(sc, e), e.sessionId);
    assert mail[|mail| - 1].triggerTurn;
  }

  // Storing an event neither adds nor takes a pending wakeup.
  lemma StoringKeepsPending(sys: System, w: nat, sid: SessionId)
    requires w < |sys.workers| && sys.workers[w].Handling? && IsMailboxType(sys.workers[w].event.eventType)
    requires forall t :: t in sys.tasks ==> t < sys.nextTask
    ensures WakeupPending(AfterHandle(sys, w), sid) <==> WakeupPending(sys, sid)
  {
    var next := AfterHandle(sys, w);
    HandleShape(sys, w);
    HandleKeepsCarriers(sys, w, sid);
    if WakeupPending(sys, sid) {
      PendingKept(sys, next, sid);
    }
    if WakeupPending(next, sid) {
      if i :| WakeupAt(next.bus, sid, i) {
        assert WakeupAt(sys.bus, sid, i);
      } else if v :| 0 <= v < |next.workers| && CarriesWakeup(next.workers[v], sid) {
        assert CarriesWakeup(sys.workers[v], sid);
      } else if t :| t in next.tasks && next.tasks[t] == Debounce(sid, OwingWakeup) {
        assert sys.tasks[t] == Debounce(sid, OwingWakeup);
      }
    }
  }

  // Who decides about a wakeup after a trigger was stored: the new debounce task or the worker
  // itself, unless a debounce task was live; then that one, if it still sleeps.
  lemma StoringDecides(sys: System, w: nat)
    requires w < |sys.workers| && sys.workers[w].Handling? && IsMailboxType(sys.workers[w].event.eventType)
    requires ParsedTriggerTurn(sys.workers[w].event.triggerTurn) && sys.workers[w].event.sessionId == sys.workers[w].sid
    requires BusInv(sys.bus, sys.workers) && forall t :: t in sys.tasks ==> t < sys.nextTask
    ensures var sid, next := sys.workers[w].sid, AfterHandle(sys, w);
            (DebounceIn(next, sid, Sleeping) || exists v :: 0 <= v < |next.workers| && next.workers[v] == Deciding(sid))
            <==> (!DebounceActive(sys.sched, sid, sys.tasks.Keys) || DebounceIn(sys, sid, Sleeping))
  {
    var sid, next := sys.workers[w].sid, AfterHandle(sys, w);
    HandleShape(sys, w);
    forall v | 0 <= v < |sys.workers| && v != w ensures next.workers[v] != Deciding(sid) {
      if next.workers[v] == Deciding(sid) {
        assert Busy(sys.workers, v, sid) && Busy(sys.workers, w, sid);
      }
    }
    if t :| t in sys.tasks && sys.tasks[t] == Debounce(sid, Sleeping) {
      assert next.tasks[t] == Debounce(sid, Sleeping);
    }
    if !DebounceActive(sys.sched, sid, sys.tasks.Keys) {
      if sys.workers[w].event.eventType.UserMessageReceived? {
        assert next.tasks[sys.nextTask] == Debounce(sid, Sleeping);
      } else {
        assert next.workers[w] == Deciding(sid);
      }
    } else if t :| t in next.tasks && next.tasks[t] == Debounce(sid, Sleeping) {
      assert sys.tasks[t] == Debounce(sid, Sleeping);
    }
  }

  ghost predicate NoDebounce(sys: System, sid: SessionId) {
    forall t :: t in sys.tasks ==> sys.tasks[t].sid != sid
  }

  // The envelope stored last asks for a turn, and no debounce task of the session was live.
  ghost predicate AsksForTurn(sys: System, next: System, sid: SessionId) {
    var mail := Mailbox(next.sched, sid);
    mail != [] && mail[|mail| - 1].triggerTurn && NoDebounce(sys, sid)
  }

  lemma LiveMeansActive(sys: System, sid: SessionId)
    requires Registered(sys.sched, sys.tasks)
    ensures NoDebounce(sys, sid) <==> !DebounceActive(sys.sched, sid, sys.tasks.Keys)
  {
  }

  // Storing an event starts a debounce task for its session, and no other change to tasks or
  // their table, exactly if it is a user message that asks for a turn; the worker goes on to
  // decide about a wakeup itself exactly if it is a subtask that does.
  lemma StoringStarts(sys: System, w: nat)
    requires Reachable(sys) && w < |sys.workers| && sys.workers[w].Handling?
    requires IsMailboxType(sys.workers[w].event.eventType)
    ensures var Handling(sid, e) := sys.workers[w];
            var next := Apply(sys, Handle(w));
            var starts := e.eventType == UserMessageReceived && AsksForTurn(sys, next, sid);
            && Mailbox(next.sched, sid) == Mailbox(sys.sched, sid) + [ToEnvelope(e)]
            && (starts <==> exists t: TaskId :: t !in sys.tasks && next.tasks == sys.tasks[t := Debounce(sid, Sleeping)]
                                        && next.sched.debounce == sys.sched.debounce[sid := t])
            && (!starts <==> next.tasks == sys.tasks && next.sched.debounce == sys.sched.debounce)
            && next.workers[w] == if e.eventType == SubtaskCompleted && AsksForTurn(sys, next, sid) then Deciding(sid)
                                  else Finished(sid)
  {
    ReachableInv(sys);
    ReachableRegistered(sys);
    var Handling(sid, e) := sys.workers[w];
    LiveMeansActive(sys, sid);
    var next := Apply(sys, Handle(w));
    assert ToEnvelope(e).triggerTurn == ParsedTriggerTurn(e.triggerTurn);
    assert sys.nextTask !in sys.tasks;
    if e.eventType == UserMessageReceived && AsksForTurn(sys, next, sid) {
      assert next.tasks[sys.nextTask] == Debounce(sid, Sleeping);
    }
  }

  // A trigger just stored, by a user message or a subtask, is left to a sweep exactly if the
  // session's debounce task had decided and only its removal was to come, with no wakeup pending.
  lemma LeftToSweepIff(sys: System, w: nat)
    requires Reachable(sys) && w < |sys.workers| && sys.workers[w].Handling?
    requires IsMailboxType(sys.workers[w].event.eventType) && ParsedTriggerTurn(sys.workers[w].event.triggerTurn)
    ensures var sid := sys.workers[w].sid;
            LeftToSweep(AfterHandle(sys, w), sid) <==> DebounceIn(sys, sid, Exiting) && !WakeupPending(sys, sid)
  {
    ReachableInv(sys);
    ReachableRegistered(sys);
    var sid := sys.workers[w].sid;
    assert sys.workers[w].event.sessionId == sid;
    ActivePhase(sys, sid);
    StoringShape(sys, w);
    StoredTrigger(sys.sched, sys.workers[w].event);
    StoringKeepsPending(sys, w, sid);
    StoringDecides(sys, w);
  }

  // ---------- the debounce race ----------

  // Session sid has a trigger waiting, but no flag, no wakeup and no debounce task: only a
  // watchdog sweep (or some other event) can move it.
  ghost predicate OnlyWatchdogHelps(sys: System, sid: SessionId) {
    && HasTrigger(Mailbox(sys.sched, sid))
    && !StateOf(sys.sched, sid).wakeupQueued
    && !WakeupPending(sys, sid)
    && (forall t :: t in sys.tasks ==> sys.tasks[t].sid != sid)
    && Queue(sys.bus, sid) == []
    && !Held(sys.workers, sid)
  }

  // Worker 0 takes the only token and pops the only event of session 0.
  lemma PopOnly(sys: System, e: RuntimeEvent) returns (popped: System)
    requires Reachable(sys) && sys.workers == [Idle] && e.sessionId == 0
    requires sys.bus == Published(EmptyBus, e)
    ensures Reachable(popped)
    ensures popped == sys.(bus := Bus(map[0 := []], [], {0}), workers := [Handling(0, e)])
  {
    assert [] + [e] == [e];
    assert sys.bus.ready == [0] && sys.bus.queues == map[0 := [e]];
    ReachableStep(sys, Take(0));
    var held := Apply(sys, Take(0));
    assert held.workers == [Holding(0)] && held.bus == Bus(map[0 := [e]], [], {0});
    ReachableStep(held, Pop(0));
    popped := Apply(held, Pop(0));
    assert popped.bus.queues == map[0 := []] && popped.workers == [Handling(0, e)];
  }

  lemma ServeMessage(sys: System, e: RuntimeEvent) returns (next: System)
    requires Reachable(sys) && sys.workers == [Idle] && e.sessionId == 0 && sys.sched.states == map[]
    requires e.eventType.UserMessageReceived? && ParsedTriggerTurn(e.triggerTurn)
    requires sys.bus == Published(EmptyBus, e)
    ensures Reachable(next) && next.workers == [Finished(0)] && next.bus == Bus(map[0 := []], [], {0})
    ensures next.watchdog == sys.watchdog
    ensures next.sched.states == map[0 := SessionState(false, false, [ToEnvelope(e)])]
    ensures DebounceActive(sys.sched, 0, sys.tasks.Keys) ==>
              next.sched.debounce == sys.sched.debounce && next.tasks == sys.tasks
    ensures !DebounceActive(sys.sched, 0, sys.tasks.Keys) ==>
              next.sched.debounce == sys.sched.debounce[0 := sys.nextTask]
              && next.tasks == sys.tasks[sys.nextTask := Debounce(0, Sleeping)]
  {
    var popped := PopOnly(sys, e);
    ReachableStep(popped, Handle(0));
    next := AfterHandle(popped, 0);
    assert next.workers == [Finished(0)];
    assert Mailbox(popped.sched, 0) == [];
    assert [] + [ToEnvelope(e)] == [ToEnvelope(e)];
    assert next.sched.states == popped.sched.states[0 := SessionState(false, false, [ToEnvelope(e)])];
  }

  lemma ServeWakeup(sys: System, e: RuntimeEvent) returns (next: System)
    requires Reachable(sys) && sys.workers == [Idle] && e.sessionId == 0 && e.eventType.WakeupRequested?
    requires sys.sched.states.Keys == {0} && HasTrigger(Mailbox(sys.sched, 0)) && !sys.sched.states[0].inflight
    requires sys.bus == Published(EmptyBus, e)
    ensures Reachable(next) && next.workers == [InTurn(0)] && next.bus == Bus(map[0 := []], [], {0})
    ensures next.watchdog == sys.watchdog && next.tasks == sys.tasks && next.sched.debounce == sys.sched.debounce
    ensures next.sched.states == map[0 := SessionState(true, false, [])]
  {
    var popped := PopOnly(sys, e);
    ReachableStep(popped, Handle(0));
    next := AfterHandle(popped, 0);
    assert next.workers == [InTurn(0)];
    assert next.sched.states == popped.sched.states[0 := SessionState(true, false, [])];
  }

  lemma Release(sys: System) returns (next: System)
    requires Reachable(sys) && sys.workers == [Finished(0)] && sys.bus == Bus(map[0 := []], [], {0})
    ensures Reachable(next) && next == sys.(bus := EmptyBus, workers := [Idle])
  {
    ReachableStep(sys, Reschedule(0));
    next := Apply(sys, Reschedule(0));
    assert next.bus.queues == map[] && next.bus.scheduled == {} && next.workers == [Idle];
  }

  const FirstMessage := RuntimeEvent(UserMessageReceived, 0, Some(true), OtherSource("gateway"), 1)
  const SecondMessage := RuntimeEvent(UserMessageReceived, 0, Some(true), OtherSource("gateway"), 2)

  const OneWorker := System(EmptyBus, EmptySched, [Idle], map[], 0, [], map[], map[], map[])

  lemma RacePublish(sys: System, e: RuntimeEvent) returns (next: System)
    requires Reachable(sys) && sys.bus == EmptyBus
    ensures Reachable(next) && next.bus == Published(EmptyBus, e)
    ensures next.(bus := sys.bus, published := sys.published) == sys
  {
    ReachableStep(sys, Publish(e));
    next := Apply(sys, Publish(e));
  }

  lemma RaceStored() returns (sys: System)
    ensures Reachable(sys) && sys.workers == [Idle] && sys.watchdog == [] && sys.bus == EmptyBus
    ensures sys.sched == Sched(map[0 := SessionState(false, false, [ToEnvelope(FirstMessage)])], map[0 := 0])
    ensures sys.tasks == map[0 := Debounce(0, Sleeping)]
  {
    assert IsRun(OneWorker, []) && RunFrom(OneWorker, []) == OneWorker;
    var s := RacePublish(OneWorker, FirstMessage);
    s := ServeMessage(s, FirstMessage);
    sys := Release(s);
  }

  // The debounce task has decided to wake the session.
  lemma RaceDecided() returns (sys: System)
    ensures Reachable(sys) && sys.workers == [Idle] && sys.watchdog == [] && sys.bus == EmptyBus
    ensures sys.sched == Sched(map[0 := SessionState(false, true, [ToEnvelope(FirstMessage)])], map[0 := 0])
    ensures sys.tasks == map[0 := Debounce(0, OwingWakeup)]
  {
    var s := RaceStored();
    assert ToEnvelope(FirstMessage).triggerTurn && Mailbox(s.sched, 0)[0] == ToEnvelope(FirstMessage);
    ReachableStep(s, DebounceDecide(0));
    sys := AfterDebounceDecide(s, 0);
    assert sys.tasks == map[0 := Debounce(0, OwingWakeup)];
  }

  // It has published the wakeup.
  lemma RaceWakeup() returns (sys: System)
    ensures Reachable(sys) && sys.workers == [Idle] && sys.watchdog == []
    ensures sys.bus == Published(EmptyBus, WakeupEvent(0, DebounceTimer))
    ensures sys.sched == Sched(map[0 := SessionState(false, true, [ToEnvelope(FirstMessage)])], map[0 := 0])
    ensures sys.tasks == map[0 := Debounce(0, Exiting)]
  {
    var s := RaceDecided();
    ReachableStep(s, DebouncePublish(0));
    sys := Apply(s, DebouncePublish(0));
    assert sys.tasks == map[0 := Debounce(0, Exiting)];
  }

  // The turn has consumed it, while the debounce task has yet to remove itself.
  lemma RaceFirstTurn() returns (sys: System)
    ensures Reachable(sys) && sys.workers == [Idle] && sys.bus == EmptyBus && sys.watchdog == []
    ensures sys.sched == Sched(map[], map[0 := 0]) && sys.tasks == map[0 := Debounce(0, Exiting)]
  {
    var s := RaceWakeup();
    assert ToEnvelope(FirstMessage).triggerTurn && Mailbox(s.sched, 0)[0] == ToEnvelope(FirstMessage);
    s := ServeWakeup(s, WakeupEvent(0, DebounceTimer));
    ReachableStep(s, EndTurn(0));
    s := AfterTurn(s, 0);
    assert s.workers == [Finished(0)] && s.sched.states == map[];
    sys := Release(s);
  }

  // A second message is stored in that window, without a new debounce task.
  lemma RaceSecondStored() returns (sys: System)
    ensures Reachable(sys) && sys.workers == [Idle] && sys.bus == EmptyBus && sys.watchdog == []
    ensures sys.sched == Sched(map[0 := SessionState(false, false, [ToEnvelope(SecondMessage)])], map[0 := 0])
    ensures sys.tasks == map[0 := Debounce(0, Exiting)]
  {
    var s := RaceFirstTurn();
    s := RacePublish(s, SecondMessage);
    s := ServeMessage(s, SecondMessage);
    sys := Release(s);
  }

  lemma RaceTaskGone() returns (sys: System)
    ensures Reachable(sys) && sys.workers == [Idle] && sys.bus == EmptyBus && sys.watchdog == []
    ensures sys.sched.states == map[0 := SessionState(false, false, [ToEnvelope(SecondMessage)])] && sys.tasks == map[]
  {
    var s := RaceSecondStored();
    ReachableStep(s, DebounceExit(0));
    sys := Apply(s, DebounceExit(0));
    assert sys.tasks == map[];
  }

  // Such a state is reached: a second message arrives in that window, schedules no debounce, and
  // once the task has removed itself nothing but the watchdog is left to wake the session. The
  // run lets other tasks in between the task's decision and its removal, as any await may. In the
  // code as it stands no task suspends there: nothing waits while it holds either of the locks
  // taken in between, so neither is ever contended.
  lemma DebounceRace()
    ensures exists sys :: Reachable(sys) && OnlyWatchdogHelps(sys, 0)
  {
    var sys := RaceTaskGone();
    assert ToEnvelope(SecondMessage).triggerTurn && Mailbox(sys.sched, 0)[0] == ToEnvelope(SecondMessage);
    assert OnlyWatchdogHelps(sys, 0);
  }
}
