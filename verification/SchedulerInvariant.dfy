// The joint invariant of the bus, the workers, the scheduler, the debounce tasks and the
// watchdog, and its preservation by every step.
module SchedulerInvariant {
  import opened Wrappers
  import opened Events
  import opened EventBus
  import opened Scheduler
  import opened SchedulerSystem

  // ---------- one token per scheduled session ----------

  predicate Busy(workers: seq<Worker>, w: int, sid: SessionId) {
    0 <= w < |workers| && !workers[w].Idle? && workers[w].sid == sid
  }

  ghost predicate Held(workers: seq<Worker>, sid: SessionId) {
    exists w :: Busy(workers, w, sid)
  }

  ghost predicate OneHolder(workers: seq<Worker>) {
    forall v, w, sid :: Busy(workers, v, sid) && Busy(workers, w, sid) ==> v == w
  }

  ghost predicate TokenInv(bus: Bus, workers: seq<Worker>) {
    && (forall i, j :: 0 <= i < j < |bus.ready| ==> bus.ready[i] != bus.ready[j])
    && OneHolder(workers)
    && (forall sid :: Held(workers, sid) ==> sid !in bus.ready)
    && (forall sid :: sid in bus.scheduled <==> sid in bus.ready || Held(workers, sid))
  }

  ghost predicate QueueInv(bus: Bus, workers: seq<Worker>) {
    && (forall sid :: sid in bus.queues ==> sid in bus.scheduled)
    && (forall sid :: sid in bus.ready ==> Queue(bus, sid) != [])
    && (forall w :: 0 <= w < |workers| && workers[w].Holding? ==> Queue(bus, workers[w].sid) != [])
    && (forall w :: 0 <= w < |workers| && workers[w].Handling? ==> workers[w].event.sessionId == workers[w].sid)
    && (forall sid, i :: 0 <= i < |Queue(bus, sid)| ==> Queue(bus, sid)[i].sessionId == sid)
  }

  // ---------- turns and flags ----------

  predicate Turning(workers: seq<Worker>, w: int, sid: SessionId) {
    0 <= w < |workers| && workers[w] == InTurn(sid)
  }

  ghost predicate TurnInv(sched: Sched, workers: seq<Worker>) {
    && (forall w, sid :: Turning(workers, w, sid) ==>
          sid in sched.states && sched.states[sid] == SessionState(true, false, []))
    && (forall sid :: sid in sched.states && sched.states[sid].inflight ==>
          exists w :: Turning(workers, w, sid))
  }

  predicate WakeupAt(bus: Bus, sid: SessionId, i: int) {
    0 <= i < |Queue(bus, sid)| && Queue(bus, sid)[i].eventType == WakeupRequested
  }

  predicate CarriesWakeup(worker: Worker, sid: SessionId) {
    || (worker.Handling? && worker.sid == sid && worker.event.eventType == WakeupRequested)
    || (worker.Owing? && worker.sid == sid)
  }

  // A wakeup for sid is in the bus, at a worker before run_session's first block, or owed by
  // a publisher that set the flag.
  ghost predicate WakeupPending(sys: System, sid: SessionId) {
    || (exists i :: WakeupAt(sys.bus, sid, i))
    || (exists w :: 0 <= w < |sys.workers| && CarriesWakeup(sys.workers[w], sid))
    || (exists t :: t in sys.tasks && sys.tasks[t] == Debounce(sid, OwingWakeup))
    || sid in sys.watchdog
  }

  ghost predicate FlagInv(sys: System) {
    forall sid :: sid in sys.sched.states && sys.sched.states[sid].wakeupQueued ==> WakeupPending(sys, sid)
  }

  // ---------- order and conservation ----------

  ghost predicate DispatchOrder(sys: System, sid: SessionId) {
    && (forall w :: 0 <= w < |sys.workers| && sys.workers[w].Handling? && sys.workers[w].sid == sid ==>
          At(sys.handled, sid) + [sys.workers[w].event] + Queue(sys.bus, sid) == At(sys.published, sid))
    && ((forall w :: 0 <= w < |sys.workers| && sys.workers[w].Handling? ==> sys.workers[w].sid != sid) ==>
          At(sys.handled, sid) + Queue(sys.bus, sid) == At(sys.published, sid))
  }

  ghost predicate MailboxOrder(sys: System, sid: SessionId) {
    Flatten(At(sys.batches, sid)) + Mailbox(sys.sched, sid) == MailboxEvents(At(sys.handled, sid))
  }

  ghost predicate Inv(sys: System) {
    && |sys.workers| >= 1
    && (forall t :: t in sys.tasks ==> t < sys.nextTask)
    && BusInv(sys.bus, sys.workers)
    && TurnInv(sys.sched, sys.workers)
    && FlagInv(sys)
    && (forall sid :: DispatchOrder(sys, sid))
    && (forall sid :: MailboxOrder(sys, sid))
  }

  lemma InitInv(sys: System)
    requires Init(sys)
    ensures Inv(sys)
  {
  }

  // ---------- the token invariant ----------

  ghost predicate BusInv(bus: Bus, workers: seq<Worker>) {
    TokenInv(bus, workers) && QueueInv(bus, workers)
  }

  lemma PublishKeepsTokens(bus: Bus, workers: seq<Worker>, e: RuntimeEvent)
    requires BusInv(bus, workers)
    ensures BusInv(Published(bus, e), workers)
  {
    var next := Published(bus, e);
    forall sid ensures sid != e.sessionId ==> Queue(next, sid) == Queue(bus, sid) {}
  }

  lemma TakeKeepsTokens(bus: Bus, workers: seq<Worker>, w: nat)
    requires BusInv(bus, workers) && w < |workers| && workers[w].Idle? && bus.ready != []
    ensures BusInv(bus.(ready := bus.ready[1..]), workers[w := Holding(bus.ready[0])])
  {
    var sid := bus.ready[0];
    var next := workers[w := Holding(sid)];
    assert Busy(next, w, sid);
    forall s, v | Busy(next, v, s) && v != w ensures Busy(workers, v, s) && s != sid {
      assert Busy(workers, v, s);
      assert Held(workers, s);
    }
    assert forall s :: Queue(bus.(ready := bus.ready[1..]), s) == Queue(bus, s);
    forall s ensures Held(next, s) <==> Held(workers, s) || s == sid {
      if Held(workers, s) {
        var v :| Busy(workers, v, s);
        assert Busy(next, v, s);
      }
    }
    assert forall s :: s in bus.ready <==> s in bus.ready[1..] || s == sid;
  }

  // A busy worker moves on within the same dispatch.
  lemma MoveKeepsTokens(bus: Bus, workers: seq<Worker>, w: nat, to: Worker)
    requires BusInv(bus, workers) && w < |workers| && !workers[w].Idle?
    requires !to.Idle? && !to.Holding? && to.sid == workers[w].sid
    requires to.Handling? ==> to.event.sessionId == to.sid
    ensures BusInv(bus, workers[w := to])
  {
    var next := workers[w := to];
    assert forall v, sid :: Busy(next, v, sid) <==> Busy(workers, v, sid);
    assert forall sid :: Held(next, sid) <==> Held(workers, sid);
  }

  lemma PopKeepsTokens(bus: Bus, workers: seq<Worker>, w: nat)
    requires BusInv(bus, workers) && w < |workers| && workers[w].Holding?
    ensures Popped(bus, workers[w].sid).1.Some?
    ensures BusInv(Popped(bus, workers[w].sid).0,
                   workers[w := Handling(workers[w].sid, Popped(bus, workers[w].sid).1.value)])
  {
    var sid := workers[w].sid;
    assert Busy(workers, w, sid);
    var (next, popped) := Popped(bus, sid);
    assert popped.value == Queue(bus, sid)[0];
    MoveKeepsTokens(bus, workers, w, Handling(sid, popped.value));
    var moved := workers[w := Handling(sid, popped.value)];
    assert forall s, i :: 0 <= i < |Queue(next, s)| ==>
      Queue(next, s)[i] == Queue(bus, s)[if s == sid then i + 1 else i];
    forall v | 0 <= v < |moved| && moved[v].Holding? ensures moved[v].sid != sid {
      assert Busy(workers, v, moved[v].sid);
    }
    assert Held(workers, sid);
  }

  lemma RescheduleKeepsTokens(bus: Bus, workers: seq<Worker>, w: nat)
    requires BusInv(bus, workers) && w < |workers| && workers[w].Finished?
    ensures BusInv(Rescheduled(bus, workers[w].sid), workers[w := Idle])
  {
    var sid := workers[w].sid;
    var next := workers[w := Idle];
    assert Busy(workers, w, sid) && Held(workers, sid);
    forall v, s ensures Busy(next, v, s) <==> Busy(workers, v, s) && s != sid {
      if Busy(workers, v, s) && v != w {
        assert Busy(workers, w, sid);
      }
    }
    forall s ensures Held(next, s) <==> Held(workers, s) && s != sid {
      if Held(workers, s) && s != sid {
        var v :| Busy(workers, v, s);
        assert Busy(next, v, s);
      }
    }
    assert forall s :: s != sid ==> Queue(Rescheduled(bus, sid), s) == Queue(bus, s);
  }

  // Handling an event leaves the bus alone and moves one worker on.
  lemma HandleShape(sys: System, w: nat)
    requires w < |sys.workers| && sys.workers[w].Handling?
    ensures var next, sid := AfterHandle(sys, w), sys.workers[w].sid;
            && next.bus == sys.bus && next.published == sys.published && next.watchdog == sys.watchdog
            && next.handled == Recorded(sys.handled, sid, sys.workers[w].event)
            && |next.workers| == |sys.workers| && next.workers == sys.workers[w := next.workers[w]]
            && (next.workers[w] == Finished(sid) || next.workers[w] == Deciding(sid) || next.workers[w] == InTurn(sid))
  {
    var e := sys.workers[w].event;
    match e.eventType
    case UserMessageReceived => assert AfterHandle(sys, w).workers == AfterUserMessage(sys, w).workers;
    case SubtaskCompleted => assert AfterHandle(sys, w).workers == AfterSubtask(sys, w).workers;
    case WakeupRequested => assert AfterHandle(sys, w).workers == AfterWakeup(sys, w).workers;
    case _ =>
  }

  lemma TokenStep(sys: System, step: Step)
    requires Enabled(sys, step) && BusInv(sys.bus, sys.workers)
    ensures BusInv(Apply(sys, step).bus, Apply(sys, step).workers)
  {
    var next := Apply(sys, step);
    match step
    case Publish(e) => PublishKeepsTokens(sys.bus, sys.workers, e);
    case Take(w) => TakeKeepsTokens(sys.bus, sys.workers, w);
    case Pop(w) => PopKeepsTokens(sys.bus, sys.workers, w);
    case Handle(w) =>
      HandleShape(sys, w);
      MoveKeepsTokens(sys.bus, sys.workers, w, next.workers[w]);
    case Decide(w) => MoveKeepsTokens(sys.bus, sys.workers, w, next.workers[w]);
    case PublishOwed(w) =>
      var Owing(sid, source) := sys.workers[w];
      MoveKeepsTokens(sys.bus, sys.workers, w, Finished(sid));
      PublishKeepsTokens(sys.bus, next.workers, WakeupEvent(sid, source));
    case EndTurn(w) => MoveKeepsTokens(sys.bus, sys.workers, w, next.workers[w]);
    case Reschedule(w) => RescheduleKeepsTokens(sys.bus, sys.workers, w);
    case DebouncePublish(t) =>
      PublishKeepsTokens(sys.bus, sys.workers, WakeupEvent(sys.tasks[t].sid, DebounceTimer));
    case WatchdogPublish =>
      PublishKeepsTokens(sys.bus, sys.workers, WakeupEvent(sys.watchdog[0], HeartbeatWatchdog));
    case _ =>
  }
}
