// Every step keeps the joint invariant; what holds in every reachable state.
module SchedulerSafety {
  import opened Wrappers
  import opened Events
  import opened EventBus
  import opened Scheduler
  import opened SchedulerSystem
  import opened SchedulerInvariant

  // ---------- turns ----------

  // The session a worker handles has no turn in flight.
  lemma HandledNotInflight(sys: System, w: nat)
    requires w < |sys.workers| && !sys.workers[w].Idle? && !sys.workers[w].InTurn?
    requires OneHolder(sys.workers) && TurnInv(sys.sched, sys.workers)
    ensures forall v :: !Turning(sys.workers, v, sys.workers[w].sid)
    ensures !StateOf(sys.sched, sys.workers[w].sid).inflight
  {
    var sid := sys.workers[w].sid;
    assert Busy(sys.workers, w, sid);
    forall v ensures !Turning(sys.workers, v, sid) {
      if Turning(sys.workers, v, sid) {
        assert Busy(sys.workers, v, sid);
      }
    }
  }

  // Worker w goes from one phase to another, neither of them a turn.
  lemma IdleMoveKeepsTurns(sched: Sched, workers: seq<Worker>, w: nat, to: Worker)
    requires w < |workers| && !workers[w].InTurn? && !to.InTurn? && TurnInv(sched, workers)
    ensures TurnInv(sched, workers[w := to])
  {
    var next := workers[w := to];
    assert forall v, sid :: Turning(next, v, sid) <==> Turning(workers, v, sid);
    forall sid | sid in sched.states && sched.states[sid].inflight ensures exists v :: Turning(next, v, sid) {
      var v :| Turning(workers, v, sid);
      assert Turning(next, v, sid);
    }
  }

  predicate SameElsewhere(a: Sched, b: Sched, sid: SessionId) {
    a.states - {sid} == b.states - {sid}
  }

  // Worker w, busy with sid, moves on while only the state of sid changes.
  lemma MoveKeepsTurns(a: Sched, b: Sched, workers: seq<Worker>, w: nat, to: Worker)
    requires w < |workers| && !workers[w].Idle? && OneHolder(workers) && TurnInv(a, workers)
    requires SameElsewhere(a, b, workers[w].sid)
    requires to.InTurn? ==> to.sid == workers[w].sid && to.sid in b.states && b.states[to.sid] == SessionState(true, false, [])
    requires !to.InTurn? ==> !StateOf(b, workers[w].sid).inflight
    ensures TurnInv(b, workers[w := to])
  {
    var next, sid := workers[w := to], workers[w].sid;
    assert Busy(workers, w, sid);
    assert forall s :: s != sid ==> (s in a.states <==> s in a.states - {sid}) && (s in b.states <==> s in b.states - {sid});
    forall v, s | Turning(next, v, s)
      ensures s in b.states && b.states[s] == SessionState(true, false, [])
    {
      if v != w {
        assert Turning(workers, v, s) && Busy(workers, v, s);
        assert s != sid;
        assert b.states[s] == (b.states - {sid})[s] == a.states[s];
      }
    }
    forall s | s in b.states && b.states[s].inflight
      ensures exists v :: Turning(next, v, s)
    {
      if s == sid {
        assert Turning(next, w, sid);
      } else {
        assert b.states[s] == (b.states - {sid})[s] == a.states[s];
        var v :| Turning(workers, v, s);
        assert v != w && Turning(next, v, s);
      }
    }
  }

  // A session's flag changes, but neither its mailbox nor its turn.
  lemma FlagKeepsTurns(sched: Sched, workers: seq<Worker>, sid: SessionId)
    requires TurnInv(sched, workers)
    ensures TurnInv(WakeupFlagged(sched, sid), workers)
  {
  }

  lemma StoredSched(sc: Sched, e: RuntimeEvent)
    ensures SameElsewhere(sc, Stored(sc, e), e.sessionId)
    ensures StateOf(Stored(sc, e), e.sessionId).inflight == StateOf(sc, e.sessionId).inflight
  {
  }

  // Consuming any wakeup clears the flag; a turn starts exactly when a batch is consumed.
  lemma StartedSched(sc: Sched, sid: SessionId, source: Source)
    requires !StateOf(sc, sid).inflight
    ensures var (next, batch) := TurnStarted(sc, sid, source);
            && SameElsewhere(sc, next, sid)
            && (batch.Some? ==> sid in next.states && next.states[sid] == SessionState(true, false, [])
                                && batch.value == Mailbox(sc, sid))
            && (batch.None? ==> !StateOf(next, sid).inflight && !StateOf(next, sid).wakeupQueued
                                && Mailbox(next, sid) == Mailbox(sc, sid))
  {
  }

  lemma HandleKeepsTurns(sys: System, w: nat)
    requires w < |sys.workers| && sys.workers[w].Handling?
    requires BusInv(sys.bus, sys.workers) && TurnInv(sys.sched, sys.workers)
    ensures TurnInv(AfterHandle(sys, w).sched, AfterHandle(sys, w).workers)
  {
    HandledNotInflight(sys, w);
    HandleShape(sys, w);
    var next, e := AfterHandle(sys, w), sys.workers[w].event;
    match e.eventType {
      case UserMessageReceived => StoredSched(sys.sched, e);
      case SubtaskCompleted => StoredSched(sys.sched, e);
      case WakeupRequested => StartedSched(sys.sched, e.sessionId, e.source);
      case _ =>
    }
    MoveKeepsTurns(sys.sched, next.sched, sys.workers, w, next.workers[w]);
  }

  // A finished turn always removes the session state and never requeues.
  lemma EndTurnRemoves(sys: System, w: nat)
    requires w < |sys.workers| && sys.workers[w].InTurn? && TurnInv(sys.sched, sys.workers)
    ensures var sid := sys.workers[w].sid;
            TurnFinished(sys.sched, sid) == (sys.sched.(states := sys.sched.states - {sid}), false)
  {
    assert Turning(sys.workers, w, sys.workers[w].sid);
  }

  lemma TurnStep(sys: System, step: Step)
    requires Enabled(sys, step) && BusInv(sys.bus, sys.workers) && TurnInv(sys.sched, sys.workers)
    ensures TurnInv(Apply(sys, step).sched, Apply(sys, step).workers)
  {
    match step
    case Take(w) => IdleMoveKeepsTurns(sys.sched, sys.workers, w, Holding(sys.bus.ready[0]));
    case Pop(w) =>
      PopKeepsTokens(sys.bus, sys.workers, w);
      IdleMoveKeepsTurns(sys.sched, sys.workers, w, Apply(sys, step).workers[w]);
    case Handle(w) => HandleKeepsTurns(sys, w);
    case Decide(w) =>
      FlagKeepsTurns(sys.sched, sys.workers, sys.workers[w].sid);
      IdleMoveKeepsTurns(WakeupFlagged(sys.sched, sys.workers[w].sid), sys.workers, w, Apply(sys, step).workers[w]);
    case PublishOwed(w) => IdleMoveKeepsTurns(sys.sched, sys.workers, w, Finished(sys.workers[w].sid));
    case EndTurn(w) =>
      EndTurnRemoves(sys, w);
      MoveKeepsTurns(sys.sched, AfterTurn(sys, w).sched, sys.workers, w, Finished(sys.workers[w].sid));
    case Reschedule(w) => IdleMoveKeepsTurns(sys.sched, sys.workers, w, Idle);
    case Beat(w) =>
      assert Turning(sys.workers, w, sys.workers[w].sid);
      assert Ensured(sys.sched, sys.workers[w].sid).states == sys.sched.states;
    case DebounceDecide(t) => FlagKeepsTurns(sys.sched, sys.workers, sys.tasks[t].sid);
    case _ =>
  }

  // ---------- the wakeup_queued flag ----------

  predicate Flagged(sched: Sched, sid: SessionId) {
    sid in sched.states && sched.states[sid].wakeupQueued
  }

  // Nothing that carried a wakeup for sid has let go of it.
  ghost predicate CarriersKept(sys: System, next: System, sid: SessionId) {
    && Queue(sys.bus, sid) <= Queue(next.bus, sid)
    && |next.workers| == |sys.workers|
    && (forall w :: 0 <= w < |sys.workers| && CarriesWakeup(sys.workers[w], sid) ==> CarriesWakeup(next.workers[w], sid))
    && (forall t :: t in sys.tasks && sys.tasks[t] == Debounce(sid, OwingWakeup) ==>
          t in next.tasks && next.tasks[t] == Debounce(sid, OwingWakeup))
    && (sid in sys.watchdog ==> sid in next.watchdog)
  }

  lemma PendingKept(sys: System, next: System, sid: SessionId)
    requires WakeupPending(sys, sid) && CarriersKept(sys, next, sid)
    ensures WakeupPending(next, sid)
  {
    if i :| WakeupAt(sys.bus, sid, i) {
      assert WakeupAt(next.bus, sid, i);
    }
  }

  lemma PublishedIsPending(sys: System, next: System, sid: SessionId, source: Source)
    requires next.bus == Published(sys.bus, WakeupEvent(sid, source))
    ensures WakeupPending(next, sid)
  {
    assert WakeupAt(next.bus, sid, |Queue(sys.bus, sid)|);
  }

  lemma PopKeepsPending(sys: System, w: nat, sid: SessionId)
    requires w < |sys.workers| && sys.workers[w].Holding? && BusInv(sys.bus, sys.workers) && WakeupPending(sys, sid)
    ensures WakeupPending(AfterPop(sys, w), sid)
  {
    PopKeepsTokens(sys.bus, sys.workers, w);
    var next, held := AfterPop(sys, w), sys.workers[w].sid;
    if i :| WakeupAt(sys.bus, sid, i) {
      if sid != held {
        assert WakeupAt(next.bus, sid, i);
      } else if i == 0 {
        assert CarriesWakeup(next.workers[w], sid);
      } else {
        assert WakeupAt(next.bus, sid, i - 1);
      }
    } else if v :| 0 <= v < |sys.workers| && CarriesWakeup(sys.workers[v], sid) {
      assert CarriesWakeup(next.workers[v], sid);
    }
  }

  lemma StoringShape(sys: System, w: nat)
    requires w < |sys.workers| && sys.workers[w].Handling? && IsMailboxType(sys.workers[w].event.eventType)
    ensures var next, e := AfterHandle(sys, w), sys.workers[w].event;
            && next.batches == sys.batches
            && next.sched.states == Stored(sys.sched, e).states
            && next.handled == Recorded(sys.handled, sys.workers[w].sid, e)
  {
  }

  // Handling a wakeup clears the flag; handling anything else keeps it.
  lemma HandledFlags(sys: System, w: nat, sid: SessionId)
    requires w < |sys.workers| && sys.workers[w].Handling?
    requires BusInv(sys.bus, sys.workers) && TurnInv(sys.sched, sys.workers)
    requires Flagged(AfterHandle(sys, w).sched, sid)
    ensures Flagged(sys.sched, sid)
    ensures sys.workers[w].event.eventType.WakeupRequested? ==> sys.workers[w].sid != sid
  {
    var e := sys.workers[w].event;
    if e.eventType.WakeupRequested? {
      HandledNotInflight(sys, w);
      StartedFlags(sys.sched, e.sessionId, e.source, sid);
      assert AfterHandle(sys, w).sched == TurnStarted(sys.sched, e.sessionId, e.source).0;
    } else if IsMailboxType(e.eventType) {
      StoringShape(sys, w);
    }
  }

  // Consuming a wakeup leaves flags of other sessions only.
  lemma StartedFlags(sc: Sched, own: SessionId, source: Source, sid: SessionId)
    requires !StateOf(sc, own).inflight && Flagged(TurnStarted(sc, own, source).0, sid)
    ensures Flagged(sc, sid) && sid != own
  {
  }

  lemma HandleKeepsCarriers(sys: System, w: nat, sid: SessionId)
    requires w < |sys.workers| && sys.workers[w].Handling? && forall t :: t in sys.tasks ==> t < sys.nextTask
    requires sys.workers[w].event.eventType.WakeupRequested? ==> sys.workers[w].sid != sid
    ensures CarriersKept(sys, AfterHandle(sys, w), sid)
  {
    HandleShape(sys, w);
  }

  lemma HandleKeepsFlags(sys: System, w: nat, sid: SessionId)
    requires w < |sys.workers| && sys.workers[w].Handling?
    requires BusInv(sys.bus, sys.workers) && TurnInv(sys.sched, sys.workers) && FlagInv(sys)
    requires forall t :: t in sys.tasks ==> t < sys.nextTask
    requires Flagged(AfterHandle(sys, w).sched, sid)
    ensures WakeupPending(AfterHandle(sys, w), sid)
  {
    HandledFlags(sys, w, sid);
    HandleKeepsCarriers(sys, w, sid);
    PendingKept(sys, AfterHandle(sys, w), sid);
  }

  lemma WorkerKeepsFlags(sys: System, step: Step, sid: SessionId)
    requires Enabled(sys, step) && (step.Decide? || step.PublishOwed? || step.EndTurn? || step.Beat?)
    requires TurnInv(sys.sched, sys.workers) && FlagInv(sys)
    requires Flagged(Apply(sys, step).sched, sid)
    ensures WakeupPending(Apply(sys, step), sid)
  {
    var next, held := Apply(sys, step), sys.workers[step.w].sid;
    if step.Decide? && !Flagged(sys.sched, sid) {
      assert CarriesWakeup(next.workers[step.w], sid);
    } else if step.PublishOwed? && sid == held {
      PublishedIsPending(sys, next, sid, sys.workers[step.w].source);
    } else {
      assert (step.EndTurn? || step.Beat?) ==> Turning(sys.workers, step.w, held);
      PendingKept(sys, next, sid);
    }
  }

  lemma DebounceKeepsFlags(sys: System, step: Step, sid: SessionId)
    requires Enabled(sys, step) && (step.DebounceDecide? || step.DebouncePublish? || step.DebounceExit?)
    requires FlagInv(sys) && Flagged(Apply(sys, step).sched, sid)
    ensures WakeupPending(Apply(sys, step), sid)
  {
    var next, owner := Apply(sys, step), sys.tasks[step.t].sid;
    if step.DebounceDecide? && !Flagged(sys.sched, sid) {
      assert next.tasks[step.t] == Debounce(sid, OwingWakeup);
    } else if step.DebouncePublish? && sid == owner {
      PublishedIsPending(sys, next, sid, DebounceTimer);
    } else {
      PendingKept(sys, next, sid);
    }
  }

  lemma WatchdogKeepsFlags(sys: System, step: Step, sid: SessionId)
    requires Enabled(sys, step) && (step.Sweep? || step.WatchdogPublish?)
    requires FlagInv(sys) && Flagged(Apply(sys, step).sched, sid)
    ensures WakeupPending(Apply(sys, step), sid)
  {
    var next := Apply(sys, step);
    if step.WatchdogPublish? && sid == sys.watchdog[0] {
      PublishedIsPending(sys, next, sid, HeartbeatWatchdog);
    } else if Flagged(sys.sched, sid) {
      PendingKept(sys, next, sid);
    }
  }

  lemma FlagStep(sys: System, step: Step)
    requires Enabled(sys, step) && Inv(sys)
    ensures FlagInv(Apply(sys, step))
  {
    forall sid | Flagged(Apply(sys, step).sched, sid) ensures WakeupPending(Apply(sys, step), sid) {
      match step
      case Pop(w) =>
        PopKeepsTokens(sys.bus, sys.workers, w);
        PopKeepsPending(sys, w, sid);
      case Handle(w) => HandleKeepsFlags(sys, w, sid);
      case Decide(_) => WorkerKeepsFlags(sys, step, sid);
      case PublishOwed(_) => WorkerKeepsFlags(sys, step, sid);
      case EndTurn(_) => WorkerKeepsFlags(sys, step, sid);
      case Beat(_) => WorkerKeepsFlags(sys, step, sid);
      case DebounceDecide(_) => DebounceKeepsFlags(sys, step, sid);
      case DebouncePublish(_) => DebounceKeepsFlags(sys, step, sid);
      case DebounceExit(_) => DebounceKeepsFlags(sys, step, sid);
      case Sweep(_) => WatchdogKeepsFlags(sys, step, sid);
      case WatchdogPublish => WatchdogKeepsFlags(sys, step, sid);
      case Publish(_) => PendingKept(sys, Apply(sys, step), sid);
      case Take(_) => PendingKept(sys, Apply(sys, step), sid);
      case Reschedule(_) => PendingKept(sys, Apply(sys, step), sid);
    }
  }

  // ---------- order and conservation ----------

  lemma PublishKeepsOrder(sys: System, e: RuntimeEvent, sid: SessionId)
    requires DispatchOrder(sys, sid)
    ensures DispatchOrder(AfterPublish(sys, e), sid)
  {
    var next := AfterPublish(sys, e);
    if sid == e.sessionId {
      assert Queue(next.bus, sid) == Queue(sys.bus, sid) + [e];
      assert At(next.published, sid) == At(sys.published, sid) + [e];
      assert At(sys.handled, sid) + (Queue(sys.bus, sid) + [e]) == (At(sys.handled, sid) + Queue(sys.bus, sid)) + [e];
      forall w | 0 <= w < |sys.workers| && sys.workers[w].Handling? && sys.workers[w].sid == sid
        ensures At(sys.handled, sid) + [sys.workers[w].event] + Queue(next.bus, sid) == At(next.published, sid)
      {
        SnocLast(At(sys.handled, sid) + [sys.workers[w].event], Queue(sys.bus, sid), e);
      }
    } else {
      assert Queue(next.bus, sid) == Queue(sys.bus, sid) && At(next.published, sid) == At(sys.published, sid);
    }
  }

  lemma SnocLast(front: seq<RuntimeEvent>, back: seq<RuntimeEvent>, e: RuntimeEvent)
    ensures front + (back + [e]) == (front + back) + [e]
  {
  }

  // A change of phase that neither starts nor ends the handling of an event.
  lemma PhaseKeepsOrder(sys: System, next: System, sid: SessionId)
    requires DispatchOrder(sys, sid)
    requires Queue(next.bus, sid) == Queue(sys.bus, sid) && next.handled == sys.handled && next.published == sys.published
    requires |next.workers| == |sys.workers|
    requires forall w :: 0 <= w < |sys.workers| && (sys.workers[w].Handling? || next.workers[w].Handling?) ==>
      next.workers[w] == sys.workers[w]
    ensures DispatchOrder(next, sid)
  {
  }

  lemma PopKeepsOrder(sys: System, w: nat, sid: SessionId)
    requires w < |sys.workers| && sys.workers[w].Holding?
    requires BusInv(sys.bus, sys.workers) && DispatchOrder(sys, sid)
    ensures DispatchOrder(AfterPop(sys, w), sid)
  {
    PopKeepsTokens(sys.bus, sys.workers, w);
    var next := AfterPop(sys, w);
    if sid == sys.workers[w].sid {
      assert Busy(sys.workers, w, sid);
      forall v | 0 <= v < |sys.workers| && v != w && !sys.workers[v].Idle? ensures sys.workers[v].sid != sid {
        assert Busy(sys.workers, v, sys.workers[v].sid);
      }
      var queue := Queue(sys.bus, sid);
      assert queue == [queue[0]] + queue[1..];
      assert next.workers[w] == Handling(sid, queue[0]) && Queue(next.bus, sid) == queue[1..];
      assert At(sys.handled, sid) + queue == At(sys.handled, sid) + [queue[0]] + queue[1..];
    } else {
      assert forall v :: 0 <= v < |sys.workers| && sys.workers[v].Handling? ==> next.workers[v] == sys.workers[v];
    }
  }

  lemma HandleKeepsOrder(sys: System, w: nat, sid: SessionId)
    requires w < |sys.workers| && sys.workers[w].Handling?
    requires BusInv(sys.bus, sys.workers) && DispatchOrder(sys, sid)
    ensures DispatchOrder(AfterHandle(sys, w), sid)
  {
    HandleShape(sys, w);
    var next := AfterHandle(sys, w);
    if sid == sys.workers[w].sid {
      assert Busy(sys.workers, w, sid);
      forall v | 0 <= v < |sys.workers| && v != w && !sys.workers[v].Idle? ensures sys.workers[v].sid != sid {
        assert Busy(sys.workers, v, sys.workers[v].sid);
      }
      assert forall v :: 0 <= v < |next.workers| && next.workers[v].Handling? ==> next.workers[v].sid != sid;
    } else {
      assert forall v :: 0 <= v < |sys.workers| && sys.workers[v].Handling? && sys.workers[v].sid == sid ==>
        next.workers[v] == sys.workers[v];
    }
  }

  lemma DispatchStep(sys: System, step: Step)
    requires Enabled(sys, step) && Inv(sys)
    ensures forall sid :: DispatchOrder(Apply(sys, step), sid)
  {
    var next := Apply(sys, step);
    forall sid ensures DispatchOrder(next, sid) {
      assert DispatchOrder(sys, sid);
      match step
      case Publish(e) => PublishKeepsOrder(sys, e, sid);
      case Pop(w) => PopKeepsOrder(sys, w, sid);
      case Handle(w) => HandleKeepsOrder(sys, w, sid);
      case PublishOwed(w) =>
        PublishKeepsOrder(sys, WakeupEvent(sys.workers[w].sid, sys.workers[w].source), sid);
        PhaseKeepsOrder(AfterPublish(sys, WakeupEvent(sys.workers[w].sid, sys.workers[w].source)), next, sid);
      case DebouncePublish(t) => PublishKeepsOrder(sys, WakeupEvent(sys.tasks[t].sid, DebounceTimer), sid);
      case WatchdogPublish => PublishKeepsOrder(sys, WakeupEvent(sys.watchdog[0], HeartbeatWatchdog), sid);
      case _ => PhaseKeepsOrder(sys, next, sid);
    }
  }

  lemma StoredMailbox(sc: Sched, e: RuntimeEvent, sid: SessionId)
    ensures Mailbox(Stored(sc, e), sid) == Mailbox(sc, sid) + if sid == e.sessionId then [ToEnvelope(e)] else []
  {
  }

  lemma StoringKeepsMail(sys: System, w: nat, sid: SessionId)
    requires w < |sys.workers| && sys.workers[w].Handling? && IsMailboxType(sys.workers[w].event.eventType)
    requires sys.workers[w].event.sessionId == sys.workers[w].sid && MailboxOrder(sys, sid)
    ensures MailboxOrder(AfterHandle(sys, w), sid)
  {
    var next, e := AfterHandle(sys, w), sys.workers[w].event;
    StoringShape(sys, w);
    StoredMailbox(sys.sched, e, sid);
    assert Mailbox(next.sched, sid) == Mailbox(Stored(sys.sched, e), sid);
    if sid == e.sessionId {
      MailboxEventsSnoc(At(sys.handled, sid), e);
      var consumed := Flatten(At(sys.batches, sid));
      assert consumed + (Mailbox(sys.sched, sid) + [ToEnvelope(e)]) == (consumed + Mailbox(sys.sched, sid)) + [ToEnvelope(e)];
    }
  }

  lemma WakingKeepsMail(sys: System, w: nat, sid: SessionId)
    requires w < |sys.workers| && sys.workers[w].Handling? && sys.workers[w].event.eventType == WakeupRequested
    requires sys.workers[w].event.sessionId == sys.workers[w].sid && MailboxOrder(sys, sid)
    requires !StateOf(sys.sched, sys.workers[w].sid).inflight
    ensures MailboxOrder(AfterHandle(sys, w), sid)
  {
    var next, e := AfterHandle(sys, w), sys.workers[w].event;
    var batch := TurnStarted(sys.sched, e.sessionId, e.source).1;
    StartedSched(sys.sched, e.sessionId, e.source);
    if sid == e.sessionId {
      MailboxEventsSnoc(At(sys.handled, sid), e);
      if batch.Some? {
        FlattenSnoc(At(sys.batches, sid), batch.value);
      }
    } else {
      assert sid in next.sched.states <==> sid in next.sched.states - {e.sessionId};
      assert sid in sys.sched.states <==> sid in sys.sched.states - {e.sessionId};
    }
  }

  lemma HandleKeepsMail(sys: System, w: nat, sid: SessionId)
    requires w < |sys.workers| && sys.workers[w].Handling?
    requires BusInv(sys.bus, sys.workers) && TurnInv(sys.sched, sys.workers) && MailboxOrder(sys, sid)
    ensures MailboxOrder(AfterHandle(sys, w), sid)
  {
    HandledNotInflight(sys, w);
    if IsMailboxType(sys.workers[w].event.eventType) {
      StoringKeepsMail(sys, w, sid);
    } else if sys.workers[w].event.eventType.WakeupRequested? {
      WakingKeepsMail(sys, w, sid);
    } else {
      MailboxEventsSnoc(At(sys.handled, sys.workers[w].sid), sys.workers[w].event);
    }
  }

  lemma MailboxStep(sys: System, step: Step)
    requires Enabled(sys, step) && Inv(sys)
    ensures forall sid :: MailboxOrder(Apply(sys, step), sid)
  {
    var next := Apply(sys, step);
    forall sid ensures MailboxOrder(next, sid) {
      assert MailboxOrder(sys, sid);
      match step
      case Handle(w) => HandleKeepsMail(sys, w, sid);
      case EndTurn(w) =>
        EndTurnRemoves(sys, w);
        assert Turning(sys.workers, w, sys.workers[w].sid);
      case _ => assert Mailbox(next.sched, sid) == Mailbox(sys.sched, sid);
    }
  }

  // ---------- every run ----------

  lemma TaskStep(sys: System, step: Step)
    requires Enabled(sys, step) && |sys.workers| >= 1 && forall t :: t in sys.tasks ==> t < sys.nextTask
    ensures |Apply(sys, step).workers| >= 1
    ensures forall t :: t in Apply(sys, step).tasks ==> t < Apply(sys, step).nextTask
  {
    if step.Handle? {
      HandleShape(sys, step.w);
    }
  }

  lemma StepKeepsInv(sys: System, step: Step)
    requires Enabled(sys, step) && Inv(sys)
    ensures Inv(Apply(sys, step))
  {
    TaskStep(sys, step);
    TokenStep(sys, step);
    TurnStep(sys, step);
    FlagStep(sys, step);
    DispatchStep(sys, step);
    MailboxStep(sys, step);
  }

  lemma {:induction false} RunKeepsInv(sys: System, steps: seq<Step>)
    requires IsRun(sys, steps) && Inv(sys)
    ensures Inv(RunFrom(sys, steps))
    decreases |steps|
  {
    if steps != [] {
      StepKeepsInv(sys, steps[0]);
      RunKeepsInv(Apply(sys, steps[0]), steps[1..]);
    }
  }

  lemma ReachableInv(sys: System)
    requires Reachable(sys)
    ensures Inv(sys)
  {
    var init, steps :| Init(init) && IsRun(init, steps) && RunFrom(init, steps) == sys;
    InitInv(init);
    RunKeepsInv(init, steps);
  }
}
