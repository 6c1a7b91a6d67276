// What single blocks of the bus and the scheduler do: on any state, also on those the composed
// system never reaches, and when its workers, debounce tasks and watchdog ask for a wakeup.
module SchedulerOperations {
  import opened Wrappers
  import opened Events
  import opened EventBus
  import opened Scheduler
  import opened SchedulerSystem
  import opened SchedulerInvariant
  import opened SchedulerSafety
  import opened SchedulerTheorems

  // Some message in the mailbox asks for a turn.
  ghost predicate TurnAsked(mailbox: seq<Envelope>) {
    exists x :: x in mailbox && x.triggerTurn
  }

  lemma AskedHasTrigger(mailbox: seq<Envelope>)
    ensures TurnAsked(mailbox) <==> HasTrigger(mailbox)
  {
    if HasTrigger(mailbox) {
      var i :| 0 <= i < |mailbox| && mailbox[i].triggerTurn;
      assert mailbox[i] in mailbox;
    }
  }

  // ---------- one block, on any state ----------

  // Popping finds nothing exactly if nothing is queued, and then gives the token back.
  lemma PopFindsHead(b: Bus, sid: SessionId)
    ensures var (next, popped) := Popped(b, sid);
            && (popped.None? <==> Queue(b, sid) == [])
            && (popped.None? ==> sid !in next.scheduled && sid !in next.queues)
            && (popped.Some? ==> [popped.value] + Queue(next, sid) == Queue(b, sid) && next.scheduled == b.scheduled)
            && next.ready == b.ready
            && (forall s :: s != sid ==> Queue(next, s) == Queue(b, s) && (s in next.scheduled <==> s in b.scheduled))
  {
  }

  // Asking for a wakeup succeeds exactly if a message asks for a turn, none runs and none is on
  // its way; it sets the flag then, and changes nothing else.
  lemma WakeupAsked(sc: Sched, sid: SessionId)
    ensures var asks := TurnAsked(Mailbox(sc, sid)) && !StateOf(sc, sid).inflight && !StateOf(sc, sid).wakeupQueued;
            && (CanQueueWakeup(sc, sid) <==> asks)
            && StateOf(WakeupFlagged(sc, sid), sid)
               == StateOf(sc, sid).(wakeupQueued := StateOf(sc, sid).wakeupQueued || asks)
            && WakeupFlagged(sc, sid).states.Keys == sc.states.Keys && WakeupFlagged(sc, sid).debounce == sc.debounce
            && (forall s :: s != sid ==> StateOf(WakeupFlagged(sc, sid), s) == StateOf(sc, s))
  {
    AskedHasTrigger(Mailbox(sc, sid));
  }

  // A user message starts a debounce task exactly if it asks for a turn and no task that still
  // runs is registered; a task that is done is replaced.
  lemma MessageStartsTask(sc: Sched, e: RuntimeEvent, live: set<TaskId>, task: TaskId)
    requires e.eventType == UserMessageReceived
    ensures var (next, scheduled) := UserMessageStored(sc, e, live, task);
            var sid := e.sessionId;
            && (scheduled <==> ToEnvelope(e).triggerTurn && (sid in sc.debounce ==> sc.debounce[sid] !in live))
            && next.debounce == (if scheduled then sc.debounce[sid := task] else sc.debounce)
            && Mailbox(next, sid) == Mailbox(sc, sid) + [ToEnvelope(e)]
            && (forall s :: s != sid ==> StateOf(next, s) == StateOf(sc, s))
  {
  }

  // A task takes back its own registration and no other.
  lemma TaskTakesOwn(sc: Sched, sid: SessionId, task: TaskId)
    ensures var next := DebounceFinished(sc, sid, task);
            && next.states == sc.states
            && (forall s :: s in next.debounce <==> s in sc.debounce && !(s == sid && sc.debounce[s] == task))
            && (forall s :: s in next.debounce ==> next.debounce[s] == sc.debounce[s])
  {
  }

  // The four sources of the runtime's own wakeups.
  predicate Internal(source: Source) {
    source in {EventBusSource, HeartbeatWatchdog, DebounceTimer, SubtaskSource}
  }

  // A wakeup clears the flag. It starts a turn exactly if none runs and a message asks for one, or
  // the mailbox is empty and someone else sent it; otherwise the mailbox stays as it is.
  lemma TurnStartsIff(sc: Sched, sid: SessionId, source: Source)
    ensures var (next, batch) := TurnStarted(sc, sid, source);
            var mail := Mailbox(sc, sid);
            && (batch.Some? <==> sid in sc.states && !StateOf(sc, sid).inflight
                                 && (TurnAsked(mail) || (mail == [] && !Internal(source))))
            && StateOf(next, sid) == (if batch.Some? then SessionState(true, false, [])
                                      else StateOf(sc, sid).(wakeupQueued := false))
            && (batch.Some? ==> batch.value == mail)
            && next.states.Keys == sc.states.Keys && next.debounce == sc.debounce
            && (forall s :: s != sid ==> StateOf(next, s) == StateOf(sc, s))
  {
    AskedHasTrigger(Mailbox(sc, sid));
  }

  // The end of a turn takes a session out of the map exactly if its mailbox is empty, keeps every
  // message otherwise, and queues a wakeup exactly if one asks for a turn and none is on its way.
  lemma TurnEnds(sc: Sched, sid: SessionId)
    requires sid in sc.states
    ensures var (next, requeue) := TurnFinished(sc, sid);
            var asked := TurnAsked(Mailbox(sc, sid));
            && (sid in next.states <==> Mailbox(sc, sid) != [])
            && Mailbox(next, sid) == Mailbox(sc, sid) && !StateOf(next, sid).inflight
            && (requeue <==> asked && !StateOf(sc, sid).wakeupQueued)
            && (sid in next.states ==> (StateOf(next, sid).wakeupQueued <==> asked || StateOf(sc, sid).wakeupQueued))
            && next.debounce == sc.debounce
            && (forall s :: s != sid ==> StateOf(next, s) == StateOf(sc, s))
  {
    AskedHasTrigger(Mailbox(sc, sid));
  }

  // ---------- who asks for a wakeup ----------

  // A message of the session asks for a turn, no worker runs one, and the flag is clear.
  ghost predicate WakeupDue(sys: System, sid: SessionId) {
    && TurnAsked(Mailbox(sys.sched, sid)) && !StateOf(sys.sched, sid).wakeupQueued
    && forall w :: 0 <= w < |sys.workers| ==> sys.workers[w] != InTurn(sid)
  }

  lemma DueIsAsked(sys: System, sid: SessionId)
    requires Reachable(sys)
    ensures WakeupDue(sys, sid) <==> CanQueueWakeup(sys.sched, sid)
  {
    InflightMeansTurn(sys, sid);
    WakeupAsked(sys.sched, sid);
  }

  // A worker that stored a subtask publishes a wakeup exactly if one is due.
  lemma SubtaskDecides(sys: System, w: nat)
    requires Reachable(sys) && Enabled(sys, Decide(w))
    ensures var sid, next := sys.workers[w].sid, Apply(sys, Decide(w));
            && next.workers[w] == (if WakeupDue(sys, sid) then Owing(sid, SubtaskSource) else Finished(sid))
            && (StateOf(next.sched, sid).wakeupQueued <==> StateOf(sys.sched, sid).wakeupQueued || WakeupDue(sys, sid))
  {
    DueIsAsked(sys, sys.workers[w].sid);
    WakeupAsked(sys.sched, sys.workers[w].sid);
  }

  // So does a debounce task that has slept.
  lemma DebounceDecides(sys: System, t: TaskId)
    requires Reachable(sys) && Enabled(sys, DebounceDecide(t))
    ensures var sid, next := sys.tasks[t].sid, Apply(sys, DebounceDecide(t));
            && t in next.tasks && next.tasks[t] == Debounce(sid, if WakeupDue(sys, sid) then OwingWakeup else Exiting)
            && (StateOf(next.sched, sid).wakeupQueued <==> StateOf(sys.sched, sid).wakeupQueued || WakeupDue(sys, sid))
  {
    DueIsAsked(sys, sys.tasks[t].sid);
    WakeupAsked(sys.sched, sys.tasks[t].sid);
  }

  // A sweep picks exactly the sessions for which one is due, each once, and flags no other.
  lemma SweepDecides(sys: System, order: seq<SessionId>, sid: SessionId)
    requires Reachable(sys) && Enabled(sys, Sweep(order))
    ensures var next := Apply(sys, Sweep(order));
            && (sid in next.watchdog <==> WakeupDue(sys, sid)) && multiset(next.watchdog)[sid] <= 1
            && StateOf(next.sched, sid)
               == StateOf(sys.sched, sid).(wakeupQueued := StateOf(sys.sched, sid).wakeupQueued || WakeupDue(sys, sid))
  {
    DueIsAsked(sys, sid);
    WakeupAsked(sys.sched, sid);
    DistinctCount(order, sid);
  }

  predicate Owes(step: Step) {
    step.PublishOwed? || step.DebouncePublish? || step.WatchdogPublish?
  }

  // Who publishes a wakeup next, and under which source.
  ghost function Publisher(sys: System, step: Step): (SessionId, Source)
    requires Enabled(sys, step) && Owes(step)
  {
    if step.PublishOwed? then (sys.workers[step.w].sid, SubtaskSource)
    else if step.DebouncePublish? then (sys.tasks[step.t].sid, DebounceTimer)
    else (sys.watchdog[0], HeartbeatWatchdog)
  }

  // A worker owes a wakeup for a subtask only: no turn ends with a requeue.
  ghost predicate OwingInv(sys: System) {
    forall w :: 0 <= w < |sys.workers| && sys.workers[w].Owing? ==> sys.workers[w].source == SubtaskSource
  }

  lemma EndTurnOwesNothing(sys: System, w: nat)
    requires Enabled(sys, EndTurn(w)) && TurnInv(sys.sched, sys.workers) && OwingInv(sys)
    ensures OwingInv(Apply(sys, EndTurn(w)))
  {
    EndTurnRemoves(sys, w);
  }

  lemma HandleOwesNothing(sys: System, w: nat)
    requires Enabled(sys, Handle(w)) && OwingInv(sys)
    ensures OwingInv(AfterHandle(sys, w))
  {
    var next := AfterHandle(sys, w);
    assert |next.workers| == |sys.workers| && !next.workers[w].Owing?;
    assert forall v :: 0 <= v < |sys.workers| && v != w ==> next.workers[v] == sys.workers[v];
  }

  lemma OwingStep(sys: System, step: Step)
    requires Enabled(sys, step) && Inv(sys) && OwingInv(sys)
    ensures OwingInv(Apply(sys, step))
  {
    if step.EndTurn? {
      EndTurnOwesNothing(sys, step.w);
    } else if step.Handle? {
      HandleOwesNothing(sys, step.w);
    }
  }

  lemma {:induction false} RunKeepsOwing(sys: System, steps: seq<Step>, last: System)
    requires IsRun(sys, steps) && Inv(sys) && OwingInv(sys) && last == RunFrom(sys, steps)
    ensures OwingInv(last)
    decreases |steps|
  {
    if steps != [] {
      StepKeepsInv(sys, steps[0]);
      OwingStep(sys, steps[0]);
      RunKeepsOwing(Apply(sys, steps[0]), steps[1..], last);
    }
  }

  // What they publish is a wakeup of the session under its publisher's own internal source, so it
  // starts no turn on an empty mailbox.
  lemma OwnWakeups(sys: System, step: Step)
    requires Reachable(sys) && Enabled(sys, step) && Owes(step)
    ensures var (sid, source) := Publisher(sys, step);
            var queue := Queue(Apply(sys, step).bus, sid);
            && queue != [] && queue[..|queue| - 1] == Queue(sys.bus, sid)
            && queue[|queue| - 1].eventType == WakeupRequested && queue[|queue| - 1].source == source
            && queue[|queue| - 1].sessionId == sid && Internal(queue[|queue| - 1].source)
  {
    var init, steps :| Init(init) && IsRun(init, steps) && RunFrom(init, steps) == sys;
    InitInv(init);
    RunKeepsOwing(init, steps, sys);
  }
}
