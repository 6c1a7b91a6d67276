// The session scheduler (fairyclaw/core/events/session_scheduler.py): the effect of each
// block run under state_lock on the mailboxes and the debounce table, and the classes that
// perform those blocks in place.
module Scheduler {
  import opened Wrappers
  import opened Events

  type TaskId = nat

  datatype SessionState = SessionState(inflight: bool, wakeupQueued: bool, mailbox: seq<Envelope>)

  const FreshState := SessionState(false, false, [])

  datatype Sched = Sched(states: map<SessionId, SessionState>, debounce: map<SessionId, TaskId>)

  const EmptySched := Sched(map[], map[])

  function StateOf(sc: Sched, sid: SessionId): SessionState {
    if sid in sc.states then sc.states[sid] else FreshState
  }

  function Mailbox(sc: Sched, sid: SessionId): seq<Envelope> {
    StateOf(sc, sid).mailbox
  }

  // get_or_create_state: what the beat task of a running turn does.
  function Ensured(sc: Sched, sid: SessionId): Sched {
    sc.(states := sc.states[sid := StateOf(sc, sid)])
  }

  function Stored(sc: Sched, e: RuntimeEvent): Sched {
    var state := StateOf(sc, e.sessionId);
    sc.(states := sc.states[e.sessionId := state.(mailbox := state.mailbox + [ToEnvelope(e)])])
  }

  predicate DebounceActive(sc: Sched, sid: SessionId, live: set<TaskId>) {
    sid in sc.debounce && sc.debounce[sid] in live
  }

  // _handle_user_message: live is the set of debounce tasks that are not done, and task is
  // the one created when the message starts a debounce.
  function UserMessageStored(sc: Sched, e: RuntimeEvent, live: set<TaskId>, task: TaskId): (Sched, bool) {
    var stored := Stored(sc, e);
    if ParsedTriggerTurn(e.triggerTurn) && !DebounceActive(sc, e.sessionId, live) then
      (stored.(debounce := stored.debounce[e.sessionId := task]), true)
    else
      (stored, false)
  }

  predicate CanQueueWakeup(sc: Sched, sid: SessionId) {
    && sid in sc.states
    && sc.states[sid].mailbox != []
    && HasTrigger(sc.states[sid].mailbox)
    && !sc.states[sid].inflight
    && !sc.states[sid].wakeupQueued
  }

  function WakeupFlagged(sc: Sched, sid: SessionId): Sched {
    if CanQueueWakeup(sc, sid) then
      sc.(states := sc.states[sid := sc.states[sid].(wakeupQueued := true)])
    else sc
  }

  predicate AllowsEmptyMailbox(source: Source) {
    source.OtherSource?
  }

  // The first locked block of run_session: the new state, and the consumed batch when a
  // turn starts.
  function TurnStarted(sc: Sched, sid: SessionId, source: Source): (Sched, Option<seq<Envelope>>) {
    if sid !in sc.states then (sc, None)
    else
      var state := sc.states[sid].(wakeupQueued := false);
      var cleared := sc.(states := sc.states[sid := state]);
      if state.inflight then (cleared, None)
      else if state.mailbox == [] && !AllowsEmptyMailbox(source) then (cleared, None)
      else if state.mailbox != [] && !HasTrigger(state.mailbox) then (cleared, None)
      else
        (sc.(states := sc.states[sid := SessionState(true, false, [])]), Some(state.mailbox))
  }

  // The last locked block of run_session: the new state, and whether it must requeue.
  function TurnFinished(sc: Sched, sid: SessionId): (Sched, bool) {
    if sid !in sc.states then (sc, false)
    else
      var state := sc.states[sid].(inflight := false);
      if state.mailbox != [] && HasTrigger(state.mailbox) then
        (sc.(states := sc.states[sid := state.(wakeupQueued := true)]), !state.wakeupQueued)
      else if state.mailbox == [] then
        (sc.(states := sc.states - {sid}), false)
      else
        (sc.(states := sc.states[sid := state]), false)
  }

  function DebounceFinished(sc: Sched, sid: SessionId, task: TaskId): Sched {
    if sid in sc.debounce && sc.debounce[sid] == task then sc.(debounce := sc.debounce - {sid}) else sc
  }

  // The watchdog sweep sets the flag of every session in SessionsToWake.
  function SessionsToWake(sc: Sched): set<SessionId> {
    set sid | sid in sc.states && CanQueueWakeup(sc, sid)
  }

  function Swept(sc: Sched): Sched {
    sc.(states := map sid | sid in sc.states ::
      if CanQueueWakeup(sc, sid) then sc.states[sid].(wakeupQueued := true) else sc.states[sid])
  }

  // The states after a sweep that has yet to visit the sessions in rest.
  ghost function PartlySwept(sc: Sched, rest: set<SessionId>): Sched {
    sc.(states := map sid | sid in sc.states ::
      if sid !in rest && CanQueueWakeup(sc, sid) then sc.states[sid].(wakeupQueued := true) else sc.states[sid])
  }

  lemma SweepOne(sc: Sched, rest: set<SessionId>, sid: SessionId)
    requires sid in rest && sid in sc.states
    ensures PartlySwept(sc, rest - {sid}) == WakeupFlagged(PartlySwept(sc, rest), sid)
    ensures CanQueueWakeup(PartlySwept(sc, rest), sid) == CanQueueWakeup(sc, sid)
  {
    assert PartlySwept(sc, rest - {sid}).states == WakeupFlagged(PartlySwept(sc, rest), sid).states;
  }

  ghost predicate Enumerates(order: seq<SessionId>, sids: set<SessionId>) {
    && (forall sid :: sid in order <==> sid in sids)
    && (forall i, j :: 0 <= i < j < |order| ==> order[i] != order[j])
  }

  class SessionRuntimeState {
    const sessionId: SessionId
    var inflight: bool
    var wakeupQueued: bool
    var mailbox: seq<Envelope>

    constructor (sid: SessionId)
      ensures sessionId == sid && View() == FreshState
    {
      sessionId := sid;
      inflight := false;
      wakeupQueued := false;
      mailbox := [];
    }

    function View(): SessionState
      reads this
    {
      SessionState(inflight, wakeupQueued, mailbox)
    }

    method EnqueueEvent(event: RuntimeEvent)
      modifies this`mailbox
      ensures mailbox == old(mailbox) + [ToEnvelope(event)]
    {
      mailbox := mailbox + [ToEnvelope(event)];
    }

    method ConsumeMailbox() returns (consumed: seq<Envelope>)
      modifies this`mailbox
      ensures consumed == old(mailbox) && mailbox == []
    {
      consumed := mailbox;
      mailbox := [];
    }

    predicate HasMailboxEvents()
      reads this
    {
      |mailbox| > 0
    }

    predicate HasTriggerableMailboxEvents()
      reads this
    {
      HasTrigger(mailbox)
    }
  }

  class RuntimeSessionScheduler {
    var sessionStates: map<SessionId, SessionRuntimeState>
    var debounceTasks: map<SessionId, TaskId>

    constructor ()
      ensures Valid() && View() == EmptySched
    {
      sessionStates := map[];
      debounceTasks := map[];
    }

    // Each state object is filed under its own id, so no two sessions share one.
    ghost predicate Valid()
      reads this, sessionStates.Values
    {
      forall sid :: sid in sessionStates ==> sessionStates[sid].sessionId == sid
    }

    ghost function View(): Sched
      reads this, sessionStates.Values
    {
      Sched(map sid | sid in sessionStates :: sessionStates[sid].View(), debounceTasks)
    }

    lemma ViewIs(states: map<SessionId, SessionState>)
      requires states.Keys == sessionStates.Keys
      requires forall sid :: sid in states ==> sessionStates[sid].View() == states[sid]
      ensures View() == Sched(states, debounceTasks)
    {
      assert View().states == states;
    }

    method GetOrCreateState(sid: SessionId) returns (state: SessionRuntimeState)
      requires Valid()
      modifies this`sessionStates
      ensures Valid() && View() == Ensured(old(View()), sid)
      ensures sid in sessionStates && state == sessionStates[sid]
      ensures forall s :: s in old(sessionStates) ==> s in sessionStates && sessionStates[s] == old(sessionStates)[s]
      ensures state in old(sessionStates).Values || fresh(state)
      ensures state.View() == StateOf(old(View()), sid)
      ensures sessionStates.Keys == old(sessionStates).Keys + {sid}
    {
      if sid in sessionStates {
        state := sessionStates[sid];
      } else {
        state := new SessionRuntimeState(sid);
        sessionStates := sessionStates[sid := state];
      }
    }

    method StoreEvent(event: RuntimeEvent)
      requires Valid()
      modifies this`sessionStates, sessionStates.Values
      ensures Valid()
      ensures View() == Stored(old(View()), event)
    {
      ghost var was := View();
      var state := GetOrCreateState(event.sessionId);
      assert state.View() == StateOf(was, event.sessionId);
      assert forall sid :: sid in was.states && sid != event.sessionId ==>
        sessionStates[sid].View() == was.states[sid] && sessionStates[sid] != state;
      state.EnqueueEvent(event);
      ViewIs(Stored(was, event).states);
    }

    method HandleUserMessage(event: RuntimeEvent, live: set<TaskId>, task: TaskId) returns (scheduled: bool)
      requires Valid()
      modifies this, sessionStates.Values
      ensures Valid()
      ensures View() == UserMessageStored(old(View()), event, live, task).0
      ensures scheduled == UserMessageStored(old(View()), event, live, task).1
    {
      StoreEvent(event);
      scheduled := ParsedTriggerTurn(event.triggerTurn)
        && !(event.sessionId in debounceTasks && debounceTasks[event.sessionId] in live);
      if scheduled {
        debounceTasks := debounceTasks[event.sessionId := task];
      }
    }

    method HandleSubtaskCompleted(event: RuntimeEvent, live: set<TaskId>) returns (hasActiveDebounce: bool)
      requires Valid()
      modifies this`sessionStates, sessionStates.Values
      ensures Valid()
      ensures View() == Stored(old(View()), event)
      ensures hasActiveDebounce == DebounceActive(old(View()), event.sessionId, live)
    {
      StoreEvent(event);
      hasActiveDebounce := event.sessionId in debounceTasks && debounceTasks[event.sessionId] in live;
    }

    method RequestWakeupIfNeeded(sid: SessionId) returns (shouldPublish: bool)
      requires Valid()
      modifies sessionStates.Values
      ensures Valid()
      ensures View() == WakeupFlagged(old(View()), sid)
      ensures shouldPublish == CanQueueWakeup(old(View()), sid)
    {
      if sid !in sessionStates {
        return false;
      }
      var state := sessionStates[sid];
      if !state.HasMailboxEvents() || !state.HasTriggerableMailboxEvents() {
        return false;
      }
      if state.inflight || state.wakeupQueued {
        return false;
      }
      state.wakeupQueued := true;
      shouldPublish := true;
    }

    method StartTurn(sid: SessionId, source: Source) returns (consumed: Option<seq<Envelope>>)
      requires Valid()
      modifies sessionStates.Values
      ensures Valid()
      ensures View() == TurnStarted(old(View()), sid, source).0
      ensures consumed == TurnStarted(old(View()), sid, source).1
    {
      if sid !in sessionStates {
        return None;
      }
      ghost var was := View();
      var state := sessionStates[sid];
      assert forall s :: s in sessionStates && s != sid ==> sessionStates[s] != state;
      state.wakeupQueued := false;
      ViewIs(was.states[sid := was.states[sid].(wakeupQueued := false)]);
      if state.inflight {
        return None;
      }
      if !state.HasMailboxEvents() && !source.OtherSource? {
        return None;
      }
      if state.HasMailboxEvents() && !state.HasTriggerableMailboxEvents() {
        return None;
      }
      state.inflight := true;
      if state.HasMailboxEvents() {
        var batch := state.ConsumeMailbox();
        consumed := Some(batch);
      } else {
        consumed := Some([]);
      }
      ViewIs(was.states[sid := SessionState(true, false, [])]);
    }

    method FinishTurn(sid: SessionId) returns (shouldRequeue: bool)
      requires Valid()
      modifies this, sessionStates.Values
      ensures Valid()
      ensures View() == TurnFinished(old(View()), sid).0
      ensures shouldRequeue == TurnFinished(old(View()), sid).1
    {
      shouldRequeue := false;
      if sid in sessionStates {
        ghost var was := View();
        var state := sessionStates[sid];
        state.inflight := false;
        if state.HasMailboxEvents() && state.HasTriggerableMailboxEvents() {
          shouldRequeue := !state.wakeupQueued;
          if shouldRequeue {
            state.wakeupQueued := true;
          }
        } else if !state.HasMailboxEvents() {
          sessionStates := sessionStates - {sid};
        }
        ViewIs(TurnFinished(was, sid).0.states);
      }
    }

    method FinishDebounce(sid: SessionId, task: TaskId)
      requires Valid()
      modifies this`debounceTasks
      ensures Valid() && View() == DebounceFinished(old(View()), sid, task)
    {
      if sid in debounceTasks && debounceTasks[sid] == task {
        debounceTasks := debounceTasks - {sid};
      }
    }

    // The locked block of heartbeat_watchdog; its loop applies the same four guards as
    // request_wakeup_if_needed.
    method SweepMailboxes() returns (sessionsToWakeup: seq<SessionId>)
      requires Valid()
      modifies sessionStates.Values
      ensures Valid()
      ensures View() == Swept(old(View()))
      ensures Enumerates(sessionsToWakeup, SessionsToWake(old(View())))
    {
      sessionsToWakeup := [];
      ghost var was := View();
      assert View().states == PartlySwept(was, sessionStates.Keys).states;
      var rest := sessionStates.Keys;
      while rest != {}
        invariant View() == PartlySwept(was, rest)
        invariant rest <= was.states.Keys
        invariant forall sid :: sid in sessionsToWakeup <==> sid in SessionsToWake(was) && sid !in rest
        invariant forall i, j :: 0 <= i < j < |sessionsToWakeup| ==> sessionsToWakeup[i] != sessionsToWakeup[j]
        decreases rest
      {
        var sid :| sid in rest;
        SweepOne(was, rest, sid);
        var flagged := RequestWakeupIfNeeded(sid);
        rest := rest - {sid};
        if flagged {
          sessionsToWakeup := sessionsToWakeup + [sid];
        }
      }
      assert PartlySwept(was, {}).states == Swept(was).states;
    }
  }
}
