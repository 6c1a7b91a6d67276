// Progress: under weak fairness every published trigger is eventually consumed by a turn.
// A behaviour is an infinite run; the proofs exhibit the later moment at which the progress
// has happened, with explicit decreasing measures.
module SchedulerLiveness {
  import opened Wrappers
  import opened Events
  import opened EventBus
  import opened Scheduler
  import opened SchedulerSystem
  import opened SchedulerInvariant
  import opened SchedulerSafety

  ghost predicate StepAt(b: nat -> System, st: nat -> Step, i: nat) {
    Enabled(b(i), st(i)) && b(i + 1) == Apply(b(i), st(i))
  }

  ghost predicate IsBehavior(b: nat -> System, st: nat -> Step) {
    Init(b(0)) && forall i: nat :: StepAt(b, st, i)
  }

  // ---------- fairness ----------

  // The one step that worker w can take next; the heartbeat of a turn is not progress.
  predicate WorkerStep(step: Step, w: nat) {
    step in {Take(w), Pop(w), Handle(w), Decide(w), PublishOwed(w), EndTurn(w), Reschedule(w)}
  }

  predicate WorkerReady(sys: System, w: nat) {
    w < |sys.workers| && (sys.workers[w].Idle? ==> sys.bus.ready != [])
  }

  predicate WorkerServed(b: nat -> System, st: nat -> Step, w: nat, j: nat) {
    WorkerStep(st(j), w) || !WorkerReady(b(j), w)
  }

  predicate TaskServed(b: nat -> System, st: nat -> Step, t: TaskId, j: nat) {
    st(j) in {DebounceDecide(t), DebouncePublish(t), DebounceExit(t)} || t !in b(j).tasks
  }

  predicate WatchdogServed(st: nat -> Step, j: nat) {
    st(j).Sweep? || st(j).WatchdogPublish?
  }

  ghost predicate WorkerServedFrom(b: nat -> System, st: nat -> Step, w: nat, i: nat) {
    exists j: nat :: i <= j && WorkerServed(b, st, w, j)
  }

  ghost predicate TaskServedFrom(b: nat -> System, st: nat -> Step, t: TaskId, i: nat) {
    exists j: nat :: i <= j && TaskServed(b, st, t, j)
  }

  ghost predicate WatchdogServedFrom(st: nat -> Step, i: nat) {
    exists j: nat :: i <= j && WatchdogServed(st, j)
  }

  // Weak fairness: a worker, a debounce task and the watchdog are never held up for ever
  // while they can move. In particular every turn ends and every sleep is over some time.
  ghost predicate Fair(b: nat -> System, st: nat -> Step) {
    && (forall w: nat, i: nat :: WorkerServedFrom(b, st, w, i))
    && (forall t: TaskId, i: nat :: TaskServedFrom(b, st, t, i))
    && (forall i: nat :: WatchdogServedFrom(st, i))
  }

  // ---------- what single steps do ----------

  lemma {:induction false} InvAt(b: nat -> System, st: nat -> Step, i: nat)
    requires IsBehavior(b, st)
    ensures Inv(b(i)) && |b(i).workers| == |b(0).workers|
  {
    if i == 0 {
      InitInv(b(0));
    } else {
      InvAt(b, st, i - 1);
      assert StepAt(b, st, i - 1);
      StepKeepsInv(b(i - 1), st(i - 1));
      WorkersKept(b(i - 1), st(i - 1));
    }
  }

  // Only its own step moves a worker.
  lemma WorkersKept(sys: System, step: Step)
    requires Enabled(sys, step)
    ensures |Apply(sys, step).workers| == |sys.workers|
    ensures forall w: nat :: w < |sys.workers| && !WorkerStep(step, w) ==> Apply(sys, step).workers[w] == sys.workers[w]
  {
    if step.Handle? {
      HandleShape(sys, step.w);
    }
  }

  function Consumed(sys: System, sid: SessionId): seq<Envelope> {
    Flatten(At(sys.batches, sid))
  }

  lemma HandledGrows(sys: System, step: Step, sid: SessionId)
    requires Enabled(sys, step)
    ensures At(sys.published, sid) <= At(Apply(sys, step).published, sid)
    ensures At(Apply(sys, step).handled, sid) == At(sys.handled, sid) +
      if step.Handle? && sys.workers[step.w].sid == sid then [sys.workers[step.w].event] else []
  {
    if step.Handle? {
      HandleShape(sys, step.w);
    }
  }

  lemma WakeupBatches(sys: System, w: nat)
    requires w < |sys.workers| && sys.workers[w].Handling? && sys.workers[w].event.eventType.WakeupRequested?
    ensures var e := sys.workers[w].event;
            var batch := TurnStarted(sys.sched, e.sessionId, e.source).1;
            AfterHandle(sys, w).batches ==
              if batch.Some? then Recorded(sys.batches, e.sessionId, batch.value) else sys.batches
  {
  }

  lemma OtherBatches(sys: System, step: Step)
    requires Enabled(sys, step) && !(step.Handle? && sys.workers[step.w].event.eventType.WakeupRequested?)
    ensures Apply(sys, step).batches == sys.batches
  {
  }

  lemma BatchesGrow(sys: System, step: Step, sid: SessionId)
    requires Enabled(sys, step)
    ensures Consumed(sys, sid) <= Consumed(Apply(sys, step), sid)
  {
    if step.Handle? && sys.workers[step.w].event.eventType.WakeupRequested? {
      var e := sys.workers[step.w].event;
      var batch := TurnStarted(sys.sched, e.sessionId, e.source).1;
      WakeupBatches(sys, step.w);
      if batch.Some? {
        FlattenSnoc(At(sys.batches, e.sessionId), batch.value);
      }
    } else {
      OtherBatches(sys, step);
    }
  }

  lemma {:induction false} Grows(b: nat -> System, st: nat -> Step, i: nat, j: nat, sid: SessionId)
    requires IsBehavior(b, st) && i <= j
    ensures At(b(i).handled, sid) <= At(b(j).handled, sid)
    ensures At(b(i).published, sid) <= At(b(j).published, sid)
    ensures Consumed(b(i), sid) <= Consumed(b(j), sid)
    decreases j - i
  {
    if i < j {
      assert StepAt(b, st, i);
      HandledGrows(b(i), st(i), sid);
      BatchesGrow(b(i), st(i), sid);
      Grows(b, st, i + 1, j, sid);
    }
  }

  // ---------- a session's queue moves ----------

  // How many of its own steps a worker is at most away from waiting for a token.
  function Rank(worker: Worker): nat {
    match worker
    case Idle => 0
    case Finished(_) => 1
    case Owing(_, _) => 2
    case Deciding(_) => 3
    case InTurn(_) => 3
    case Handling(_, _) => 4
    case Holding(_) => 5
  }

  lemma RankDrops(sys: System, step: Step, w: nat)
    requires Enabled(sys, step) && WorkerStep(step, w) && !step.Take?
    ensures Rank(Apply(sys, step).workers[w]) < Rank(sys.workers[w])
  {
    if step.Handle? {
      HandleShape(sys, w);
    }
  }

  // The next step of a busy worker; it stays in its phase until then.
  lemma {:induction false} WalkToMove(b: nat -> System, st: nat -> Step, i: nat, w: nat, k: nat) returns (j: nat)
    requires IsBehavior(b, st) && i <= k && WorkerServed(b, st, w, k)
    requires w < |b(i).workers| && !b(i).workers[w].Idle?
    ensures i <= j && WorkerStep(st(j), w)
    ensures w < |b(j).workers| && b(j).workers[w] == b(i).workers[w]
    decreases k - i
  {
    if WorkerStep(st(i), w) {
      return i;
    }
    assert StepAt(b, st, i);
    WorkersKept(b(i), st(i));
    j := WalkToMove(b, st, i + 1, w, k);
  }

  lemma NextMove(b: nat -> System, st: nat -> Step, i: nat, w: nat) returns (j: nat)
    requires IsBehavior(b, st) && Fair(b, st)
    requires w < |b(i).workers| && !b(i).workers[w].Idle?
    ensures i <= j && WorkerStep(st(j), w)
    ensures w < |b(j).workers| && b(j).workers[w] == b(i).workers[w]
  {
    assert WorkerServedFrom(b, st, w, i);
    var k: nat :| i <= k && WorkerServed(b, st, w, k);
    j := WalkToMove(b, st, i, w, k);
  }

  // What the next step of such a worker does.
  lemma UnhandledMoves(sys: System, step: Step, w: nat)
    requires Enabled(sys, step) && Inv(sys) && WorkerStep(step, w) && Rank(sys.workers[w]) >= 4
    ensures var next, sid := Apply(sys, step), sys.workers[w].sid;
            if sys.workers[w].Handling? then |At(next.handled, sid)| > |At(sys.handled, sid)|
            else next.workers[w].Handling? && next.workers[w].sid == sid && next.handled == sys.handled
  {
    HandledGrows(sys, step, sys.workers[w].sid);
    if sys.workers[w].Holding? {
      PopKeepsTokens(sys.bus, sys.workers, w);
    }
  }

  // A worker that has the token and not yet handled an event of sid handles one.
  lemma {:induction false} HeldBefore(b: nat -> System, st: nat -> Step, i: nat, sid: SessionId, w: nat) returns (j: nat)
    requires IsBehavior(b, st) && Fair(b, st)
    requires w < |b(i).workers| && Rank(b(i).workers[w]) >= 4 && b(i).workers[w].sid == sid
    ensures i < j && |At(b(j).handled, sid)| > |At(b(i).handled, sid)|
    decreases Rank(b(i).workers[w])
  {
    var m := NextMove(b, st, i, w);
    assert StepAt(b, st, m);
    Grows(b, st, i, m, sid);
    InvAt(b, st, m);
    UnhandledMoves(b(m), st(m), w);
    if b(m).workers[w].Handling? {
      j := m + 1;
    } else {
      j := HeldBefore(b, st, m + 1, sid, w);
    }
  }

  // A take hands the first token to its worker; every other step leaves the tokens in place.
  lemma ReadyMoves(sys: System, step: Step)
    requires Enabled(sys, step)
    ensures var next := Apply(sys, step);
            if step.Take? then sys.bus.ready != [] && next.bus.ready == sys.bus.ready[1..]
                               && step.w < |next.workers| && next.workers[step.w] == Holding(sys.bus.ready[0])
            else sys.bus.ready <= next.bus.ready
  {
    if step.Handle? {
      HandleShape(sys, step.w);
    }
  }

  lemma NextServed(b: nat -> System, st: nat -> Step, i: nat) returns (d: nat)
    requires Fair(b, st)
    ensures i <= d && WorkerServed(b, st, 0, d)
  {
    assert WorkerServedFrom(b, st, 0, i);
    d :| i <= d && WorkerServed(b, st, 0, d);
  }

  // A token at position k of the ready queue is taken: worker 0 frees itself again and again,
  // and every take, by whichever worker, moves the token one place forward.
  lemma {:induction false} InReady(b: nat -> System, st: nat -> Step, i: nat, sid: SessionId, k: nat, d: nat) returns (j: nat)
    requires IsBehavior(b, st) && Fair(b, st)
    requires k < |b(i).bus.ready| && b(i).bus.ready[k] == sid
    requires |b(i).workers| >= 1 && i <= d && WorkerServed(b, st, 0, d)
    ensures i < j && |At(b(j).handled, sid)| > |At(b(i).handled, sid)|
    decreases k, Rank(b(i).workers[0]), d - i
  {
    assert StepAt(b, st, i);
    WorkersKept(b(i), st(i));
    HandledGrows(b(i), st(i), sid);
    ReadyMoves(b(i), st(i));
    if st(i).Take? {
      if k == 0 {
        j := HeldBefore(b, st, i + 1, sid, st(i).w);
      } else {
        var d' := NextServed(b, st, i + 1);
        j := InReady(b, st, i + 1, sid, k - 1, d');
      }
    } else if WorkerStep(st(i), 0) {
      RankDrops(b(i), st(i), 0);
      var d' := NextServed(b, st, i + 1);
      j := InReady(b, st, i + 1, sid, k, d');
    } else {
      j := InReady(b, st, i + 1, sid, k, d);
    }
  }

  lemma FromReady(b: nat -> System, st: nat -> Step, i: nat, sid: SessionId) returns (j: nat)
    requires IsBehavior(b, st) && Fair(b, st) && sid in b(i).bus.ready
    ensures i < j && |At(b(j).handled, sid)| > |At(b(i).handled, sid)|
  {
    InvAt(b, st, i);
    var k: nat :| k < |b(i).bus.ready| && b(i).bus.ready[k] == sid;
    assert WorkerServedFrom(b, st, 0, i);
    var d: nat :| i <= d && WorkerServed(b, st, 0, d);
    j := InReady(b, st, i, sid, k, d);
  }

  // The next step of a worker past the handling of its event, in a session with more events:
  // it moves on, or gives the token back to the ready queue.
  lemma HandledMoves(sys: System, step: Step, w: nat)
    requires Enabled(sys, step) && Inv(sys) && WorkerStep(step, w) && w < |sys.workers| && 1 <= Rank(sys.workers[w]) <= 3
    requires |At(sys.handled, sys.workers[w].sid)| < |At(sys.published, sys.workers[w].sid)|
    ensures var next, sid := Apply(sys, step), sys.workers[w].sid;
            && w < |next.workers| && Rank(next.workers[w]) < Rank(sys.workers[w])
            && if step.Reschedule? then sid in next.bus.ready
               else Rank(next.workers[w]) >= 1 && next.workers[w].sid == sid
  {
    RankDrops(sys, step, w);
    if step.Reschedule? {
      NobodyHandles(sys, w);
      assert Apply(sys, step).bus.ready == sys.bus.ready + [sys.workers[w].sid];
    }
  }

  lemma HandledMovesAt(b: nat -> System, st: nat -> Step, m: nat, w: nat)
    requires IsBehavior(b, st) && WorkerStep(st(m), w) && w < |b(m).workers| && 1 <= Rank(b(m).workers[w]) <= 3
    requires |At(b(m + 1).handled, b(m).workers[w].sid)| < |At(b(m).published, b(m).workers[w].sid)|
    ensures var sid := b(m).workers[w].sid;
            && w < |b(m + 1).workers| && Rank(b(m + 1).workers[w]) < Rank(b(m).workers[w])
            && if st(m).Reschedule? then sid in b(m + 1).bus.ready
               else Rank(b(m + 1).workers[w]) >= 1 && b(m + 1).workers[w].sid == sid
  {
    assert StepAt(b, st, m);
    HandledGrows(b(m), st(m), b(m).workers[w].sid);
    InvAt(b, st, m);
    HandledMoves(b(m), st(m), w);
  }

  // A worker past the handling of its event gives the token back, and the queue is not empty.
  lemma {:induction false} HeldAfter(b: nat -> System, st: nat -> Step, i: nat, sid: SessionId, w: nat) returns (j: nat)
    requires IsBehavior(b, st) && Fair(b, st)
    requires w < |b(i).workers| && 1 <= Rank(b(i).workers[w]) <= 3 && b(i).workers[w].sid == sid
    requires |At(b(i).handled, sid)| < |At(b(i).published, sid)|
    ensures i < j && |At(b(j).handled, sid)| > |At(b(i).handled, sid)|
    decreases Rank(b(i).workers[w])
  {
    var m := NextMove(b, st, i, w);
    assert StepAt(b, st, m);
    Grows(b, st, i, m, sid);
    Grows(b, st, i, m + 1, sid);
    if |At(b(m + 1).handled, sid)| > |At(b(i).handled, sid)| {
      return m + 1;
    }
    HandledMovesAt(b, st, m, w);
    if st(m).Reschedule? {
      j := FromReady(b, st, m + 1, sid);
    } else {
      j := HeldAfter(b, st, m + 1, sid, w);
    }
  }

  // While its holder is past handling, what is unhandled of a session is its queue.
  lemma NobodyHandles(sys: System, w: nat)
    requires Inv(sys) && w < |sys.workers| && 1 <= Rank(sys.workers[w]) <= 3
    ensures var sid := sys.workers[w].sid; At(sys.handled, sid) + Queue(sys.bus, sid) == At(sys.published, sid)
  {
    var sid := sys.workers[w].sid;
    assert Busy(sys.workers, w, sid) && DispatchOrder(sys, sid);
    forall v | 0 <= v < |sys.workers| && sys.workers[v].Handling? ensures sys.workers[v].sid != sid {
      assert Busy(sys.workers, v, sys.workers[v].sid);
    }
  }

  // A session with an unhandled event has its next event handled.
  lemma NextHandled(b: nat -> System, st: nat -> Step, i: nat, sid: SessionId) returns (j: nat)
    requires IsBehavior(b, st) && Fair(b, st)
    requires |At(b(i).handled, sid)| < |At(b(i).published, sid)|
    ensures i < j && |At(b(j).handled, sid)| > |At(b(i).handled, sid)|
  {
    InvAt(b, st, i);
    assert DispatchOrder(b(i), sid);
    if w: nat :| w < |b(i).workers| && !b(i).workers[w].Idle? && b(i).workers[w].sid == sid {
      if Rank(b(i).workers[w]) >= 4 {
        j := HeldBefore(b, st, i, sid, w);
      } else {
        j := HeldAfter(b, st, i, sid, w);
      }
    } else {
      assert !Held(b(i).workers, sid);
      j := FromReady(b, st, i, sid);
    }
  }

  // Every published event is handled.
  lemma {:induction false} EventuallyHandled(b: nat -> System, st: nat -> Step, i: nat, sid: SessionId, n: nat) returns (j: nat)
    requires IsBehavior(b, st) && Fair(b, st) && n <= |At(b(i).published, sid)|
    ensures i <= j && |At(b(j).handled, sid)| >= n
    decreases n - |At(b(i).handled, sid)|
  {
    if |At(b(i).handled, sid)| >= n {
      return i;
    }
    var m := NextHandled(b, st, i, sid);
    Grows(b, st, i, m, sid);
    j := EventuallyHandled(b, st, m, sid, n);
  }

  // ---------- a waiting trigger is consumed ----------

  // The event at position n of the session's consumption order is in the mailbox and triggers.
  ghost predicate Waits(sys: System, sid: SessionId, n: nat) {
    && |Consumed(sys, sid)| <= n < |Consumed(sys, sid)| + |Mailbox(sys.sched, sid)|
    && Mailbox(sys.sched, sid)[n - |Consumed(sys, sid)|].triggerTurn
  }

  lemma WaitingStored(sys: System, w: nat, sid: SessionId, n: nat)
    requires w < |sys.workers| && sys.workers[w].Handling? && IsMailboxType(sys.workers[w].event.eventType)
    requires Waits(sys, sid, n)
    ensures Waits(AfterHandle(sys, w), sid, n)
  {
    StoringShape(sys, w);
    assert Mailbox(sys.sched, sid) <= Mailbox(Stored(sys.sched, sys.workers[w].event), sid);
  }

  lemma WaitingWakeup(sys: System, w: nat, sid: SessionId, n: nat)
    requires w < |sys.workers| && sys.workers[w].Handling? && sys.workers[w].event.eventType.WakeupRequested?
    requires !StateOf(sys.sched, sys.workers[w].event.sessionId).inflight && Waits(sys, sid, n)
    ensures if sid == sys.workers[w].event.sessionId then n < |Consumed(AfterHandle(sys, w), sid)|
            else Waits(AfterHandle(sys, w), sid, n)
  {
    var e, next := sys.workers[w].event, AfterHandle(sys, w);
    StartedSched(sys.sched, e.sessionId, e.source);
    var batch := TurnStarted(sys.sched, e.sessionId, e.source).1;
    assert next.sched.states == TurnStarted(sys.sched, e.sessionId, e.source).0.states;
    if sid == e.sessionId {
      assert batch.Some?;
      FlattenSnoc(At(sys.batches, sid), batch.value);
    } else {
      assert sid in next.sched.states <==> sid in next.sched.states - {e.sessionId};
      assert sid in sys.sched.states <==> sid in sys.sched.states - {e.sessionId};
      assert Mailbox(next.sched, sid) == Mailbox(sys.sched, sid);
    }
  }

  lemma WaitingHandle(sys: System, w: nat, sid: SessionId, n: nat)
    requires Inv(sys) && w < |sys.workers| && sys.workers[w].Handling? && Waits(sys, sid, n)
    ensures n < |Consumed(AfterHandle(sys, w), sid)| || Waits(AfterHandle(sys, w), sid, n)
    ensures sys.workers[w].sid == sid && sys.workers[w].event.eventType.WakeupRequested? ==>
              n < |Consumed(AfterHandle(sys, w), sid)|
  {
    HandledNotInflight(sys, w);
    if IsMailboxType(sys.workers[w].event.eventType) {
      WaitingStored(sys, w, sid, n);
    } else if sys.workers[w].event.eventType.WakeupRequested? {
      WaitingWakeup(sys, w, sid, n);
    }
  }

  lemma WaitingEndTurn(sys: System, w: nat, sid: SessionId, n: nat)
    requires TurnInv(sys.sched, sys.workers) && w < |sys.workers| && sys.workers[w].InTurn? && Waits(sys, sid, n)
    ensures Waits(AfterTurn(sys, w), sid, n)
  {
    assert Turning(sys.workers, w, sys.workers[w].sid);
    EndTurnRemoves(sys, w);
  }

  // The other steps leave mailboxes and batches alone.
  lemma WaitingOther(sys: System, step: Step, sid: SessionId)
    requires Enabled(sys, step) && !step.Handle? && !step.EndTurn?
    ensures Mailbox(Apply(sys, step).sched, sid) == Mailbox(sys.sched, sid)
    ensures Apply(sys, step).batches == sys.batches
  {
  }

  lemma WaitingStep(sys: System, step: Step, sid: SessionId, n: nat)
    requires Enabled(sys, step) && Inv(sys) && Waits(sys, sid, n)
    ensures n < |Consumed(Apply(sys, step), sid)| || Waits(Apply(sys, step), sid, n)
  {
    if step.Handle? {
      WaitingHandle(sys, step.w, sid, n);
    } else if step.EndTurn? {
      WaitingEndTurn(sys, step.w, sid, n);
    } else {
      WaitingOther(sys, step, sid);
    }
  }

  lemma {:induction false} WaitsUntil(b: nat -> System, st: nat -> Step, i: nat, j: nat, sid: SessionId, n: nat)
    requires IsBehavior(b, st) && i <= j && Waits(b(i), sid, n)
    ensures n < |Consumed(b(j), sid)| || Waits(b(j), sid, n)
    decreases j - i
  {
    if i < j {
      InvAt(b, st, i);
      assert StepAt(b, st, i);
      WaitingStep(b(i), st(i), sid, n);
      if n < |Consumed(b(i + 1), sid)| {
        Grows(b, st, i + 1, j, sid);
      } else {
        WaitsUntil(b, st, i + 1, j, sid, n);
      }
    }
  }

  // A step short of the published wakeup at position p keeps waiting; the step that handles
  // it consumes the mailbox.
  lemma StepToWakeup(sys: System, step: Step, sid: SessionId, n: nat, p: nat)
    requires Enabled(sys, step) && Inv(sys) && Waits(sys, sid, n)
    requires |At(sys.handled, sid)| <= p < |At(sys.published, sid)|
    requires At(sys.published, sid)[p].eventType.WakeupRequested?
    ensures n < |Consumed(Apply(sys, step), sid)|
         || (Waits(Apply(sys, step), sid, n) && |At(Apply(sys, step).handled, sid)| <= p)
  {
    WaitingStep(sys, step, sid, n);
    HandledGrows(sys, step, sid);
    if |At(Apply(sys, step).handled, sid)| > p {
      assert DispatchOrder(sys, sid);
      WaitingHandle(sys, step.w, sid, n);
    }
  }

  lemma WakeupStepAt(b: nat -> System, st: nat -> Step, i: nat, sid: SessionId, n: nat, p: nat)
    requires IsBehavior(b, st) && Waits(b(i), sid, n)
    requires |At(b(i).handled, sid)| <= p < |At(b(i).published, sid)|
    requires At(b(i).published, sid)[p].eventType.WakeupRequested?
    ensures At(b(i).published, sid) <= At(b(i + 1).published, sid)
    ensures n < |Consumed(b(i + 1), sid)| || (Waits(b(i + 1), sid, n) && |At(b(i + 1).handled, sid)| <= p)
  {
    Grows(b, st, i, i + 1, sid);
    InvAt(b, st, i);
    assert StepAt(b, st, i);
    StepToWakeup(b(i), st(i), sid, n, p);
  }

  // Between i and j the published wakeup at position p is handled, and consumes the mailbox.
  lemma {:induction false} WalkToWakeup(b: nat -> System, st: nat -> Step, i: nat, j: nat, sid: SessionId, n: nat, p: nat)
    requires IsBehavior(b, st) && i <= j && Waits(b(i), sid, n)
    requires |At(b(i).handled, sid)| <= p < |At(b(i).published, sid)|
    requires At(b(i).published, sid)[p].eventType.WakeupRequested?
    requires |At(b(j).handled, sid)| > p
    ensures n < |Consumed(b(j), sid)|
    decreases j - i
  {
    WakeupStepAt(b, st, i, sid, n, p);
    if n < |Consumed(b(i + 1), sid)| {
      Grows(b, st, i + 1, j, sid);
    } else {
      WalkToWakeup(b, st, i + 1, j, sid, n, p);
    }
  }

  lemma WakeupConsumes(b: nat -> System, st: nat -> Step, i: nat, sid: SessionId, n: nat, p: nat) returns (j: nat)
    requires IsBehavior(b, st) && Fair(b, st) && Waits(b(i), sid, n)
    requires |At(b(i).handled, sid)| <= p < |At(b(i).published, sid)|
    requires At(b(i).published, sid)[p].eventType.WakeupRequested?
    ensures i <= j && n < |Consumed(b(j), sid)|
  {
    j := EventuallyHandled(b, st, i, sid, p + 1);
    WalkToWakeup(b, st, i, j, sid, n, p);
  }

  // The step at j publishes a wakeup for sid, which is then handled.
  lemma PublishedConsumes(b: nat -> System, st: nat -> Step, i: nat, j: nat, sid: SessionId, n: nat, source: Source)
    returns (k: nat)
    requires IsBehavior(b, st) && Fair(b, st) && i <= j && Waits(b(i), sid, n)
    requires At(b(j + 1).published, sid) == At(b(j).published, sid) + [WakeupEvent(sid, source)]
    ensures i <= k && n < |Consumed(b(k), sid)|
  {
    WaitsUntil(b, st, i, j + 1, sid, n);
    if n < |Consumed(b(j + 1), sid)| {
      return j + 1;
    }
    InvAt(b, st, j);
    assert StepAt(b, st, j) && DispatchOrder(b(j), sid);
    HandledGrows(b(j), st(j), sid);
    var p := |At(b(j).published, sid)|;
    if st(j).Handle? {
      HandleShape(b(j), st(j).w);
    }
    k := WakeupConsumes(b, st, j + 1, sid, n, p);
  }

  lemma {:induction false} WalkToTask(b: nat -> System, st: nat -> Step, i: nat, t: TaskId, k: nat) returns (j: nat)
    requires IsBehavior(b, st) && i <= k && TaskServed(b, st, t, k) && TaskIn(b(i), t, OwingWakeup)
    ensures i <= j && st(j) == DebouncePublish(t) && TaskIn(b(j), t, OwingWakeup) && b(j).tasks[t] == b(i).tasks[t]
    decreases k - i
  {
    assert StepAt(b, st, i);
    if st(i) == DebouncePublish(t) {
      return i;
    }
    InvAt(b, st, i);
    TaskKept(b(i), st(i), t);
    j := WalkToTask(b, st, i + 1, t, k);
  }

  lemma TaskKept(sys: System, step: Step, t: TaskId)
    requires Enabled(sys, step) && t < sys.nextTask && TaskIn(sys, t, OwingWakeup) && step != DebouncePublish(t)
    ensures step !in {DebounceDecide(t), DebounceExit(t)}
    ensures t in Apply(sys, step).tasks && Apply(sys, step).tasks[t] == sys.tasks[t]
  {
    if step.Handle? {
      HandleKeepsTask(sys, step.w, t);
    }
  }

  lemma HandleKeepsTask(sys: System, w: nat, t: TaskId)
    requires w < |sys.workers| && sys.workers[w].Handling? && t in sys.tasks && t < sys.nextTask
    ensures t in AfterHandle(sys, w).tasks && AfterHandle(sys, w).tasks[t] == sys.tasks[t]
  {
  }

  // The watchdog's next step; what it owes is unchanged until then.
  lemma {:induction false} WalkToWatchdog(b: nat -> System, st: nat -> Step, i: nat, k: nat) returns (j: nat)
    requires IsBehavior(b, st) && i <= k && WatchdogServed(st, k)
    ensures i <= j && WatchdogServed(st, j) && b(j).watchdog == b(i).watchdog
    decreases k - i
  {
    if WatchdogServed(st, i) {
      return i;
    }
    assert StepAt(b, st, i);
    if st(i).Handle? {
      HandleShape(b(i), st(i).w);
    }
    j := WalkToWatchdog(b, st, i + 1, k);
  }

  lemma NextWatchdog(b: nat -> System, st: nat -> Step, i: nat) returns (j: nat)
    requires IsBehavior(b, st) && Fair(b, st)
    ensures i <= j && WatchdogServed(st, j) && b(j).watchdog == b(i).watchdog
  {
    assert WatchdogServedFrom(st, i);
    var k: nat :| i <= k && WatchdogServed(st, k);
    j := WalkToWatchdog(b, st, i, k);
  }

  lemma {:induction false} NextSweep(b: nat -> System, st: nat -> Step, i: nat) returns (j: nat)
    requires IsBehavior(b, st) && Fair(b, st)
    ensures i <= j && st(j).Sweep?
    decreases |b(i).watchdog|
  {
    j := NextWatchdog(b, st, i);
    if st(j).WatchdogPublish? {
      assert StepAt(b, st, j);
      j := NextSweep(b, st, j + 1);
    }
  }

  // The watchdog owes the session a wakeup.
  lemma {:induction false} WatchdogConsumes(b: nat -> System, st: nat -> Step, i: nat, sid: SessionId, n: nat) returns (j: nat)
    requires IsBehavior(b, st) && Fair(b, st) && Waits(b(i), sid, n) && sid in b(i).watchdog
    ensures i <= j && n < |Consumed(b(j), sid)|
    decreases |b(i).watchdog|
  {
    var m := NextWatchdog(b, st, i);
    assert StepAt(b, st, m);
    if b(m).watchdog[0] == sid {
      j := PublishedConsumes(b, st, i, m, sid, n, HeartbeatWatchdog);
    } else {
      WaitsUntil(b, st, i, m + 1, sid, n);
      if n < |Consumed(b(m + 1), sid)| {
        return m + 1;
      }
      j := WatchdogConsumes(b, st, m + 1, sid, n);
    }
  }

  // A worker owes the session a wakeup.
  lemma OwingConsumes(b: nat -> System, st: nat -> Step, i: nat, sid: SessionId, n: nat, w: nat) returns (j: nat)
    requires IsBehavior(b, st) && Fair(b, st) && Waits(b(i), sid, n)
    requires w < |b(i).workers| && b(i).workers[w].Owing? && b(i).workers[w].sid == sid
    ensures i <= j && n < |Consumed(b(j), sid)|
  {
    var m := NextMove(b, st, i, w);
    assert StepAt(b, st, m);
    j := PublishedConsumes(b, st, i, m, sid, n, b(m).workers[w].source);
  }

  // A debounce task owes the session a wakeup.
  lemma TaskConsumes(b: nat -> System, st: nat -> Step, i: nat, sid: SessionId, n: nat, t: TaskId) returns (j: nat)
    requires IsBehavior(b, st) && Fair(b, st) && Waits(b(i), sid, n)
    requires t in b(i).tasks && b(i).tasks[t] == Debounce(sid, OwingWakeup)
    ensures i <= j && n < |Consumed(b(j), sid)|
  {
    assert TaskServedFrom(b, st, t, i);
    var k: nat :| i <= k && TaskServed(b, st, t, k);
    var m := WalkToTask(b, st, i, t, k);
    assert StepAt(b, st, m);
    j := PublishedConsumes(b, st, i, m, sid, n, DebounceTimer);
  }

  // With the flag set, the wakeup that justifies it consumes the mailbox.
  lemma FlagConsumes(b: nat -> System, st: nat -> Step, i: nat, sid: SessionId, n: nat) returns (j: nat)
    requires IsBehavior(b, st) && Fair(b, st) && Waits(b(i), sid, n) && WakeupPending(b(i), sid)
    ensures i <= j && n < |Consumed(b(j), sid)|
  {
    if p: nat :| |At(b(i).handled, sid)| <= p < |At(b(i).published, sid)|
                 && At(b(i).published, sid)[p].eventType.WakeupRequested? {
      j := WakeupConsumes(b, st, i, sid, n, p);
    } else if sid in b(i).watchdog {
      j := WatchdogConsumes(b, st, i, sid, n);
    } else if w: nat :| w < |b(i).workers| && b(i).workers[w].Owing? && b(i).workers[w].sid == sid {
      j := OwingConsumes(b, st, i, sid, n, w);
    } else if t :| t in b(i).tasks && b(i).tasks[t] == Debounce(sid, OwingWakeup) {
      j := TaskConsumes(b, st, i, sid, n, t);
    } else {
      InvAt(b, st, i);
      PendingInQueue(b(i), sid);
    }
  }

  // A wakeup in the queue or in a worker's hand is published and not yet handled.
  lemma PendingInQueue(sys: System, sid: SessionId)
    requires Inv(sys) && WakeupPending(sys, sid) && sid !in sys.watchdog
    requires forall w :: 0 <= w < |sys.workers| && sys.workers[w].Owing? ==> sys.workers[w].sid != sid
    requires forall t :: t in sys.tasks ==> sys.tasks[t] != Debounce(sid, OwingWakeup)
    ensures exists p: nat :: |At(sys.handled, sid)| <= p < |At(sys.published, sid)|
                          && At(sys.published, sid)[p].eventType.WakeupRequested?
  {
    assert DispatchOrder(sys, sid);
    var done, published := |At(sys.handled, sid)|, At(sys.published, sid);
    if w :| 0 <= w < |sys.workers| && CarriesWakeup(sys.workers[w], sid) {
      assert published[done] == sys.workers[w].event;
    } else {
      var i: nat :| WakeupAt(sys.bus, sid, i);
      if w :| 0 <= w < |sys.workers| && sys.workers[w].Handling? && sys.workers[w].sid == sid {
        assert published[done + 1 + i] == Queue(sys.bus, sid)[i];
      } else {
        assert published[done + i] == Queue(sys.bus, sid)[i];
      }
    }
  }

  lemma SweepFlags(sys: System, step: Step, sid: SessionId, n: nat)
    requires Enabled(sys, step) && step.Sweep? && Inv(sys) && Waits(sys, sid, n)
    ensures Waits(Apply(sys, step), sid, n) && WakeupPending(Apply(sys, step), sid)
  {
    StepKeepsInv(sys, step);
    assert HasTrigger(Mailbox(sys.sched, sid));
    assert Flagged(Apply(sys, step).sched, sid);
  }

  // A trigger waiting in a mailbox is consumed: the next sweep flags it at the latest.
  lemma WaitingIsConsumed(b: nat -> System, st: nat -> Step, i: nat, sid: SessionId, n: nat) returns (j: nat)
    requires IsBehavior(b, st) && Fair(b, st) && Waits(b(i), sid, n)
    ensures i <= j && n < |Consumed(b(j), sid)|
  {
    var m := NextSweep(b, st, i);
    WaitsUntil(b, st, i, m, sid, n);
    if n < |Consumed(b(m), sid)| {
      return m;
    }
    SweepAt(b, st, m, sid, n);
    j := FlagConsumes(b, st, m + 1, sid, n);
  }

  lemma SweepAt(b: nat -> System, st: nat -> Step, m: nat, sid: SessionId, n: nat)
    requires IsBehavior(b, st) && st(m).Sweep? && Waits(b(m), sid, n)
    ensures Waits(b(m + 1), sid, n) && WakeupPending(b(m + 1), sid)
  {
    InvAt(b, st, m);
    assert StepAt(b, st, m);
    SweepFlags(b(m), st(m), sid, n);
  }

  lemma MailboxEventsPrefix(a: seq<RuntimeEvent>, b: seq<RuntimeEvent>)
    requires a <= b
    ensures MailboxEvents(a) <= MailboxEvents(b)
  {
    MailboxEventsConcat(a, b[|a|..]);
    assert a + b[|a|..] == b;
  }

  // What has been handled is consumed or waits in the mailbox.
  lemma HandledWaits(sys: System, sid: SessionId, n: nat)
    requires Inv(sys) && n < |MailboxEvents(At(sys.handled, sid))| && MailboxEvents(At(sys.handled, sid))[n].triggerTurn
    ensures n < |Consumed(sys, sid)| || Waits(sys, sid, n)
  {
    assert MailboxOrder(sys, sid);
  }

  lemma ConsumedIsHandled(sys: System, sid: SessionId, n: nat)
    requires Inv(sys) && n < |Consumed(sys, sid)|
    ensures n < |MailboxEvents(At(sys.handled, sid))| && Consumed(sys, sid)[n] == MailboxEvents(At(sys.handled, sid))[n]
  {
    assert MailboxOrder(sys, sid);
  }

  lemma HandledIsPublished(sys: System, sid: SessionId)
    requires Inv(sys)
    ensures At(sys.handled, sid) <= At(sys.published, sid)
  {
    assert DispatchOrder(sys, sid);
  }

  // Once as many events are handled as were published before, those are the ones.
  lemma AllHandled(b: nat -> System, st: nat -> Step, i: nat, j: nat, sid: SessionId)
    requires IsBehavior(b, st) && i <= j && |At(b(j).handled, sid)| >= |At(b(i).published, sid)|
    ensures At(b(i).published, sid) <= At(b(j).handled, sid)
  {
    InvAt(b, st, j);
    Grows(b, st, i, j, sid);
    HandledIsPublished(b(j), sid);
  }

  lemma SameEvent(b: nat -> System, st: nat -> Step, i: nat, j: nat, sid: SessionId, n: nat)
    requires IsBehavior(b, st) && i <= j
    requires n < |MailboxEvents(At(b(i).handled, sid))| && n < |Consumed(b(j), sid)|
    ensures Consumed(b(j), sid)[n] == MailboxEvents(At(b(i).handled, sid))[n]
  {
    InvAt(b, st, j);
    ConsumedIsHandled(b(j), sid, n);
    Grows(b, st, i, j, sid);
    MailboxEventsPrefix(At(b(i).handled, sid), At(b(j).handled, sid));
  }

  // A trigger handled at m, if not consumed yet, is consumed later.
  lemma HandledIsConsumed(b: nat -> System, st: nat -> Step, m: nat, sid: SessionId, n: nat) returns (j: nat)
    requires IsBehavior(b, st) && Fair(b, st)
    requires n < |MailboxEvents(At(b(m).handled, sid))| && MailboxEvents(At(b(m).handled, sid))[n].triggerTurn
    ensures m <= j && n < |Consumed(b(j), sid)|
  {
    InvAt(b, st, m);
    HandledWaits(b(m), sid, n);
    if n < |Consumed(b(m), sid)| {
      j := m;
    } else {
      j := WaitingIsConsumed(b, st, m, sid, n);
    }
  }

  // Whatever the interleaving, the n-th mailbox event published for a session, if it asks for
  // a turn, is eventually consumed by a turn of that session, as the n-th event consumed.
  lemma EveryTriggerIsConsumed(b: nat -> System, st: nat -> Step, i: nat, sid: SessionId, n: nat) returns (j: nat)
    requires IsBehavior(b, st) && Fair(b, st)
    requires n < |MailboxEvents(At(b(i).published, sid))| && MailboxEvents(At(b(i).published, sid))[n].triggerTurn
    ensures i <= j && n < |Flatten(At(b(j).batches, sid))|
    ensures Flatten(At(b(j).batches, sid))[n] == MailboxEvents(At(b(i).published, sid))[n]
  {
    var m := EventuallyHandled(b, st, i, sid, |At(b(i).published, sid)|);
    AllHandled(b, st, i, m, sid);
    MailboxEventsPrefix(At(b(i).published, sid), At(b(m).handled, sid));
    j := HandledIsConsumed(b, st, m, sid, n);
    SameEvent(b, st, m, j, sid, n);
  }

  // ---------- fair behaviours exist ----------

  // How often n can be halved: every value comes up again and again.
  function Ruler(n: nat): nat
    requires n > 0
  {
    if n % 2 == 1 then 0 else 1 + Ruler(n / 2)
  }

  lemma {:induction false} RulerHits(k: nat, i: nat) returns (j: nat)
    ensures i <= j && Ruler(j + 1) == k
  {
    if k == 0 {
      j := 2 * i;
    } else {
      var half := RulerHits(k - 1, i);
      j := 2 * half + 1;
      assert (j + 1) / 2 == half + 1;
    }
  }

  lemma {:induction false} Enumeration(sids: set<SessionId>) returns (order: seq<SessionId>)
    ensures Enumerates(order, sids)
    decreases |sids|
  {
    order := [];
    if sids != {} {
      var sid :| sid in sids;
      var rest := Enumeration(sids - {sid});
      order := rest + [sid];
    }
  }

  // The step worker w can take, if it is ready.
  function StepOfWorker(sys: System, w: nat): Step
    requires w < |sys.workers|
  {
    match sys.workers[w]
    case Idle => Take(w)
    case Holding(_) => Pop(w)
    case Handling(_, _) => Handle(w)
    case Deciding(_) => Decide(w)
    case Owing(_, _) => PublishOwed(w)
    case InTurn(_) => EndTurn(w)
    case Finished(_) => Reschedule(w)
  }

  function StepOfTask(sys: System, t: TaskId): Step
    requires t in sys.tasks
  {
    match sys.tasks[t].phase
    case Sleeping => DebounceDecide(t)
    case OwingWakeup => DebouncePublish(t)
    case Exiting => DebounceExit(t)
  }

  ghost function StepOfWatchdog(sys: System): (step: Step)
    ensures Enabled(sys, step) && (step.Sweep? || step.WatchdogPublish?)
  {
    if sys.watchdog != [] then WatchdogPublish
    else
      SweepExists(sys);
      var order :| Enumerates(order, SessionsToWake(sys.sched));
      Sweep(order)
  }

  lemma SweepExists(sys: System)
    ensures exists order :: Enumerates(order, SessionsToWake(sys.sched))
  {
    var order := Enumeration(SessionsToWake(sys.sched));
  }

  // The step of number k's owner, or the watchdog's if that owner has nothing to do.
  ghost function Choice(sys: System, k: nat): (step: Step)
    ensures Enabled(sys, step)
  {
    if k % 3 == 0 && WorkerReady(sys, k / 3) then StepOfWorker(sys, k / 3)
    else if k % 3 == 1 && k / 3 in sys.tasks then StepOfTask(sys, k / 3)
    else StepOfWatchdog(sys)
  }

  // The run, and then every owner's turn again and again.
  ghost function StateAt(init: System, steps: seq<Step>, i: nat): (sys: System)
    requires IsRun(init, steps)
    ensures i <= |steps| ==> IsRun(sys, steps[i..]) && RunFrom(sys, steps[i..]) == RunFrom(init, steps)
    decreases i, 0
  {
    if i == 0 then
      assert steps[0..] == steps;
      init
    else
      var before := StateAt(init, steps, i - 1);
      assert i <= |steps| ==> steps[i - 1..][1..] == steps[i..];
      Apply(before, ChoiceAt(init, steps, i - 1))
  }

  ghost function ChoiceAt(init: System, steps: seq<Step>, i: nat): (step: Step)
    requires IsRun(init, steps)
    ensures Enabled(StateAt(init, steps, i), step) && (i < |steps| ==> step == steps[i])
    decreases i, 1
  {
    if i < |steps| then steps[i] else Choice(StateAt(init, steps, i), Ruler(i + 1))
  }

  lemma OwnersChosen(sys: System, n: nat)
    ensures WorkerStep(Choice(sys, 3 * n), n) || !WorkerReady(sys, n)
    ensures Choice(sys, 3 * n + 1) in {DebounceDecide(n), DebouncePublish(n), DebounceExit(n)} || n !in sys.tasks
    ensures Choice(sys, 3 * n + 2).Sweep? || Choice(sys, 3 * n + 2).WatchdogPublish?
  {
    assert (3 * n) / 3 == n && (3 * n + 1) / 3 == n && (3 * n) % 3 == 0 && (3 * n + 1) % 3 == 1;
  }

  // Past the run, number k is chosen at some later step.
  lemma ChosenLater(init: System, steps: seq<Step>, k: nat, i: nat) returns (j: nat)
    requires IsRun(init, steps)
    ensures i <= j && ChoiceAt(init, steps, j) == Choice(StateAt(init, steps, j), k)
  {
    j := RulerHits(k, i + |steps|);
  }

  lemma ChoicesAreFair(init: System, steps: seq<Step>, b: nat -> System, st: nat -> Step)
    requires IsRun(init, steps)
    requires forall i: nat :: b(i) == StateAt(init, steps, i) && st(i) == ChoiceAt(init, steps, i)
    ensures Fair(b, st)
  {
    forall n: nat, i: nat ensures WorkerServedFrom(b, st, n, i) && TaskServedFrom(b, st, n, i) {
      var j := ChosenLater(init, steps, 3 * n, i);
      OwnersChosen(b(j), n);
      assert WorkerServed(b, st, n, j);
      var l := ChosenLater(init, steps, 3 * n + 1, i);
      OwnersChosen(b(l), n);
      assert TaskServed(b, st, n, l);
    }
    forall i: nat ensures WatchdogServedFrom(st, i) {
      var j := ChosenLater(init, steps, 2, i);
      OwnersChosen(b(j), 0);
      assert WatchdogServed(st, j);
    }
  }

  // Every finite run goes on as a fair behaviour.
  lemma FairContinuation(sys: System) returns (b: nat -> System, st: nat -> Step, i: nat)
    requires Reachable(sys)
    ensures IsBehavior(b, st) && Fair(b, st) && b(i) == sys
  {
    var init, steps :| Init(init) && IsRun(init, steps) && RunFrom(init, steps) == sys;
    b := (k: nat) => StateAt(init, steps, k);
    st := (k: nat) => ChoiceAt(init, steps, k);
    i := |steps|;
    ChoicesAreFair(init, steps, b, st);
    assert steps[|steps|..] == [];
    forall k: nat ensures StepAt(b, st, k) {
    }
  }
}
