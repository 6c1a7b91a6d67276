// The session event bus (fairyclaw/core/events/bus.py): a value describing the three
// structures the bus locks, the effect of each locked block on it, and the class that
// performs those blocks on its own fields.
module EventBus {
  import opened Wrappers
  import opened Events

  datatype Bus = Bus(
    queues: map<SessionId, seq<RuntimeEvent>>,
    ready: seq<SessionId>,
    scheduled: set<SessionId>)

  const EmptyBus := Bus(map[], [], {})

  function Queue(b: Bus, sid: SessionId): seq<RuntimeEvent> {
    if sid in b.queues then b.queues[sid] else []
  }

  function Published(b: Bus, e: RuntimeEvent): Bus {
    var queued := b.(queues := b.queues[e.sessionId := Queue(b, e.sessionId) + [e]]);
    if e.sessionId in b.scheduled then queued
    else queued.(scheduled := b.scheduled + {e.sessionId}, ready := b.ready + [e.sessionId])
  }

  function Popped(b: Bus, sid: SessionId): (Bus, Option<RuntimeEvent>) {
    if sid !in b.queues then
      (b.(scheduled := b.scheduled - {sid}), None)
    else if b.queues[sid] == [] then
      (b.(scheduled := b.scheduled - {sid}, queues := b.queues - {sid}), None)
    else
      (b.(queues := b.queues[sid := b.queues[sid][1..]]), Some(b.queues[sid][0]))
  }

  function Rescheduled(b: Bus, sid: SessionId): Bus {
    if Queue(b, sid) == [] then
      b.(scheduled := b.scheduled - {sid}, queues := b.queues - {sid})
    else
      b.(ready := b.ready + [sid])
  }

  class SessionEventBus {
    var sessionQueues: map<SessionId, seq<RuntimeEvent>>
    var readySessions: seq<SessionId>
    var scheduledSessions: set<SessionId>
    const workerCount: nat

    constructor (workers: int)
      ensures View() == EmptyBus
      ensures workerCount >= 1 && (workers >= 1 ==> workerCount == workers)
    {
      workerCount := if workers < 1 then 1 else workers;
      sessionQueues := map[];
      readySessions := [];
      scheduledSessions := {};
    }

    function View(): Bus
      reads this
    {
      Bus(sessionQueues, readySessions, scheduledSessions)
    }

    method Publish(event: RuntimeEvent)
      modifies this
      ensures View() == Published(old(View()), event)
    {
      var queue := [];
      if event.sessionId in sessionQueues {
        queue := sessionQueues[event.sessionId];
      }
      queue := queue + [event];
      sessionQueues := sessionQueues[event.sessionId := queue];
      if event.sessionId !in scheduledSessions {
        scheduledSessions := scheduledSessions + {event.sessionId};
        readySessions := readySessions + [event.sessionId];
      }
    }

    // A worker waits until the ready queue is non-empty.
    method TakeReady() returns (sid: SessionId)
      requires readySessions != []
      modifies this
      ensures View() == old(View()).(ready := old(readySessions)[1..])
      ensures sid == old(readySessions)[0]
    {
      sid := readySessions[0];
      readySessions := readySessions[1..];
    }

    method PopNextEvent(sid: SessionId) returns (event: Option<RuntimeEvent>)
      modifies this
      ensures (View(), event) == Popped(old(View()), sid)
    {
      if sid !in sessionQueues {
        scheduledSessions := scheduledSessions - {sid};
        return None;
      }
      var queue := sessionQueues[sid];
      if queue == [] {
        scheduledSessions := scheduledSessions - {sid};
        sessionQueues := sessionQueues - {sid};
        return None;
      }
      event := Some(queue[0]);
      sessionQueues := sessionQueues[sid := queue[1..]];
    }

    method RescheduleSession(sid: SessionId)
      modifies this
      ensures View() == Rescheduled(old(View()), sid)
    {
      if sid !in sessionQueues || sessionQueues[sid] == [] {
        scheduledSessions := scheduledSessions - {sid};
        sessionQueues := sessionQueues - {sid};
        return;
      }
      readySessions := readySessions + [sid];
    }
  }
}
