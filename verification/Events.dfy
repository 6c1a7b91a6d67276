// Runtime events and mailbox envelopes (fairyclaw/core/events/bus.py, payloads.py).
// Session ids are only ever compared, so they are numbers here.
module Events {
  import opened Wrappers

  type SessionId = nat

  datatype EventType =
    | UserMessageReceived
    | SubtaskCompleted
    | WakeupRequested
    | FileUploadReceived
    | ForceFinishRequested
    | CustomEvent(name: string)

  // The four sources run_session treats specially, and every other string.
  datatype Source =
    | EventBusSource
    | HeartbeatWatchdog
    | DebounceTimer
    | SubtaskSource
    | OtherSource(name: string)

  // triggerTurn is the payload's "trigger_turn" entry: None when it is missing or not a bool.
  datatype RuntimeEvent = RuntimeEvent(
    eventType: EventType,
    sessionId: SessionId,
    triggerTurn: Option<bool>,
    source: Source,
    id: nat)

  datatype Envelope = Envelope(event: RuntimeEvent, triggerTurn: bool)

  // The two event types that on_event stores in a mailbox.
  predicate IsMailboxType(t: EventType) {
    t.UserMessageReceived? || t.SubtaskCompleted?
  }

  function NormalizeTriggerTurn(t: EventType, raw: Option<bool>): bool {
    match raw
    case Some(b) => b
    case None => IsMailboxType(t)
  }

  // trigger_turn as the user-message and the subtask payload parsers read it.
  function ParsedTriggerTurn(raw: Option<bool>): bool {
    raw.GetOr(true)
  }

  function ToEnvelope(e: RuntimeEvent): Envelope {
    Envelope(e, NormalizeTriggerTurn(e.eventType, e.triggerTurn))
  }

  // The wakeup that request_wakeup_if_needed, run_session and the watchdog publish.
  function WakeupEvent(sid: SessionId, source: Source): RuntimeEvent {
    RuntimeEvent(WakeupRequested, sid, None, source, 0)
  }

  predicate HasTrigger(mailbox: seq<Envelope>) {
    exists i :: 0 <= i < |mailbox| && mailbox[i].triggerTurn
  }

  // The mailbox events of a dispatched sequence, in order, as they are enqueued.
  function MailboxEvents(events: seq<RuntimeEvent>): seq<Envelope> {
    if events == [] then []
    else
      var e := events[|events| - 1];
      MailboxEvents(events[..|events| - 1]) + if IsMailboxType(e.eventType) then [ToEnvelope(e)] else []
  }

  function Flatten<T>(batches: seq<seq<T>>): seq<T> {
    if batches == [] then [] else Flatten(batches[..|batches| - 1]) + batches[|batches| - 1]
  }

  // The flag a handler acts on and the flag stored in the mailbox are the same.
  lemma ParsersAgree(e: RuntimeEvent)
    ensures IsMailboxType(e.eventType) <==>
            forall raw :: NormalizeTriggerTurn(e.eventType, raw) == ParsedTriggerTurn(raw)
  {
    assert NormalizeTriggerTurn(e.eventType, None) == ParsedTriggerTurn(None) <==> IsMailboxType(e.eventType);
  }

  lemma {:induction false} MailboxEventsConcat(a: seq<RuntimeEvent>, b: seq<RuntimeEvent>)
    ensures MailboxEvents(a + b) == MailboxEvents(a) + MailboxEvents(b)
    decreases |b|
  {
    if b == [] {
      assert a + b == a;
    } else {
      var front := b[..|b| - 1];
      assert (a + b)[..|a + b| - 1] == a + front;
      MailboxEventsConcat(a, front);
    }
  }

  lemma MailboxEventsSnoc(a: seq<RuntimeEvent>, e: RuntimeEvent)
    ensures MailboxEvents(a + [e]) == MailboxEvents(a) + if IsMailboxType(e.eventType) then [ToEnvelope(e)] else []
  {
    assert (a + [e])[..|a|] == a;
  }

  lemma FlattenSnoc<T>(batches: seq<seq<T>>, batch: seq<T>)
    ensures Flatten(batches + [batch]) == Flatten(batches) + batch
  {
    assert (batches + [batch])[..|batches|] == batches;
  }
}
