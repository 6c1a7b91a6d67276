// Inbound frames over the gateway bridge (fairyclaw/gateway/bridge/ws_client.py and
// fairyclaw/bridge/user_gateway.py): the client keeps frames until they are acked and resends
// them after every reconnect; the server drops duplicates it still remembers. Several
// connections can be alive on the server at once, each with its own handler.
module BridgeInbound {
  import opened Wrappers
  import opened RecentFrames

  type ConnId = nat

  datatype Status = Ok | Duplicate | Failed

  datatype Ack = Ack(id: FrameId, status: Status)

  // What the client remembers of its inbound frames: the ordered dictionary of frames to
  // resend, the callers waiting for an ack, and the acks handed to callers.
  datatype ClientBook = ClientBook(pending: seq<FrameId>, waiters: set<FrameId>, results: map<FrameId, Status>)

  function FrameBegun(book: ClientBook, id: FrameId): ClientBook {
    book.(pending := book.pending + [id], waiters := book.waiters + {id})
  }

  function AckReceived(book: ClientBook, ack: Ack): ClientBook {
    ClientBook(
      if ack.status != Failed then Without(book.pending, ack.id) else book.pending,
      book.waiters - {ack.id},
      if ack.id in book.waiters then book.results[ack.id := ack.status] else book.results)
  }

  class WsBridgeClient {
    var pendingInboundFrames: seq<FrameId>
    var ackWaiters: set<FrameId>
    var results: map<FrameId, Status>

    constructor ()
      ensures View() == ClientBook([], {}, map[])
    {
      pendingInboundFrames, ackWaiters, results := [], {}, map[];
    }

    function View(): ClientBook
      reads this
    {
      ClientBook(pendingInboundFrames, ackWaiters, results)
    }

    // send_inbound up to its first await on the socket.
    method BeginInbound(id: FrameId)
      modifies this
      ensures View() == FrameBegun(old(View()), id)
    {
      ackWaiters := ackWaiters + {id};
      pendingInboundFrames := pendingInboundFrames + [id];
    }

    // The ack branch of _handle_frame.
    method HandleAck(ack: Ack)
      modifies this
      ensures View() == AckReceived(old(View()), ack)
    {
      if ack.id in ackWaiters {
        ackWaiters := ackWaiters - {ack.id};
        results := results[ack.id := ack.status];
      }
      if ack.status == Ok || ack.status == Duplicate {
        pendingInboundFrames := Without(pendingInboundFrames, ack.id);
      }
    }
  }

  // ---------- the protocol as a transition system ----------

  datatype Handler =
    | Waiting                                       // about to receive the next frame
    | Submitting(id: FrameId, checkedAt: nat)       // passed the duplicate check, in submit_message
    | Acking(id: FrameId, status: Status)           // about to send an ack
    | Closed

  datatype Conn = Conn(toServer: seq<FrameId>, toClient: seq<Ack>, handler: Handler)

  // Before the hello ack; after it, when callers may send; resending what is pending; done.
  datatype Stage = Greeting | Resuming | Resending(rest: seq<FrameId>) | Steady

  // broken: a send on the client's socket would raise.
  datatype Link = Down | Up(conn: ConnId, stage: Stage, broken: bool)

  datatype Call = Sending | Awaiting | Returned | Raised

  // log is the sequence of successful submissions, and checked[q] the length the log had when
  // submission q passed its duplicate check; refused records failed acks by connection.
  // wasReady: some connection has got its hello ack. A caller woken by that runs a little later,
  // when the connection may be gone again.
  datatype Bridge = Bridge(
    limit: nat,
    link: Link,
    wasReady: bool,
    conns: map<ConnId, Conn>,
    nextConn: ConnId,
    book: ClientBook,
    calls: map<FrameId, Call>,
    recent: seq<FrameId>,
    log: seq<FrameId>,
    checked: seq<nat>,
    refused: set<(ConnId, FrameId)>)

  datatype Step =
    | Connect
    | Break
    | Drop
    | HelloAcked
    | HandshakeDone
    | ResendNext
    | ResendDone
    | Begin(id: FrameId)
    | FirstSend(id: FrameId)
    | FirstSendFails(id: FrameId)
    | FinishCall(id: FrameId)
    | ReceiveAck
    | ServerReceive(c: ConnId)
    | SubmitOk(c: ConnId)
    | SubmitFails(c: ConnId)
    | SendAck(c: ConnId)
    | SendAckFails(c: ConnId)
    | ServerClose(c: ConnId)

  ghost predicate Init(b: Bridge) {
    && b.limit >= 1
    && b == Bridge(b.limit, Down, false, map[], 0, ClientBook([], {}, map[]), map[], [], [], [], {})
  }

  ghost predicate Enabled(b: Bridge, step: Step) {
    match step
    case Connect => b.link.Down?
    case Break => b.link.Up?
    case Drop => b.link.Up?
    case HelloAcked => b.link.Up? && b.link.stage.Greeting?
    case HandshakeDone => b.link.Up? && b.link.conn in b.conns && b.link.stage.Resuming? && !b.link.broken
    case ResendNext =>
      b.link.Up? && b.link.conn in b.conns && b.link.stage.Resending? && !b.link.broken && b.link.stage.rest != []
    case ResendDone => b.link.Up? && b.link.stage.Resending? && b.link.stage.rest == []
    case Begin(id) => b.wasReady && id !in b.calls
    case FirstSend(id) =>
      id in b.calls && b.calls[id] == Sending && b.link.Up? && b.link.conn in b.conns && !b.link.broken
    case FirstSendFails(id) => id in b.calls && b.calls[id] == Sending && (b.link.Down? || b.link.broken)
    case FinishCall(id) => id in b.calls && b.calls[id] == Awaiting && id in b.book.results
    case ReceiveAck =>
      b.link.Up? && b.link.conn in b.conns && b.link.stage.Steady? && b.conns[b.link.conn].toClient != []
    case ServerReceive(c) => c in b.conns && b.conns[c].handler.Waiting? && b.conns[c].toServer != []
    case SubmitOk(c) => c in b.conns && b.conns[c].handler.Submitting?
    case SubmitFails(c) => c in b.conns && b.conns[c].handler.Submitting?
    case SendAck(c) => c in b.conns && b.conns[c].handler.Acking?
    case SendAckFails(c) => c in b.conns && b.conns[c].handler.Acking?
    case ServerClose(c) => c in b.conns && b.conns[c].handler.Waiting?
  }

  function SentToServer(b: Bridge, c: ConnId, id: FrameId): Bridge
    requires c in b.conns
  {
    b.(conns := b.conns[c := b.conns[c].(toServer := b.conns[c].toServer + [id])])
  }

  function WithHandler(b: Bridge, c: ConnId, handler: Handler): Bridge
    requires c in b.conns
  {
    b.(conns := b.conns[c := b.conns[c].(handler := handler)])
  }

  // A handler that ends closes its socket, so the client's link over it is broken.
  function HandlerClosed(b: Bridge, c: ConnId): Bridge
    requires c in b.conns
  {
    var closed := WithHandler(b, c, Closed);
    if b.link.Up? && b.link.conn == c then closed.(link := b.link.(broken := true)) else closed
  }

  // The inbound branch of the server's _handle_frame.
  function Received(b: Bridge, c: ConnId): Bridge
    requires c in b.conns && b.conns[c].toServer != []
  {
    var id := b.conns[c].toServer[0];
    var taken := b.(conns := b.conns[c := b.conns[c].(toServer := b.conns[c].toServer[1..])]);
    WithHandler(taken, c, if id in b.recent then Acking(id, Duplicate) else Submitting(id, |b.log|))
  }

  function Submitted(b: Bridge, c: ConnId): Bridge
    requires c in b.conns && b.conns[c].handler.Submitting?
  {
    var Submitting(id, checkedAt) := b.conns[c].handler;
    WithHandler(b, c, Acking(id, Ok)).(
      recent := Added(b.recent, b.limit, id), log := b.log + [id], checked := b.checked + [checkedAt])
  }

  function AckSent(b: Bridge, c: ConnId): Bridge
    requires c in b.conns && b.conns[c].handler.Acking?
  {
    var Acking(id, status) := b.conns[c].handler;
    b.(conns := b.conns[c := b.conns[c].(toClient := b.conns[c].toClient + [Ack(id, status)], handler := Waiting)])
  }

  // The ok ack is sent inside the try block, so a failure to send it leads to a failed ack.
  function AckNotSent(b: Bridge, c: ConnId): Bridge
    requires c in b.conns && b.conns[c].handler.Acking?
  {
    var Acking(id, status) := b.conns[c].handler;
    if status == Ok then WithHandler(b, c, Acking(id, Failed)) else HandlerClosed(b, c)
  }

  function AckTaken(b: Bridge): Bridge
    requires b.link.Up? && b.link.conn in b.conns && b.conns[b.link.conn].toClient != []
  {
    var c := b.link.conn;
    var ack := b.conns[c].toClient[0];
    b.(conns := b.conns[c := b.conns[c].(toClient := b.conns[c].toClient[1..])],
       book := AckReceived(b.book, ack),
       refused := if ack.status == Failed then b.refused + {(c, ack.id)} else b.refused)
  }

  ghost function Apply(b: Bridge, step: Step): Bridge
    requires Enabled(b, step)
  {
    match step
    case Connect =>
      b.(link := Up(b.nextConn, Greeting, false), conns := b.conns[b.nextConn := Conn([], [], Waiting)],
         nextConn := b.nextConn + 1)
    case Break => b.(link := b.link.(broken := true))
    case Drop => b.(link := Down)
    case HelloAcked => b.(link := b.link.(stage := Resuming), wasReady := true)
    case HandshakeDone => b.(link := b.link.(stage := Resending(b.book.pending)))
    case ResendNext =>
      SentToServer(b, b.link.conn, b.link.stage.rest[0]).(
        link := b.link.(stage := Resending(b.link.stage.rest[1..])))
    case ResendDone => b.(link := b.link.(stage := Steady))
    case Begin(id) => b.(book := FrameBegun(b.book, id), calls := b.calls[id := Sending])
    case FirstSend(id) => SentToServer(b, b.link.conn, id).(calls := b.calls[id := Awaiting])
    case FirstSendFails(id) => b.(calls := b.calls[id := Raised])
    case FinishCall(id) =>
      b.(calls := b.calls[id := if b.book.results[id] != Failed then Returned else Raised])
    case ReceiveAck => AckTaken(b)
    case ServerReceive(c) => Received(b, c)
    case SubmitOk(c) => Submitted(b, c)
    case SubmitFails(c) => WithHandler(b, c, Acking(b.conns[c].handler.id, Failed))
    case SendAck(c) => AckSent(b, c)
    case SendAckFails(c) => AckNotSent(b, c)
    case ServerClose(c) => HandlerClosed(b, c)
  }

  ghost predicate IsRun(b: Bridge, steps: seq<Step>)
    decreases |steps|
  {
    steps == [] || (Enabled(b, steps[0]) && IsRun(Apply(b, steps[0]), steps[1..]))
  }

  ghost function RunFrom(b: Bridge, steps: seq<Step>): Bridge
    requires IsRun(b, steps)
    decreases |steps|
  {
    if steps == [] then b else RunFrom(Apply(b, steps[0]), steps[1..])
  }

  ghost predicate Reachable(b: Bridge) {
    exists init, steps :: Init(init) && IsRun(init, steps) && RunFrom(init, steps) == b
  }

  // ---------- the invariant ----------

  predicate CheckedOk(limit: nat, log: seq<FrameId>, handler: Handler) {
    handler.Submitting? ==>
      handler.checkedAt <= |log| && handler.id !in AddedAll(limit, log[..handler.checkedAt])
  }

  // Submission q of x passed its check when x was not among the remembered ids.
  ghost predicate LogInv(b: Bridge) {
    && |b.log| == |b.checked|
    && b.recent == AddedAll(b.limit, b.log)
    && (forall q :: 0 <= q < |b.log| ==>
          b.checked[q] <= q && b.log[q] !in AddedAll(b.limit, b.log[..b.checked[q]]))
    && (forall c :: c in b.conns ==> CheckedOk(b.limit, b.log, b.conns[c].handler))
  }

  // Every positive ack, wherever it is, is about a submitted frame.
  ghost predicate AckInv(b: Bridge) {
    && (forall c :: c in b.conns && b.conns[c].handler.Acking? && b.conns[c].handler.status != Failed ==>
          b.conns[c].handler.id in b.log)
    && (forall c, k :: c in b.conns && 0 <= k < |b.conns[c].toClient| && b.conns[c].toClient[k].status != Failed ==>
          b.conns[c].toClient[k].id in b.log)
    && (forall id :: id in b.book.results && b.book.results[id] != Failed ==> id in b.log)
    && (forall id :: id in b.calls && b.calls[id] == Returned ==> id in b.log)
    && (forall id :: id in b.calls ==> id in b.book.pending || id in b.log)
    && (forall id :: id in b.book.pending ==> id in b.calls)
  }

  ghost predicate AckFor(acks: seq<Ack>, id: FrameId) {
    exists k :: 0 <= k < |acks| && acks[k].id == id
  }

  // Where a frame the client still holds can be, on connection c.
  ghost predicate Located(b: Bridge, c: ConnId, id: FrameId)
    requires c in b.conns
  {
    || id in b.conns[c].toServer
    || ((b.conns[c].handler.Submitting? || b.conns[c].handler.Acking?) && b.conns[c].handler.id == id)
    || AckFor(b.conns[c].toClient, id)
    || (c, id) in b.refused
  }

  ghost predicate Tracked(b: Bridge, id: FrameId)
    requires b.link.Up? && b.link.conn in b.conns && id in b.calls
  {
    || b.calls[id] == Sending
    || (b.link.stage.Resending? && id in b.link.stage.rest)
    || Located(b, b.link.conn, id)
  }

  // The pending frames have been listed for resending.
  predicate Resent(stage: Stage) {
    stage.Resending? || stage.Steady?
  }

  ghost predicate LinkInv(b: Bridge) {
    && (forall c :: c in b.conns ==> c < b.nextConn)
    && (b.link.Up? ==> b.link.conn in b.conns)
    && (b.link.Up? && !b.link.broken ==> !b.conns[b.link.conn].handler.Closed?)
    && (b.link.Up? && !b.link.broken && Resent(b.link.stage) ==>
          forall id :: id in b.book.pending ==> id in b.calls && Tracked(b, id))
  }

  ghost predicate Inv(b: Bridge) {
    b.limit >= 1 && LogInv(b) && AckInv(b) && LinkInv(b)
  }

  predicate ServerStep(step: Step) {
    step.ServerReceive? || step.SubmitOk? || step.SubmitFails? || step.SendAck? || step.SendAckFails? || step.ServerClose?
  }

  lemma SubmitKeepsLog(b: Bridge, c: ConnId)
    requires c in b.conns && b.conns[c].handler.Submitting? && LogInv(b)
    ensures LogInv(Submitted(b, c))
  {
    var next := Submitted(b, c);
    assert next.log[..|b.log|] == b.log;
    assert forall k :: 0 <= k <= |b.log| ==> next.log[..k] == b.log[..k];
  }

  // The log is untouched and handlers come from the old ones or have not passed a check.
  lemma QuietKeepsLog(b: Bridge, next: Bridge)
    requires LogInv(b)
    requires next.limit == b.limit && next.recent == b.recent && next.log == b.log && next.checked == b.checked
    requires forall c :: c in next.conns ==>
      !next.conns[c].handler.Submitting? || (c in b.conns && next.conns[c].handler == b.conns[c].handler)
    ensures LogInv(next)
  {
  }

  lemma ClientKeepsLog(b: Bridge, step: Step)
    requires Enabled(b, step) && !ServerStep(step) && LogInv(b)
    ensures LogInv(Apply(b, step))
  {
    QuietKeepsLog(b, Apply(b, step));
  }

  lemma ReceiveKeepsLog(b: Bridge, c: ConnId)
    requires c in b.conns && b.conns[c].toServer != [] && LogInv(b)
    ensures LogInv(Received(b, c))
  {
    assert b.log[..|b.log|] == b.log;
  }

  lemma AckKeepsLog(b: Bridge, c: ConnId)
    requires c in b.conns && b.conns[c].handler.Acking? && LogInv(b)
    ensures LogInv(AckSent(b, c))
  {
    QuietKeepsLog(b, AckSent(b, c));
  }

  lemma LostAckKeepsLog(b: Bridge, c: ConnId)
    requires c in b.conns && b.conns[c].handler.Acking? && LogInv(b)
    ensures LogInv(AckNotSent(b, c))
  {
    QuietKeepsLog(b, AckNotSent(b, c));
  }

  lemma AckingKeepsLog(b: Bridge, step: Step)
    requires Enabled(b, step) && (step.SubmitFails? || step.SendAck? || step.SendAckFails? || step.ServerClose?)
    requires LogInv(b)
    ensures LogInv(Apply(b, step))
  {
    if step.SendAck? {
      AckKeepsLog(b, step.c);
    } else if step.SendAckFails? {
      LostAckKeepsLog(b, step.c);
    } else {
      QuietKeepsLog(b, Apply(b, step));
    }
  }

  lemma LogStep(b: Bridge, step: Step)
    requires Enabled(b, step) && LogInv(b)
    ensures LogInv(Apply(b, step))
  {
    if !ServerStep(step) {
      ClientKeepsLog(b, step);
    } else if step.ServerReceive? {
      ReceiveKeepsLog(b, step.c);
    } else if step.SubmitOk? {
      SubmitKeepsLog(b, step.c);
    } else {
      AckingKeepsLog(b, step);
    }
  }

  lemma ClientKeepsAcks(b: Bridge, step: Step)
    requires Enabled(b, step) && AckInv(b) && !ServerStep(step)
    ensures AckInv(Apply(b, step))
  {
    if step.ReceiveAck? {
      WithoutMember(b.book.pending, b.conns[b.link.conn].toClient[0].id);
    }
  }

  lemma ReceiveKeepsAcks(b: Bridge, c: ConnId)
    requires c in b.conns && b.conns[c].toServer != [] && b.limit >= 1 && LogInv(b) && AckInv(b)
    ensures AckInv(Received(b, c))
  {
    RecentMember(b.limit, b.log, b.conns[c].toServer[0]);
  }

  // The client side is untouched, the log may grow, and one connection changes.
  lemma ConnKeepsAcks(b: Bridge, next: Bridge, c: ConnId)
    requires AckInv(b) && c in b.conns && c in next.conns && next.conns == b.conns[c := next.conns[c]]
    requires next.book == b.book && next.calls == b.calls && b.log <= next.log
    requires next.conns[c].handler.Acking? && next.conns[c].handler.status != Failed ==> next.conns[c].handler.id in next.log
    requires forall k :: 0 <= k < |next.conns[c].toClient| && next.conns[c].toClient[k].status != Failed ==>
      next.conns[c].toClient[k].id in next.log
    ensures AckInv(next)
  {
    assert forall id :: id in b.log ==> id in next.log;
  }

  lemma SubmitKeepsAcks(b: Bridge, c: ConnId)
    requires AckInv(b) && c in b.conns && b.conns[c].handler.Submitting?
    ensures AckInv(Submitted(b, c))
  {
    ConnKeepsAcks(b, Submitted(b, c), c);
  }

  lemma AckSentKeepsAcks(b: Bridge, c: ConnId)
    requires AckInv(b) && c in b.conns && b.conns[c].handler.Acking?
    ensures AckInv(AckSent(b, c))
  {
    ConnKeepsAcks(b, AckSent(b, c), c);
  }

  lemma RefusalKeepsAcks(b: Bridge, step: Step)
    requires Enabled(b, step) && (step.SubmitFails? || step.SendAckFails? || step.ServerClose?) && AckInv(b)
    ensures AckInv(Apply(b, step))
  {
    var next := Apply(b, step);
    assert next.conns[step.c].toClient == b.conns[step.c].toClient;
    ConnKeepsAcks(b, next, step.c);
  }

  lemma ServerKeepsAcks(b: Bridge, step: Step)
    requires Enabled(b, step) && b.limit >= 1 && LogInv(b) && AckInv(b) && ServerStep(step)
    ensures AckInv(Apply(b, step))
  {
    if step.ServerReceive? {
      ReceiveKeepsAcks(b, step.c);
    } else if step.SubmitOk? {
      SubmitKeepsAcks(b, step.c);
    } else if step.SendAck? {
      AckSentKeepsAcks(b, step.c);
    } else {
      RefusalKeepsAcks(b, step);
    }
  }

  // ---------- no frame is stuck ----------

  lemma AckForTail(acks: seq<Ack>, id: FrameId)
    requires AckFor(acks, id) && acks[0].id != id
    ensures AckFor(acks[1..], id)
  {
    var k :| 0 <= k < |acks| && acks[k].id == id;
    assert acks[1..][k - 1].id == id;
  }

  lemma AckForSnoc(acks: seq<Ack>, ack: Ack, id: FrameId)
    ensures AckFor(acks + [ack], id) <==> AckFor(acks, id) || ack.id == id
  {
    assert (acks + [ack])[|acks|] == ack;
    if k :| 0 <= k < |acks| && acks[k].id == id {
      assert (acks + [ack])[k].id == id;
    }
  }

  predicate Live(b: Bridge) {
    b.link.Up? && b.link.conn in b.conns && !b.link.broken && Resent(b.link.stage)
  }

  lemma ClientKeepsTracked(b: Bridge, step: Step, id: FrameId)
    requires Enabled(b, step) && !ServerStep(step) && AckInv(b) && LinkInv(b)
    requires Live(Apply(b, step)) && id in Apply(b, step).book.pending
    ensures id in Apply(b, step).calls && Tracked(Apply(b, step), id)
  {
    match step
    case ReceiveAck =>
      var ack := b.conns[b.link.conn].toClient[0];
      WithoutMember(b.book.pending, ack.id);
      if ack.id != id && AckFor(b.conns[b.link.conn].toClient, id) {
        AckForTail(b.conns[b.link.conn].toClient, id);
      }
    case HandshakeDone =>
    case _ =>
  }

  lemma ServerKeepsTracked(b: Bridge, step: Step, id: FrameId)
    requires Enabled(b, step) && ServerStep(step) && LinkInv(b)
    requires Live(Apply(b, step)) && id in Apply(b, step).book.pending
    ensures id in Apply(b, step).calls && Tracked(Apply(b, step), id)
  {
    if step.SendAck? {
      var Acking(other, status) := b.conns[step.c].handler;
      AckForSnoc(b.conns[step.c].toClient, Ack(other, status), id);
    }
  }

  lemma LinkStep(b: Bridge, step: Step)
    requires Enabled(b, step) && AckInv(b) && LinkInv(b)
    ensures LinkInv(Apply(b, step))
  {
    var next := Apply(b, step);
    if Live(next) {
      forall id | id in next.book.pending ensures id in next.calls && Tracked(next, id) {
        if ServerStep(step) {
          ServerKeepsTracked(b, step, id);
        } else {
          ClientKeepsTracked(b, step, id);
        }
      }
    }
  }

  lemma StepKeepsInv(b: Bridge, step: Step)
    requires Enabled(b, step) && Inv(b)
    ensures Inv(Apply(b, step))
  {
    LogStep(b, step);
    if ServerStep(step) {
      ServerKeepsAcks(b, step);
    } else {
      ClientKeepsAcks(b, step);
    }
    LinkStep(b, step);
  }

  lemma InitInv(b: Bridge)
    requires Init(b)
    ensures Inv(b)
  {
  }

  lemma {:induction false} RunKeepsInv(b: Bridge, steps: seq<Step>, last: Bridge)
    requires IsRun(b, steps) && Inv(b) && last == RunFrom(b, steps)
    ensures Inv(last)
    decreases |steps|
  {
    if steps != [] {
      StepKeepsInv(b, steps[0]);
      RunKeepsInv(Apply(b, steps[0]), steps[1..], last);
    }
  }

  lemma ReachableInv(b: Bridge)
    requires Reachable(b)
    ensures Inv(b)
  {
    var init, steps :| Init(init) && IsRun(init, steps) && RunFrom(init, steps) == b;
    InitInv(init);
    RunKeepsInv(init, steps, b);
  }

  // ---------- delivery ----------

  // send_inbound returns normally only for a submitted frame, and a frame that is neither
  // submitted nor pending does not exist: nothing is forgotten, even when the call raised.
  lemma ReturnedMeansSubmitted(b: Bridge, id: FrameId)
    requires Reachable(b) && id in b.calls
    ensures b.calls[id] == Returned ==> id in b.log
    ensures id in b.book.pending || id in b.log
  {
    ReachableInv(b);
  }

  // A frame leaves the pending set only when an ok or duplicate ack for it is received, and
  // then it has been submitted.
  lemma PendingLeavesOnAck(b: Bridge, step: Step, id: FrameId)
    requires Reachable(b) && Enabled(b, step) && id in b.book.pending && id !in Apply(b, step).book.pending
    ensures step.ReceiveAck? && b.conns[b.link.conn].toClient[0].id == id
    ensures b.conns[b.link.conn].toClient[0].status in {Ok, Duplicate}
    ensures id in b.log
  {
    ReachableInv(b);
    OnlyAcksUnpend(b, step, id);
  }

  lemma OnlyAcksUnpend(b: Bridge, step: Step, id: FrameId)
    requires Enabled(b, step) && id in b.book.pending && id !in Apply(b, step).book.pending
    ensures step.ReceiveAck? && b.conns[b.link.conn].toClient[0].id == id
    ensures b.conns[b.link.conn].toClient[0].status in {Ok, Duplicate}
  {
    if step.ReceiveAck? {
      WithoutMember(b.book.pending, b.conns[b.link.conn].toClient[0].id);
    }
  }

  // Once a connection is up and everything on it has been processed, the only frames the
  // client still holds are those the server refused on this very connection.
  lemma QuietConnectionDelivers(b: Bridge, id: FrameId)
    requires Reachable(b) && Live(b) && b.link.stage.Steady? && id in b.book.pending && id in b.calls
    requires b.calls[id] != Sending
    requires b.conns[b.link.conn] == Conn([], [], Waiting)
    ensures (b.link.conn, id) in b.refused
  {
    ReachableInv(b);
    assert Tracked(b, id);
  }

  // ---------- duplicates ----------

  // The server submits a received frame exactly when it was never submitted, or at least
  // limit distinct other frames were submitted after it.
  lemma ResubmitIff(b: Bridge, c: ConnId)
    requires Reachable(b) && Enabled(b, ServerReceive(c))
    ensures var id := b.conns[c].toServer[0];
            Apply(b, ServerReceive(c)).conns[c].handler.Submitting? <==>
            id !in b.log || |Ids(AfterLast(b.log, id))| >= b.limit
  {
    ReachableInv(b);
    RecentMember(b.limit, b.log, b.conns[c].toServer[0]);
  }

  // A second submission of the same frame passed its check before the first was recorded, or
  // after at least limit distinct other frames had been.
  lemma DuplicateCauses(b: Bridge, p: nat, q: nat)
    requires Reachable(b) && p < q < |b.log| && b.log[p] == b.log[q]
    ensures |b.checked| == |b.log| && b.checked[q] <= q
    ensures p < b.checked[q] ==> |Ids(AfterLast(b.log[..b.checked[q]], b.log[q]))| >= b.limit
  {
    ReachableInv(b);
    if p < b.checked[q] {
      assert b.log[..b.checked[q]][p] == b.log[q];
      RecentMember(b.limit, b.log[..b.checked[q]], b.log[q]);
    }
  }

  // ---------- at most once, over a run ----------

  lemma {:induction false} RunAppend(b: Bridge, steps: seq<Step>, step: Step)
    requires IsRun(b, steps) && Enabled(RunFrom(b, steps), step)
    ensures IsRun(b, steps + [step])
    ensures RunFrom(b, steps + [step]) == Apply(RunFrom(b, steps), step)
    decreases |steps|
  {
    if steps == [] {
      assert steps + [step] == [step];
      assert [step][1..] == [];
    } else {
      RunAppend(Apply(b, steps[0]), steps[1..], step);
      assert (steps + [step])[1..] == steps[1..] + [step];
    }
  }

  lemma ReachableStep(b: Bridge, step: Step)
    requires Reachable(b) && Enabled(b, step)
    ensures Reachable(Apply(b, step))
  {
    var init, steps :| Init(init) && IsRun(init, steps) && RunFrom(init, steps) == b;
    RunAppend(init, steps, step);
  }

  // The states a run visits.
  ghost predicate IsTrace(states: seq<Bridge>, steps: seq<Step>) {
    && |states| == |steps| + 1 && Init(states[0])
    && forall k :: 0 <= k < |steps| ==> StepsTo(states[k], steps[k], states[k + 1])
  }

  ghost predicate StepsTo(b: Bridge, step: Step, next: Bridge) {
    Enabled(b, step) && Apply(b, step) == next
  }

  lemma {:induction false} TraceReaches(states: seq<Bridge>, steps: seq<Step>, k: nat)
    requires IsTrace(states, steps) && k <= |steps|
    ensures Reachable(states[k])
  {
    if k == 0 {
      assert IsRun(states[0], []) && RunFrom(states[0], []) == states[0];
    } else {
      TraceReaches(states, steps, k - 1);
      assert StepsTo(states[k - 1], steps[k - 1], states[k - 1 + 1]);
      ReachableStep(states[k - 1], steps[k - 1]);
    }
  }

  lemma TraceStep(states: seq<Bridge>, steps: seq<Step>, k: nat)
    requires IsTrace(states, steps) && 0 < k <= |steps|
    ensures Enabled(states[k - 1], steps[k - 1]) && states[k] == Apply(states[k - 1], steps[k - 1])
  {
    assert StepsTo(states[k - 1], steps[k - 1], states[k - 1 + 1]);
  }

  lemma TraceInv(states: seq<Bridge>, steps: seq<Step>, k: nat)
    requires IsTrace(states, steps) && k <= |steps|
    ensures LogInv(states[k]) && AckInv(states[k]) && LinkInv(states[k])
  {
    TraceReaches(states, steps, k);
    ReachableInv(states[k]);
  }

  // Connection c's handler is in the submission of x.
  predicate InSubmission(b: Bridge, c: ConnId, x: FrameId) {
    c in b.conns && b.conns[c].handler.Submitting? && b.conns[c].handler.id == x
  }

  // The submission that c is in at state k succeeds at step j.
  ghost predicate SucceedsAt(states: seq<Bridge>, steps: seq<Step>, k: nat, j: nat, c: ConnId, x: FrameId)
    requires |states| == |steps| + 1
  {
    k <= j < |steps| && steps[j] == SubmitOk(c) && forall i :: k <= i <= j ==> InSubmission(states[i], c, x)
  }

  ghost predicate Succeeds(states: seq<Bridge>, steps: seq<Step>, k: nat, c: ConnId, x: FrameId)
    requires |states| == |steps| + 1
  {
    exists j: nat :: SucceedsAt(states, steps, k, j, c, x)
  }

  // Two handlers are in the submission of x at state k.
  predicate Overlap(b: Bridge, c: ConnId, d: ConnId, x: FrameId) {
    c != d && InSubmission(b, c, x) && InSubmission(b, d, x)
  }

  // Connection c is about to receive x, which was submitted and has been forgotten since.
  ghost predicate Evicted(b: Bridge, c: ConnId, x: FrameId) {
    && c in b.conns && b.conns[c].toServer != [] && b.conns[c].toServer[0] == x
    && x in b.log && |Ids(AfterLast(b.log, x))| >= b.limit
  }

  ghost predicate OverlapSucceeds(states: seq<Bridge>, steps: seq<Step>, k: nat, c: ConnId, d: ConnId, x: FrameId)
    requires |states| == |steps| + 1 && k <= |steps|
  {
    Overlap(states[k], c, d, x) && Succeeds(states, steps, k, c, x) && Succeeds(states, steps, k, d, x)
  }

  ghost predicate EvictionSucceeds(states: seq<Bridge>, steps: seq<Step>, k: nat, c: ConnId, x: FrameId)
    requires |states| == |steps| + 1 && k < |steps|
  {
    steps[k] == ServerReceive(c) && Evicted(states[k], c, x) && Succeeds(states, steps, k + 1, c, x)
  }

  // Only a successful submission adds to the log.
  lemma LogChanges(b: Bridge, step: Step)
    requires Enabled(b, step)
    ensures Apply(b, step).log == b.log + if step.SubmitOk? then [b.conns[step.c].handler.id] else []
  {
  }

  lemma TraceLog(states: seq<Bridge>, steps: seq<Step>, k: nat)
    requires IsTrace(states, steps) && k < |steps|
    ensures Enabled(states[k], steps[k])
    ensures states[k + 1].log == states[k].log + if steps[k].SubmitOk? then [states[k].conns[steps[k].c].handler.id] else []
  {
    assert StepsTo(states[k], steps[k], states[k + 1]);
    LogChanges(states[k], steps[k]);
  }

  lemma CountStep(states: seq<Bridge>, steps: seq<Step>, k: nat, x: FrameId)
    requires IsTrace(states, steps) && k < |steps|
    ensures multiset(states[k].log)[x] <= multiset(states[k + 1].log)[x]
  {
    TraceLog(states, steps, k);
  }

  lemma {:induction false} CountGrows(states: seq<Bridge>, steps: seq<Step>, i: nat, k: nat, x: FrameId)
    requires IsTrace(states, steps) && i <= k <= |steps|
    ensures multiset(states[i].log)[x] <= multiset(states[k].log)[x]
    decreases k
  {
    if i < k {
      CountGrows(states, steps, i, k - 1, x);
      CountStep(states, steps, k - 1, x);
    }
  }

  // A handler comes to its submission only by receiving the frame while it is not remembered.
  lemma EntersSubmission(b: Bridge, step: Step, c: ConnId, x: FrameId)
    requires Enabled(b, step) && InSubmission(Apply(b, step), c, x) && !InSubmission(b, c, x)
    ensures step == ServerReceive(c) && b.conns[c].toServer[0] == x && x !in b.recent
  {
  }

  // Where the submission c is in at state k began.
  lemma {:induction false} SubmissionBegan(states: seq<Bridge>, steps: seq<Step>, k: nat, c: ConnId, x: FrameId) returns (i: nat)
    requires IsTrace(states, steps) && k <= |steps| && InSubmission(states[k], c, x)
    ensures i < k && Enabled(states[i], steps[i]) && steps[i] == ServerReceive(c)
    ensures states[i].conns[c].toServer[0] == x && x !in states[i].recent
    ensures forall m :: i < m <= k ==> InSubmission(states[m], c, x)
  {
    assert k > 0;
    assert StepsTo(states[k - 1], steps[k - 1], states[k - 1 + 1]);
    if InSubmission(states[k - 1], c, x) {
      i := SubmissionBegan(states, steps, k - 1, c, x);
    } else {
      EntersSubmission(states[k - 1], steps[k - 1], c, x);
      i := k - 1;
    }
  }

  // A step between i and k that submitted x, if the log came to hold it in between.
  lemma {:induction false} SubmittedBetween(states: seq<Bridge>, steps: seq<Step>, i: nat, k: nat, x: FrameId) returns (j: nat)
    requires IsTrace(states, steps) && i <= k <= |steps| && x !in states[i].log && x in states[k].log
    ensures i <= j < k && steps[j].SubmitOk? && InSubmission(states[j], steps[j].c, x)
    decreases k
  {
    TraceLog(states, steps, k - 1);
    if x in states[k - 1].log {
      j := SubmittedBetween(states, steps, i, k - 1, x);
    } else {
      j := k - 1;
    }
  }

  // The step that submitted x for the second time.
  lemma {:induction false} SecondSubmission(states: seq<Bridge>, steps: seq<Step>, n: nat, x: FrameId) returns (k: nat)
    requires IsTrace(states, steps) && n <= |steps| && multiset(states[n].log)[x] >= 2
    ensures k < n && steps[k].SubmitOk? && InSubmission(states[k], steps[k].c, x) && x in states[k].log
  {
    assert n > 0;
    TraceLog(states, steps, n - 1);
    if multiset(states[n - 1].log)[x] >= 2 {
      k := SecondSubmission(states, steps, n - 1, x);
    } else {
      k := n - 1;
      assert multiset(states[k].log)[x] == 1;
    }
  }

  // A second submission overlapped the first one, or began after an eviction.
  lemma TwiceHasCause(states: seq<Bridge>, steps: seq<Step>, x: FrameId)
    requires IsTrace(states, steps) && multiset(states[|steps|].log)[x] >= 2
    ensures (exists k, c, d :: 0 <= k <= |steps| && OverlapSucceeds(states, steps, k, c, d, x))
         || (exists k, c :: 0 <= k < |steps| && EvictionSucceeds(states, steps, k, c, x))
  {
    var k := SecondSubmission(states, steps, |steps|, x);
    var c := steps[k].c;
    var i := SubmissionBegan(states, steps, k, c, x);
    TraceReaches(states, steps, i);
    ReachableInv(states[i]);
    RecentMember(states[i].limit, states[i].log, x);
    if x in states[i].log {
      assert SucceedsAt(states, steps, i + 1, k, c, x);
      assert EvictionSucceeds(states, steps, i, c, x);
    } else {
      var j := SubmittedBetween(states, steps, i, k, x);
      OverlapsAt(states, steps, i, j, k, x);
      assert OverlapSucceeds(states, steps, j, c, steps[j].c, x);
    }
  }

  // A submission that succeeds at j, in the middle of another that began at i and succeeds at k.
  lemma OverlapsAt(states: seq<Bridge>, steps: seq<Step>, i: nat, j: nat, k: nat, x: FrameId)
    requires IsTrace(states, steps) && i <= j < k < |steps| && steps[i].ServerReceive?
    requires steps[k].SubmitOk? && steps[j].SubmitOk? && InSubmission(states[j], steps[j].c, x)
    requires forall m :: i < m <= k ==> InSubmission(states[m], steps[k].c, x)
    ensures OverlapSucceeds(states, steps, j, steps[k].c, steps[j].c, x)
  {
    assert StepsTo(states[j], steps[j], states[j + 1]);
    assert InSubmission(states[j + 1], steps[k].c, x);
    assert SucceedsAt(states, steps, j, k, steps[k].c, x);
    assert SucceedsAt(states, steps, j, j, steps[j].c, x);
  }

  // A submission of x that succeeds adds one to its count.
  lemma SuccessCounts(states: seq<Bridge>, steps: seq<Step>, k: nat, j: nat, c: ConnId, x: FrameId)
    requires IsTrace(states, steps) && SucceedsAt(states, steps, k, j, c, x)
    ensures multiset(states[j + 1].log)[x] == multiset(states[j].log)[x] + 1
  {
    TraceLog(states, steps, j);
  }

  lemma OverlapCounts(states: seq<Bridge>, steps: seq<Step>, k: nat, c: ConnId, d: ConnId, x: FrameId)
    requires IsTrace(states, steps) && k <= |steps| && OverlapSucceeds(states, steps, k, c, d, x)
    ensures multiset(states[|steps|].log)[x] >= 2
  {
    var j: nat :| SucceedsAt(states, steps, k, j, c, x);
    var l: nat :| SucceedsAt(states, steps, k, l, d, x);
    SuccessCounts(states, steps, k, j, c, x);
    SuccessCounts(states, steps, k, l, d, x);
    var first, last := if j < l then j else l, if j < l then l else j;
    CountGrows(states, steps, first + 1, last, x);
    CountGrows(states, steps, last + 1, |steps|, x);
  }

  lemma EvictionCounts(states: seq<Bridge>, steps: seq<Step>, k: nat, c: ConnId, x: FrameId)
    requires IsTrace(states, steps) && k < |steps| && EvictionSucceeds(states, steps, k, c, x)
    ensures multiset(states[|steps|].log)[x] >= 2
  {
    var j: nat :| SucceedsAt(states, steps, k + 1, j, c, x);
    SuccessCounts(states, steps, k + 1, j, c, x);
    CountGrows(states, steps, k, j, x);
    CountGrows(states, steps, j + 1, |steps|, x);
  }

  // Over every run: a frame is submitted at most once exactly if no two submissions of it that
  // both succeed are under way at once, and none that succeeds begins after it was submitted and
  // at least limit distinct other frames since.
  lemma AtMostOnce(states: seq<Bridge>, steps: seq<Step>, x: FrameId)
    requires IsTrace(states, steps)
    ensures multiset(states[|steps|].log)[x] <= 1 <==>
            && (forall k, c, d :: 0 <= k <= |steps| ==> !OverlapSucceeds(states, steps, k, c, d, x))
            && (forall k, c :: 0 <= k < |steps| ==> !EvictionSucceeds(states, steps, k, c, x))
  {
    if multiset(states[|steps|].log)[x] >= 2 {
      TwiceHasCause(states, steps, x);
    }
    if k, c, d :| 0 <= k <= |steps| && OverlapSucceeds(states, steps, k, c, d, x) {
      OverlapCounts(states, steps, k, c, d, x);
    }
    if k, c :| 0 <= k < |steps| && EvictionSucceeds(states, steps, k, c, x) {
      EvictionCounts(states, steps, k, c, x);
    }
  }

  // So it is enough that no two handlers are ever in the submission of x at once, and that x is
  // never received again once it has been forgotten.
  lemma GuardedAtMostOnce(states: seq<Bridge>, steps: seq<Step>, x: FrameId)
    requires IsTrace(states, steps)
    requires forall k, c, d :: 0 <= k <= |steps| ==> !Overlap(states[k], c, d, x)
    requires forall k, c :: 0 <= k < |steps| && steps[k] == ServerReceive(c) ==> !Evicted(states[k], c, x)
    ensures multiset(states[|steps|].log)[x] <= 1
  {
    AtMostOnce(states, steps, x);
  }

  // ---------- what a call answers ----------

  // Taking an ack answers the caller waiting for it, with the ack's own status, and no one else.
  lemma AckAnswers(b: Bridge, id: FrameId)
    requires Enabled(b, ReceiveAck)
    ensures var ack, next := b.conns[b.link.conn].toClient[0], Apply(b, ReceiveAck);
            && (ack.id in b.book.waiters ==> ack.id in next.book.results && next.book.results[ack.id] == ack.status)
            && ack.id !in next.book.waiters
            && [ack] + next.conns[b.link.conn].toClient == b.conns[b.link.conn].toClient
            && (id != ack.id || id !in b.book.waiters ==>
                  (id in next.book.results <==> id in b.book.results)
                  && (id in b.book.results ==> next.book.results[id] == b.book.results[id]))
            && (id != ack.id ==> (id in next.book.waiters <==> id in b.book.waiters))
  {
  }

  // Once everything is resent the client takes acks again.
  lemma ResendEnds(b: Bridge)
    requires Enabled(b, ResendDone) && b.link.conn in b.conns && b.conns[b.link.conn].toClient != []
    ensures Enabled(Apply(b, ResendDone), ReceiveAck)
  {
  }

  // The step takes an ack for the frame, whose call has begun.
  predicate TakesAck(b: Bridge, step: Step, id: FrameId) {
    && step.ReceiveAck? && b.link.Up? && b.link.conn in b.conns && b.conns[b.link.conn].toClient != []
    && b.conns[b.link.conn].toClient[0].id == id && id in b.calls
  }

  // The first ack the client took for the frame, in the first k steps.
  function Answer(states: seq<Bridge>, steps: seq<Step>, k: nat, id: FrameId): Option<Status>
    requires k <= |steps| && |states| == |steps| + 1
  {
    if k == 0 then None
    else
      var earlier := Answer(states, steps, k - 1, id);
      if earlier.Some? then earlier
      else if TakesAck(states[k - 1], steps[k - 1], id) then
        Some(states[k - 1].conns[states[k - 1].link.conn].toClient[0].status)
      else None
  }

  predicate SendFailed(steps: seq<Step>, k: nat, id: FrameId)
    requires k <= |steps|
  {
    exists i :: 0 <= i < k && steps[i] == FirstSendFails(id)
  }

  // A call waits until its answer, and ends by it unless its first send failed.
  predicate CallInv(b: Bridge, id: FrameId, answer: Option<Status>, failed: bool) {
    && (id !in b.calls ==> answer.None? && !failed && id !in b.book.results && id !in b.book.waiters)
    && (id in b.calls ==>
          && (id in b.book.waiters <==> answer.None?)
          && (if id in b.book.results then answer == Some(b.book.results[id]) else answer.None?)
          && (failed ==> b.calls[id] == Raised)
          && (b.calls[id] == Returned ==> answer.Some? && answer.value != Failed)
          && (b.calls[id] == Raised ==> failed || answer == Some(Failed)))
  }

  lemma CallStep(b: Bridge, step: Step, id: FrameId, answer: Option<Status>, failed: bool)
    requires Enabled(b, step) && CallInv(b, id, answer, failed)
    ensures var now := if answer.None? && TakesAck(b, step, id) then Some(b.conns[b.link.conn].toClient[0].status) else answer;
            CallInv(Apply(b, step), id, now, failed || step == FirstSendFails(id))
  {
  }

  lemma {:induction false} TraceCalls(states: seq<Bridge>, steps: seq<Step>, k: nat, id: FrameId)
    requires IsTrace(states, steps) && k <= |steps|
    ensures CallInv(states[k], id, Answer(states, steps, k, id), SendFailed(steps, k, id))
  {
    if k > 0 {
      TraceCalls(states, steps, k - 1, id);
      assert StepsTo(states[k - 1], steps[k - 1], states[k - 1 + 1]);
      CallStep(states[k - 1], steps[k - 1], id, Answer(states, steps, k - 1, id), SendFailed(steps, k - 1, id));
      assert SendFailed(steps, k, id) <==> SendFailed(steps, k - 1, id) || steps[k - 1] == FirstSendFails(id);
    }
  }

  predicate Over(b: Bridge, id: FrameId) {
    id in b.calls && (b.calls[id] == Returned || b.calls[id] == Raised)
  }

  // Over every run: a call that is over returned exactly if its first send went out and the first
  // ack taken for it was ok or duplicate, and raised exactly if that send failed or that ack was
  // a failure. One that awaits its answer can end as soon as an ack for it was taken.
  lemma CallEndsByAnswer(states: seq<Bridge>, steps: seq<Step>, id: FrameId)
    requires IsTrace(states, steps) && id in states[|steps|].calls
    ensures var b, answer, failed := states[|steps|], Answer(states, steps, |steps|, id), SendFailed(steps, |steps|, id);
            && (Over(b, id) ==>
                  && (b.calls[id] == Returned <==> !failed && answer in {Some(Ok), Some(Duplicate)})
                  && (b.calls[id] == Raised <==> failed || answer == Some(Failed)))
            && (Enabled(b, FinishCall(id)) <==> b.calls[id] == Awaiting && answer.Some?)
            && (id in b.book.waiters <==> answer.None?)
  {
    TraceCalls(states, steps, |steps|, id);
  }

  // ---------- what an ack says ----------

  predicate AtStep(steps: seq<Step>, j: int, k: nat) {
    0 <= j < k <= |steps|
  }

  // Step j is what an ack of this status on connection c says: a submission that succeeded, a
  // frame received while it was remembered, or a submission or the sending of an ok ack that failed.
  ghost predicate Says(states: seq<Bridge>, steps: seq<Step>, j: nat, c: ConnId, ack: Ack)
    requires |states| == |steps| + 1 && j < |steps|
  {
    var b := states[j];
    c in b.conns &&
    match ack.status
    case Ok => steps[j] == SubmitOk(c) && b.conns[c].handler.Submitting? && b.conns[c].handler.id == ack.id
    case Duplicate =>
      steps[j] == ServerReceive(c) && b.conns[c].toServer != [] && b.conns[c].toServer[0] == ack.id
      && ack.id in b.log && |Ids(AfterLast(b.log, ack.id))| < b.limit
    case Failed =>
      || (steps[j] == SubmitFails(c) && b.conns[c].handler.Submitting? && b.conns[c].handler.id == ack.id)
      || (steps[j] == SendAckFails(c) && b.conns[c].handler == Acking(ack.id, Ok))
  }

  ghost predicate Said(states: seq<Bridge>, steps: seq<Step>, k: nat, c: ConnId, ack: Ack)
    requires |states| == |steps| + 1
  {
    exists j: nat :: AtStep(steps, j, k) && Says(states, steps, j, c, ack)
  }

  // Where an ack of connection c is: on its way to the client, or about to be sent.
  predicate AckOn(b: Bridge, c: ConnId, ack: Ack) {
    c in b.conns && (ack in b.conns[c].toClient || b.conns[c].handler == Acking(ack.id, ack.status))
  }

  lemma SaidLater(states: seq<Bridge>, steps: seq<Step>, k: nat, c: ConnId, ack: Ack)
    requires |states| == |steps| + 1 && k < |steps| && Said(states, steps, k, c, ack)
    ensures Said(states, steps, k + 1, c, ack)
  {
    var j: nat :| AtStep(steps, j, k) && Says(states, steps, j, c, ack);
    assert AtStep(steps, j, k + 1);
  }

  // An ack that was not there before the step is what the step says.
  lemma NewAckSays(b: Bridge, step: Step, c: ConnId, ack: Ack)
    requires Enabled(b, step) && AckOn(Apply(b, step), c, ack) && !AckOn(b, c, ack)
    ensures c in b.conns
    ensures match ack.status
            case Ok => step == SubmitOk(c) && b.conns[c].handler.id == ack.id
            case Duplicate => step == ServerReceive(c) && b.conns[c].toServer[0] == ack.id && ack.id in b.recent
            case Failed => (step == SubmitFails(c) && b.conns[c].handler.id == ack.id)
                           || (step == SendAckFails(c) && b.conns[c].handler == Acking(ack.id, Ok))
  {
  }

  // Over every run: each ack, on its way or about to be sent, tells what happened to its frame on
  // that connection.
  lemma {:induction false} AcksTellTheTruth(states: seq<Bridge>, steps: seq<Step>, k: nat, c: ConnId, ack: Ack)
    requires IsTrace(states, steps) && k <= |steps| && AckOn(states[k], c, ack)
    ensures Said(states, steps, k, c, ack)
  {
    assert k > 0;
    var b := states[k - 1];
    assert StepsTo(b, steps[k - 1], states[k - 1 + 1]);
    if AckOn(b, c, ack) {
      AcksTellTheTruth(states, steps, k - 1, c, ack);
      SaidLater(states, steps, k - 1, c, ack);
    } else {
      NewAckSays(b, steps[k - 1], c, ack);
      TraceReaches(states, steps, k - 1);
      ReachableInv(b);
      RecentMember(b.limit, b.log, ack.id);
      assert AtStep(steps, k - 1, k) && Says(states, steps, k - 1, c, ack);
    }
  }

  // A handler that cannot send its ok ack tries a failed one, and one that cannot send any other
  // ends, which breaks the client's link if that is over its connection.
  lemma LostAck(b: Bridge, c: ConnId)
    requires Enabled(b, SendAckFails(c))
    ensures var next, handler := Apply(b, SendAckFails(c)), b.conns[c].handler;
            && (handler.status == Ok <==> next.conns[c].handler == Acking(handler.id, Failed))
            && (handler.status != Ok <==> next.conns[c].handler == Closed)
            && next.conns[c].toClient == b.conns[c].toClient && next.log == b.log && next.book == b.book
            && (handler.status != Ok && b.link.Up? && b.link.conn == c ==> next.link.broken)
  {
  }

  // ---------- in which order frames are resent ----------

  function BegunAfter(step: Step, begun: seq<FrameId>): seq<FrameId> {
    if step.Begin? then begun + [step.id] else begun
  }

  // The frames of the calls begun in the first k steps, in order.
  function Begun(steps: seq<Step>, k: nat): seq<FrameId>
    requires k <= |steps|
  {
    if k == 0 then [] else BegunAfter(steps[k - 1], Begun(steps, k - 1))
  }

  // Those of them for which no ok or duplicate ack was taken.
  function Unanswered(begun: seq<FrameId>, done: set<FrameId>): seq<FrameId> {
    if begun == [] then []
    else
      Unanswered(begun[..|begun| - 1], done)
      + if begun[|begun| - 1] in done then [] else [begun[|begun| - 1]]
  }

  // The frames answered so far, after a step: an ok or duplicate ack for a begun call adds one.
  function DoneAfter(b: Bridge, step: Step, done: set<FrameId>): set<FrameId> {
    if step.ReceiveAck? && b.link.Up? && b.link.conn in b.conns && b.conns[b.link.conn].toClient != [] then
      var ack := b.conns[b.link.conn].toClient[0];
      if ack.status in {Ok, Duplicate} && ack.id in b.calls then done + {ack.id} else done
    else done
  }

  function Done(states: seq<Bridge>, steps: seq<Step>, k: nat): set<FrameId>
    requires k <= |steps| && |states| == |steps| + 1
  {
    if k == 0 then {} else DoneAfter(states[k - 1], steps[k - 1], Done(states, steps, k - 1))
  }

  lemma {:induction false} UnansweredWithout(begun: seq<FrameId>, done: set<FrameId>, id: FrameId)
    ensures Without(Unanswered(begun, done), id) == Unanswered(begun, done + {id})
  {
    if begun != [] {
      var front, last := begun[..|begun| - 1], begun[|begun| - 1];
      UnansweredWithout(front, done, id);
      WithoutConcat(Unanswered(front, done), if last in done then [] else [last], id);
      assert [last][..0] == [];
    }
  }

  lemma UnansweredSnoc(begun: seq<FrameId>, done: set<FrameId>, id: FrameId)
    requires id !in done
    ensures Unanswered(begun + [id], done) == Unanswered(begun, done) + [id]
  {
    assert (begun + [id])[..|begun|] == begun;
  }

  lemma AnswerTakesOut(book: ClientBook, ack: Ack, begun: seq<FrameId>, done: set<FrameId>)
    requires book.pending == Unanswered(begun, done)
    ensures AckReceived(book, ack).pending == Unanswered(begun, if ack.status != Failed then done + {ack.id} else done)
  {
    UnansweredWithout(begun, done, ack.id);
  }

  lemma AckKeepsOrder(b: Bridge, begun: seq<FrameId>, done: set<FrameId>)
    requires Enabled(b, ReceiveAck) && AckInv(b) && b.book.pending == Unanswered(begun, done)
    ensures Apply(b, ReceiveAck).book.pending == Unanswered(begun, DoneAfter(b, ReceiveAck, done))
  {
    var ack := b.conns[b.link.conn].toClient[0];
    assert Apply(b, ReceiveAck).book == AckReceived(b.book, ack);
    if ack.id in b.calls {
      AnswerTakesOut(b.book, ack, begun, done);
    } else {
      assert ack.id !in b.book.pending;
      WithoutAbsent(b.book.pending, ack.id);
    }
  }

  lemma OtherKeepsBook(b: Bridge, step: Step)
    requires Enabled(b, step) && !step.Begin? && !step.ReceiveAck?
    ensures Apply(b, step).book == b.book && b.calls.Keys <= Apply(b, step).calls.Keys
  {
  }

  ghost predicate InOrder(b: Bridge, begun: seq<FrameId>, done: set<FrameId>) {
    b.book.pending == Unanswered(begun, done) && done <= b.calls.Keys
  }

  lemma StepKeepsOrder(b: Bridge, step: Step, begun: seq<FrameId>, done: set<FrameId>)
    requires Enabled(b, step) && AckInv(b) && InOrder(b, begun, done)
    ensures InOrder(Apply(b, step), BegunAfter(step, begun), DoneAfter(b, step, done))
  {
    if step.Begin? {
      UnansweredSnoc(begun, done, step.id);
    } else if step.ReceiveAck? {
      AckKeepsOrder(b, begun, done);
    } else {
      OtherKeepsBook(b, step);
    }
  }

  // Over every run: the frames the client would resend are those begun and not answered, in the
  // order their calls began.
  lemma {:induction false} PendingInOrder(states: seq<Bridge>, steps: seq<Step>, k: nat)
    requires IsTrace(states, steps) && k <= |steps|
    ensures InOrder(states[k], Begun(steps, k), Done(states, steps, k))
  {
    if k > 0 {
      PendingInOrder(states, steps, k - 1);
      TraceStep(states, steps, k);
      assert AckInv(states[k - 1]) by {
        TraceInv(states, steps, k - 1);
      }
      StepKeepsOrder(states[k - 1], steps[k - 1], Begun(steps, k - 1), Done(states, steps, k - 1));
    }
  }

  // ---------- each connection keeps its order ----------

  // The frame a step sends on connection c, if any: the first send of a call, or a resend.
  function SentBy(b: Bridge, step: Step, c: ConnId): seq<FrameId> {
    if b.link.Up? && b.link.conn == c then
      if step.FirstSend? then [step.id]
      else if step.ResendNext? && b.link.stage.Resending? && b.link.stage.rest != [] then [b.link.stage.rest[0]]
      else []
    else []
  }

  function ReadBy(b: Bridge, step: Step, c: ConnId): seq<FrameId> {
    if step == ServerReceive(c) && c in b.conns && b.conns[c].toServer != [] then [b.conns[c].toServer[0]] else []
  }

  function SentOn(states: seq<Bridge>, steps: seq<Step>, k: nat, c: ConnId): seq<FrameId>
    requires k <= |steps| && |states| == |steps| + 1
  {
    if k == 0 then [] else SentOn(states, steps, k - 1, c) + SentBy(states[k - 1], steps[k - 1], c)
  }

  function ReadOn(states: seq<Bridge>, steps: seq<Step>, k: nat, c: ConnId): seq<FrameId>
    requires k <= |steps| && |states| == |steps| + 1
  {
    if k == 0 then [] else ReadOn(states, steps, k - 1, c) + ReadBy(states[k - 1], steps[k - 1], c)
  }

  function Underway(b: Bridge, c: ConnId): seq<FrameId> {
    if c in b.conns then b.conns[c].toServer else []
  }

  lemma ServerUnderway(b: Bridge, step: Step, c: ConnId)
    requires Enabled(b, step) && ServerStep(step)
    ensures ReadBy(b, step, c) + Underway(Apply(b, step), c) == Underway(b, c) && SentBy(b, step, c) == []
  {
  }

  lemma UnderwayStep(b: Bridge, step: Step, c: ConnId)
    requires Enabled(b, step) && LinkInv(b)
    ensures ReadBy(b, step, c) + Underway(Apply(b, step), c) == Underway(b, c) + SentBy(b, step, c)
  {
    if ServerStep(step) {
      ServerUnderway(b, step, c);
    }
  }

  lemma SameSum(r: seq<FrameId>, x: seq<FrameId>, after: seq<FrameId>, before: seq<FrameId>, y: seq<FrameId>)
    requires x + after == before + y
    ensures (r + x) + after == (r + before) + y
  {
    assert (r + x) + after == r + (x + after) && (r + before) + y == r + (before + y);
  }

  // Over every run: on each connection the server has read the first of the frames sent on it, in
  // order, and the others are on their way.
  lemma {:induction false} ServerReadsInOrder(states: seq<Bridge>, steps: seq<Step>, k: nat, c: ConnId)
    requires IsTrace(states, steps) && k <= |steps|
    ensures ReadOn(states, steps, k, c) + Underway(states[k], c) == SentOn(states, steps, k, c)
  {
    if k > 0 {
      var b, step := states[k - 1], steps[k - 1];
      ServerReadsInOrder(states, steps, k - 1, c);
      TraceStep(states, steps, k);
      assert ReadBy(b, step, c) + Underway(states[k], c) == Underway(b, c) + SentBy(b, step, c) by {
        TraceInv(states, steps, k - 1);
        UnderwayStep(b, step, c);
      }
      SameSum(ReadOn(states, steps, k - 1, c), ReadBy(b, step, c), Underway(states[k], c), Underway(b, c), SentBy(b, step, c));
    }
  }

  // ---------- overlapping handlers submit twice ----------

  // The client connects, and resends its only frame if it has one.
  lemma ConnectAndResume(b: Bridge) returns (next: Bridge)
    requires Reachable(b) && b.link.Down?
    ensures Reachable(next)
    ensures next == b.(link := Up(b.nextConn, Resending(b.book.pending), false), wasReady := true,
                       nextConn := b.nextConn + 1, conns := b.conns[b.nextConn := Conn([], [], Waiting)])
  {
    ReachableStep(b, Connect);
    var s := Apply(b, Connect);
    ReachableStep(s, HelloAcked);
    s := Apply(s, HelloAcked);
    ReachableStep(s, HandshakeDone);
    next := Apply(s, HandshakeDone);
  }

  // A frame waiting on connection c reaches its submission.
  lemma StartSubmission(b: Bridge, c: ConnId) returns (next: Bridge)
    requires Reachable(b) && c in b.conns && b.conns[c] == Conn([0], [], Waiting) && b.recent == [] && b.log == []
    ensures Reachable(next) && next == b.(conns := b.conns[c := Conn([], [], Submitting(0, 0))])
  {
    ReachableStep(b, ServerReceive(c));
    next := Received(b, c);
    assert [0][1..] == [];
    assert next.conns == b.conns[c := Conn([], [], Submitting(0, 0))];
  }

  // The first connection: a call sends frame 0 on it, and the server starts to submit it.
  lemma SendOnFirst(limit: nat) returns (b: Bridge)
    requires limit >= 1
    ensures Reachable(b) && b.limit == limit && b.recent == [] && b.log == [] && b.link.Up? && b.nextConn == 1
    ensures b.book.pending == [0] && b.conns == map[0 := Conn([], [], Submitting(0, 0))]
  {
    b := Bridge(limit, Down, false, map[], 0, ClientBook([], {}, map[]), map[], [], [], [], {});
    assert IsRun(b, []) && RunFrom(b, []) == b;
    b := ConnectAndResume(b);
    ReachableStep(b, Begin(0));
    b := Apply(b, Begin(0));
    ReachableStep(b, FirstSend(0));
    b := Apply(b, FirstSend(0));
    assert b.conns[0] == Conn([0], [], Waiting);
    b := StartSubmission(b, 0);
  }

  // Its connection drops, and the client resends the frame on a second one.
  lemma ResendOnSecond(b: Bridge) returns (next: Bridge)
    requires Reachable(b) && b.recent == [] && b.log == [] && b.link.Up? && b.nextConn == 1
    requires b.book.pending == [0] && b.conns == map[0 := Conn([], [], Submitting(0, 0))]
    ensures Reachable(next) && next.limit == b.limit && next.recent == [] && next.log == []
    ensures next.conns == map[0 := Conn([], [], Submitting(0, 0)), 1 := Conn([], [], Submitting(0, 0))]
  {
    ReachableStep(b, Drop);
    var s := ConnectAndResume(Apply(b, Drop));
    ReachableStep(s, ResendNext);
    s := Apply(s, ResendNext);
    assert s.conns[1] == Conn([0], [], Waiting);
    next := StartSubmission(s, 1);
  }

  // For every limit, two connections whose handlers overlap submit the same frame twice.
  lemma OverlapSubmitsTwice(limit: nat)
    requires limit >= 1
    ensures exists b :: Reachable(b) && b.limit == limit && b.log == [0, 0]
  {
    var s := SendOnFirst(limit);
    s := ResendOnSecond(s);
    ReachableStep(s, SubmitOk(0));
    s := Submitted(s, 0);
    ReachableStep(s, SubmitOk(1));
    s := Submitted(s, 1);
    assert s.log == [0, 0];
  }
}
