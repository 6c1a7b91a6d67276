// Outbound frames over the gateway bridge (fairyclaw/bridge/user_gateway.py and
// fairyclaw/gateway/bridge/ws_client.py): a bounded backlog of pushed frames, replayed on
// resume, dispatched by the gateway off its receive loop and acked on whatever connection is
// then current.
module BridgeOutbound {
  import opened Wrappers
  import opened RecentFrames

  type ConnId = nat

  // The server's shared outbound state: the active socket, the bounded deque and the acks.
  datatype OutBook = OutBook(active: Option<ConnId>, backlog: seq<FrameId>, acked: set<FrameId>)

  function FramePushed(book: OutBook, maxlen: nat, id: FrameId): OutBook {
    book.(backlog := Suffix(book.backlog + [id], maxlen))
  }

  // The frames a replay sends, in order.
  function Unacked(backlog: seq<FrameId>, acked: set<FrameId>): seq<FrameId> {
    if backlog == [] then []
    else
      var last := backlog[|backlog| - 1];
      Unacked(backlog[..|backlog| - 1], acked) + if last in acked then [] else [last]
  }

  function HandlerEnded(book: OutBook, c: ConnId): OutBook {
    if book.active == Some(c) then book.(active := None) else book
  }

  class UserGateway {
    const maxlen: nat
    var activeWebsocket: Option<ConnId>
    var outboundBacklog: seq<FrameId>
    var ackedOutbound: set<FrameId>

    constructor (backlogSize: nat)
      ensures maxlen == backlogSize && View() == OutBook(None, [], {})
    {
      maxlen := backlogSize;
      activeWebsocket, outboundBacklog, ackedOutbound := None, [], {};
    }

    function View(): OutBook
      reads this
    {
      OutBook(activeWebsocket, outboundBacklog, ackedOutbound)
    }

    // The locked block of push_outbound; the frame is then sent to the returned socket.
    method PushOutbound(id: FrameId) returns (websocket: Option<ConnId>)
      modifies this
      ensures View() == FramePushed(old(View()), maxlen, id)
      ensures websocket == old(activeWebsocket)
    {
      outboundBacklog := outboundBacklog + [id];
      if |outboundBacklog| > maxlen {
        outboundBacklog := outboundBacklog[|outboundBacklog| - maxlen..];
      }
      websocket := activeWebsocket;
    }

    // _replay_backlog: the frames sent, in order.
    method ReplayBacklog() returns (sent: seq<FrameId>)
      ensures sent == Unacked(outboundBacklog, ackedOutbound)
    {
      var frames, acked := outboundBacklog, ackedOutbound;
      sent := [];
      var i := 0;
      while i < |frames|
        invariant i <= |frames|
        invariant sent == Unacked(frames[..i], acked)
      {
        assert frames[..i + 1][..i] == frames[..i];
        if frames[i] !in acked {
          sent := sent + [frames[i]];
        }
        i := i + 1;
      }
      assert frames[..|frames|] == frames;
    }

    method AcceptHello(c: ConnId)
      modifies this
      ensures View() == old(View()).(active := Some(c))
    {
      activeWebsocket := Some(c);
    }

    method HandleOutboundAck(id: FrameId, ok: bool)
      modifies this
      ensures View() == old(View()).(acked := old(ackedOutbound) + if ok then {id} else {})
    {
      if ok {
        ackedOutbound := ackedOutbound + {id};
      }
    }

    // The finally block of handle_connection.
    method ConnectionEnded(c: ConnId)
      modifies this
      ensures View() == HandlerEnded(old(View()), c)
    {
      if activeWebsocket == Some(c) {
        activeWebsocket := None;
      }
    }
  }

  // at lists, in increasing order, the positions of the unacked frames.
  ghost predicate PicksUnacked(at: seq<nat>, backlog: seq<FrameId>, acked: set<FrameId>) {
    && (forall k :: 0 <= k < |at| ==> at[k] < |backlog| && backlog[at[k]] !in acked)
    && (forall j, k :: 0 <= j < k < |at| ==> at[j] < at[k])
    && (forall i :: 0 <= i < |backlog| && backlog[i] !in acked ==> i in at)
  }

  lemma PicksSkip(at: seq<nat>, backlog: seq<FrameId>, acked: set<FrameId>, x: FrameId)
    requires PicksUnacked(at, backlog, acked) && x in acked
    ensures PicksUnacked(at, backlog + [x], acked)
  {
    forall i | 0 <= i < |backlog + [x]| && (backlog + [x])[i] !in acked ensures i in at {
      assert i < |backlog| && backlog[i] !in acked;
    }
  }

  lemma PicksSnoc(at: seq<nat>, backlog: seq<FrameId>, acked: set<FrameId>, x: FrameId)
    requires PicksUnacked(at, backlog, acked) && x !in acked
    ensures PicksUnacked(at + [|backlog|], backlog + [x], acked)
  {
    var all := at + [|backlog|];
    forall i | 0 <= i < |backlog + [x]| && (backlog + [x])[i] !in acked ensures i in all {
      if i < |backlog| {
        assert backlog[i] !in acked && i in at;
      } else {
        assert all[|at|] == i;
      }
    }
  }

  function Select(backlog: seq<FrameId>, at: seq<nat>): seq<FrameId>
    requires forall k :: 0 <= k < |at| ==> at[k] < |backlog|
  {
    seq(|at|, k requires 0 <= k < |at| => backlog[at[k]])
  }

  lemma SelectSnoc(backlog: seq<FrameId>, at: seq<nat>, x: FrameId)
    requires forall k :: 0 <= k < |at| ==> at[k] < |backlog|
    ensures Select(backlog + [x], at) == Select(backlog, at)
    ensures Select(backlog + [x], at + [|backlog|]) == Select(backlog, at) + [x]
  {
  }

  // A replay sends exactly the unacked frames of the backlog, in push order.
  lemma {:induction false} ReplayInOrder(backlog: seq<FrameId>, acked: set<FrameId>) returns (at: seq<nat>)
    ensures PicksUnacked(at, backlog, acked) && Unacked(backlog, acked) == Select(backlog, at)
  {
    at := [];
    if backlog != [] {
      var front, last := backlog[..|backlog| - 1], backlog[|backlog| - 1];
      assert front + [last] == backlog;
      var picked := ReplayInOrder(front, acked);
      SelectSnoc(front, picked, last);
      if last in acked {
        PicksSkip(picked, front, acked, last);
        at := picked;
      } else {
        PicksSnoc(picked, front, acked, last);
        at := picked + [|front|];
      }
    }
  }

  // ---------- the protocol as a transition system ----------

  datatype UpFrame = Hello | Resume | OutAck(id: FrameId, ok: bool)

  datatype DownFrame = HelloAck | Outbound(id: FrameId)

  datatype Handler = Waiting | SendingHelloAck | Replaying(rest: seq<FrameId>) | Closed

  datatype Conn = Conn(toServer: seq<UpFrame>, toClient: seq<DownFrame>, handler: Handler)

  datatype Stage = AwaitHelloAck | SendingResume | Steady

  // broken: a send on the client's socket would raise.
  datatype Link = Down | Up(conn: ConnId, stage: Stage, broken: bool)

  datatype TaskPhase = Dispatching | AckingOk | AckingFailed

  // One _dispatch_outbound_and_ack task, for a frame received on connection from.
  datatype Task = Task(id: FrameId, from: ConnId, phase: TaskPhase)

  // pushed is every frame ever pushed and pushedTo the socket each was to be sent on; sends
  // are the pushes still waiting for the send lock. resumedAt records how many frames had been
  // pushed when a connection's resume was handled, nacked the failed acks by connection, greeted
  // whose hello was handled last, and failures the frames whose dispatch, or the sending of whose
  // ok ack, failed.
  datatype Bridge = Bridge(
    maxlen: nat,
    link: Link,
    conns: map<ConnId, Conn>,
    nextConn: ConnId,
    book: OutBook,
    pushed: seq<FrameId>,
    pushedTo: seq<Option<ConnId>>,
    sends: set<(ConnId, FrameId)>,
    tasks: map<nat, Task>,
    nextTask: nat,
    dispatched: set<FrameId>,
    resumedAt: map<ConnId, nat>,
    nacked: set<(ConnId, FrameId)>,
    greeted: Option<ConnId>,
    failures: set<FrameId>)

  datatype Step =
    | Connect
    | Break
    | Drop
    | PushFrame(id: FrameId)
    | SendPushed(c: ConnId, id: FrameId)
    | SendPushedFails(c: ConnId, id: FrameId)
    | ServerReceive(c: ConnId)
    | SendHelloAck(c: ConnId)
    | ReplayNext(c: ConnId)
    | ReplayDone(c: ConnId)
    | ServerClose(c: ConnId)
    | ClientReceive
    | SendResume
    | DispatchOk(t: nat)
    | DispatchFails(t: nat)
    | TaskAck(t: nat)
    | TaskAckFails(t: nat)

  ghost predicate Init(b: Bridge) {
    b == Bridge(b.maxlen, Down, map[], 0, OutBook(None, [], {}), [], [], {}, map[], 0, {}, map[], {}, None, {})
  }

  predicate CanSend(b: Bridge) {
    b.link.Up? && b.link.conn in b.conns && !b.link.broken
  }

  ghost predicate Enabled(b: Bridge, step: Step) {
    match step
    case Connect => b.link.Down?
    case Break => b.link.Up?
    case Drop => b.link.Up?
    case PushFrame(id) => id !in b.pushed
    case SendPushed(c, id) => (c, id) in b.sends && c in b.conns
    case SendPushedFails(c, id) => (c, id) in b.sends
    case ServerReceive(c) => c in b.conns && b.conns[c].handler.Waiting? && b.conns[c].toServer != []
    case SendHelloAck(c) => c in b.conns && b.conns[c].handler.SendingHelloAck?
    case ReplayNext(c) => c in b.conns && b.conns[c].handler.Replaying? && b.conns[c].handler.rest != []
    case ReplayDone(c) => c in b.conns && b.conns[c].handler.Replaying? && b.conns[c].handler.rest == []
    case ServerClose(c) => c in b.conns && !b.conns[c].handler.Closed?
    case ClientReceive =>
      b.link.Up? && b.link.conn in b.conns && b.conns[b.link.conn].toClient != [] && !b.link.stage.SendingResume?
    case SendResume => CanSend(b) && b.link.stage.SendingResume?
    case DispatchOk(t) => t in b.tasks && b.tasks[t].phase.Dispatching?
    case DispatchFails(t) => t in b.tasks && b.tasks[t].phase.Dispatching?
    case TaskAck(t) => t in b.tasks && !b.tasks[t].phase.Dispatching? && CanSend(b)
    case TaskAckFails(t) => t in b.tasks && !b.tasks[t].phase.Dispatching? && (b.link.Down? || b.link.broken)
  }

  function Broken(b: Bridge, c: ConnId): Bridge {
    if b.link.Up? && b.link.conn == c then b.(link := b.link.(broken := true)) else b
  }

  function ToServer(b: Bridge, frame: UpFrame): Bridge
    requires CanSend(b)
  {
    var c := b.link.conn;
    b.(conns := b.conns[c := b.conns[c].(toServer := b.conns[c].toServer + [frame])])
  }

  function ToClient(b: Bridge, c: ConnId, frame: DownFrame): Bridge
    requires c in b.conns
  {
    b.(conns := b.conns[c := b.conns[c].(toClient := b.conns[c].toClient + [frame])])
  }

  function WithHandler(b: Bridge, c: ConnId, handler: Handler): Bridge
    requires c in b.conns
  {
    b.(conns := b.conns[c := b.conns[c].(handler := handler)])
  }

  function Pushed(b: Bridge, id: FrameId): Bridge {
    b.(book := FramePushed(b.book, b.maxlen, id), pushed := b.pushed + [id], pushedTo := b.pushedTo + [b.book.active],
       sends := if b.book.active.Some? then b.sends + {(b.book.active.value, id)} else b.sends)
  }

  // One frame handled by the server's _handle_frame.
  function Received(b: Bridge, c: ConnId): Bridge
    requires c in b.conns && b.conns[c].toServer != []
  {
    var frame := b.conns[c].toServer[0];
    var taken := b.(conns := b.conns[c := b.conns[c].(toServer := b.conns[c].toServer[1..])]);
    match frame
    case Hello => WithHandler(taken, c, SendingHelloAck).(book := b.book.(active := Some(c)), greeted := Some(c))
    case Resume =>
      WithHandler(taken, c, Replaying(Unacked(b.book.backlog, b.book.acked))).(
        resumedAt := b.resumedAt[c := |b.pushed|])
    case OutAck(id, ok) =>
      if ok then taken.(book := b.book.(acked := b.book.acked + {id}))
      else taken.(nacked := b.nacked + {(c, id)})
  }

  // One frame read by the client: during the handshake anything but a hello_ack is an error
  // that drops the connection; afterwards an outbound frame starts a dispatch task.
  function ClientReceived(b: Bridge): Bridge
    requires b.link.Up? && b.link.conn in b.conns && b.conns[b.link.conn].toClient != []
  {
    var c := b.link.conn;
    var frame := b.conns[c].toClient[0];
    var taken := b.(conns := b.conns[c := b.conns[c].(toClient := b.conns[c].toClient[1..])]);
    if b.link.stage.AwaitHelloAck? then
      if frame.HelloAck? then taken.(link := b.link.(stage := SendingResume)) else taken.(link := Down)
    else if frame.Outbound? then
      taken.(tasks := b.tasks[b.nextTask := Task(frame.id, c, Dispatching)], nextTask := b.nextTask + 1)
    else taken
  }

  function TaskMoved(b: Bridge, t: nat, phase: TaskPhase): Bridge
    requires t in b.tasks
  {
    b.(tasks := b.tasks[t := b.tasks[t].(phase := phase)])
  }

  ghost function Apply(b: Bridge, step: Step): Bridge
    requires Enabled(b, step)
  {
    match step
    case Connect =>
      b.(link := Up(b.nextConn, AwaitHelloAck, false), conns := b.conns[b.nextConn := Conn([Hello], [], Waiting)],
         nextConn := b.nextConn + 1)
    case Break => b.(link := b.link.(broken := true))
    case Drop => b.(link := Down)
    case PushFrame(id) => Pushed(b, id)
    case SendPushed(c, id) => ToClient(b, c, Outbound(id)).(sends := b.sends - {(c, id)})
    case SendPushedFails(c, id) => Broken(b, c).(sends := b.sends - {(c, id)})
    case ServerReceive(c) => Received(b, c)
    case SendHelloAck(c) => WithHandler(ToClient(b, c, HelloAck), c, Waiting)
    case ReplayNext(c) =>
      var rest := b.conns[c].handler.rest;
      WithHandler(ToClient(b, c, Outbound(rest[0])), c, Replaying(rest[1..]))
    case ReplayDone(c) => WithHandler(b, c, Waiting)
    case ServerClose(c) => Broken(WithHandler(b, c, Closed), c).(book := HandlerEnded(b.book, c))
    case ClientReceive => ClientReceived(b)
    case SendResume => ToServer(b, Resume).(link := b.link.(stage := Steady))
    case DispatchOk(t) => TaskMoved(b, t, AckingOk).(dispatched := b.dispatched + {b.tasks[t].id})
    case DispatchFails(t) => TaskMoved(b, t, AckingFailed).(failures := b.failures + {b.tasks[t].id})
    case TaskAck(t) => ToServer(b, OutAck(b.tasks[t].id, b.tasks[t].phase.AckingOk?)).(tasks := b.tasks - {t})
    case TaskAckFails(t) =>
      if b.tasks[t].phase.AckingOk? then TaskMoved(b, t, AckingFailed).(failures := b.failures + {b.tasks[t].id})
      else b.(tasks := b.tasks - {t})
  }

  ghost predicate IsRun(b: Bridge, steps: seq<Step>)
    decreases |steps|
  {
    steps == [] || (Enabled(b, steps[0]) && IsRun(Apply(b, steps[0]), steps[1..]))
  }

  ghost function RunFrom(b: Bridge, steps: seq<Step>): Bridge
    requires IsRun(b, steps)
    decreases |steps|
  {
    if steps == [] then b else RunFrom(Apply(b, steps[0]), steps[1..])
  }

  ghost predicate Reachable(b: Bridge) {
    exists init, steps :: Init(init) && IsRun(init, steps) && RunFrom(init, steps) == b
  }

  // ---------- the invariant ----------

  ghost predicate BacklogInv(b: Bridge) {
    && |b.pushedTo| == |b.pushed|
    && b.book.backlog == Suffix(b.pushed, b.maxlen)
  }

  // Whatever carries a positive ack was dispatched.
  ghost predicate AckInv(b: Bridge) {
    && b.book.acked <= b.dispatched
    && (forall t :: t in b.tasks && b.tasks[t].phase.AckingOk? ==> b.tasks[t].id in b.dispatched)
    && (forall c, id :: c in b.conns && OutAck(id, true) in b.conns[c].toServer ==> id in b.dispatched)
    && (forall t :: t in b.tasks ==> t < b.nextTask)
  }

  // The frame was pushed before the connection's resume was handled, or onto its socket.
  ghost predicate Covered(b: Bridge, c: ConnId, id: FrameId)
    requires c in b.resumedAt && |b.pushedTo| == |b.pushed|
  {
    exists p :: 0 <= p < |b.pushed| && b.pushed[p] == id && (p < b.resumedAt[c] || b.pushedTo[p] == Some(c))
  }

  ghost predicate Located(b: Bridge, c: ConnId, id: FrameId)
    requires c in b.conns
  {
    || (b.conns[c].handler.Replaying? && id in b.conns[c].handler.rest)
    || (c, id) in b.sends
    || Outbound(id) in b.conns[c].toClient
    || (exists t :: t in b.tasks && b.tasks[t].id == id && b.tasks[t].from == c)
    || OutAck(id, true) in b.conns[c].toServer
    || OutAck(id, false) in b.conns[c].toServer
    || (c, id) in b.nacked
  }

  predicate Live(b: Bridge) {
    CanSend(b) && b.link.conn in b.resumedAt
  }

  ghost predicate LinkInv(b: Bridge) {
    && (forall c :: c in b.conns ==> c < b.nextConn)
    && (forall c :: c in b.resumedAt ==> c in b.conns && b.resumedAt[c] <= |b.pushed|)
    && (b.link.Up? ==> b.link.conn in b.conns)
  }

  ghost predicate TrackInv(b: Bridge)
    requires |b.pushedTo| == |b.pushed|
  {
    Live(b) ==> forall id :: id in b.book.backlog && id !in b.book.acked && Covered(b, b.link.conn, id) ==>
      Located(b, b.link.conn, id)
  }

  ghost predicate Inv(b: Bridge) {
    BacklogInv(b) && AckInv(b) && LinkInv(b) && TrackInv(b)
  }

  lemma PushKeepsBacklog(b: Bridge, id: FrameId)
    requires BacklogInv(b)
    ensures BacklogInv(Pushed(b, id))
  {
    SuffixSnoc(b.pushed, b.maxlen, id);
  }

  lemma BacklogStep(b: Bridge, step: Step)
    requires Enabled(b, step) && BacklogInv(b)
    ensures BacklogInv(Apply(b, step))
  {
    if step.PushFrame? {
      PushKeepsBacklog(b, step.id);
    }
  }

  lemma SuffixSnoc(s: seq<FrameId>, n: nat, x: FrameId)
    ensures Suffix(Suffix(s, n) + [x], n) == Suffix(s + [x], n)
  {
  }

  // The frames on their way to the server are old ones or justified by a dispatch.
  lemma UpFramesKeepAcks(b: Bridge, next: Bridge)
    requires AckInv(b) && b.dispatched <= next.dispatched && next.book.acked <= next.dispatched
    requires forall t :: t in next.tasks ==>
      t < next.nextTask && (next.tasks[t].phase.AckingOk? ==> next.tasks[t].id in next.dispatched)
    requires forall c, id :: c in next.conns && OutAck(id, true) in next.conns[c].toServer ==>
      id in next.dispatched || (c in b.conns && OutAck(id, true) in b.conns[c].toServer)
    ensures AckInv(next)
  {
  }

  lemma TaskKeepsAcks(b: Bridge, step: Step)
    requires Enabled(b, step) && AckInv(b)
    requires step.DispatchOk? || step.DispatchFails? || step.TaskAck? || step.TaskAckFails? || step.ClientReceive?
    ensures AckInv(Apply(b, step))
  {
    UpFramesKeepAcks(b, Apply(b, step));
  }

  lemma ReceiveKeepsAcks(b: Bridge, c: ConnId)
    requires c in b.conns && b.conns[c].toServer != [] && AckInv(b)
    ensures AckInv(Received(b, c))
  {
    var frame := b.conns[c].toServer[0];
    assert frame in b.conns[c].toServer;
    UpFramesKeepAcks(b, Received(b, c));
  }

  lemma AckStep(b: Bridge, step: Step)
    requires Enabled(b, step) && AckInv(b)
    ensures AckInv(Apply(b, step))
  {
    if step.ServerReceive? {
      ReceiveKeepsAcks(b, step.c);
    } else if step.DispatchOk? || step.DispatchFails? || step.TaskAck? || step.TaskAckFails? || step.ClientReceive? {
      TaskKeepsAcks(b, step);
    } else {
      UpFramesKeepAcks(b, Apply(b, step));
    }
  }

  lemma ServerKeepsLink(b: Bridge, step: Step)
    requires Enabled(b, step) && LinkInv(b) && step.ServerReceive?
    ensures LinkInv(Apply(b, step))
  {
  }

  lemma LinkStep(b: Bridge, step: Step)
    requires Enabled(b, step) && LinkInv(b)
    ensures LinkInv(Apply(b, step))
  {
    if step.ServerReceive? {
      ServerKeepsLink(b, step);
    }
  }

  // ---------- no frame is stuck ----------

  ghost predicate Undelivered(b: Bridge, c: ConnId, id: FrameId)
    requires c in b.resumedAt && |b.pushedTo| == |b.pushed|
  {
    id in b.book.backlog && id !in b.book.acked && Covered(b, c, id)
  }

  // What waits after a step waited before it, unless it has just been pushed or replayed.
  lemma WaitedBefore(b: Bridge, step: Step, id: FrameId)
    requires Enabled(b, step) && Inv(b) && Live(Apply(b, step)) && BacklogInv(Apply(b, step))
    requires Undelivered(Apply(b, step), Apply(b, step).link.conn, id)
    requires !step.PushFrame? && !step.ServerReceive?
    ensures Live(b) && b.link.conn == Apply(b, step).link.conn && Undelivered(b, b.link.conn, id)
  {
    var p :| 0 <= p < |b.pushed| && b.pushed[p] == id
      && (p < Apply(b, step).resumedAt[Apply(b, step).link.conn] || b.pushedTo[p] == Some(Apply(b, step).link.conn));
  }

  lemma ServerKeepsLocated(b: Bridge, step: Step, id: FrameId)
    requires Enabled(b, step) && LinkInv(b) && Live(b) && Live(Apply(b, step)) && Located(b, b.link.conn, id)
    requires step.SendPushed? || step.SendPushedFails? || step.SendHelloAck? || step.ReplayNext? || step.ReplayDone?
          || step.ServerClose?
    ensures Located(Apply(b, step), b.link.conn, id)
  {
    var c := b.link.conn;
    if step.ReplayNext? {
      var rest := b.conns[step.c].handler.rest;
      assert forall x :: x in rest ==> x == rest[0] || x in rest[1..];
    }
    if t :| t in b.tasks && b.tasks[t].id == id && b.tasks[t].from == c {
      assert t in Apply(b, step).tasks;
    }
  }

  lemma ClientKeepsLocated(b: Bridge, step: Step, id: FrameId)
    requires Enabled(b, step) && LinkInv(b) && AckInv(b) && Live(b) && Live(Apply(b, step))
    requires b.link.conn == Apply(b, step).link.conn && Located(b, b.link.conn, id)
    requires step.Break? || step.Drop? || step.Connect? || step.ClientReceive? || step.SendResume?
    ensures Located(Apply(b, step), b.link.conn, id)
  {
    var c, next := b.link.conn, Apply(b, step);
    if step.ClientReceive? {
      var frames := b.conns[c].toClient;
      assert forall x :: x in frames ==> x == frames[0] || x in frames[1..];
      if frames[0] == Outbound(id) {
        assert b.link.stage.Steady? ==> next.tasks[b.nextTask] == Task(id, c, Dispatching);
      }
    }
    if t :| t in b.tasks && b.tasks[t].id == id && b.tasks[t].from == c {
      assert t in next.tasks && next.tasks[t] == b.tasks[t];
    }
  }

  lemma TaskKeepsLocated(b: Bridge, step: Step, id: FrameId)
    requires Enabled(b, step) && LinkInv(b) && Live(b) && Located(b, b.link.conn, id)
    requires step.DispatchOk? || step.DispatchFails? || step.TaskAck? || step.TaskAckFails?
    ensures Located(Apply(b, step), b.link.conn, id)
  {
    var c, next := b.link.conn, Apply(b, step);
    if t :| t in b.tasks && b.tasks[t].id == id && b.tasks[t].from == c {
      if t in next.tasks {
        assert next.tasks[t].id == id && next.tasks[t].from == c;
      } else {
        assert next.conns[c].toServer == b.conns[c].toServer + [OutAck(id, b.tasks[t].phase.AckingOk?)];
      }
    }
  }

  lemma ResumeTracks(b: Bridge, c: ConnId, id: FrameId)
    requires Enabled(b, ServerReceive(c)) && b.conns[c].toServer[0].Resume? && Inv(b)
    requires id in b.book.backlog && id !in b.book.acked
    ensures Located(Received(b, c), c, id)
  {
    UnackedMember(b.book.backlog, b.book.acked, id);
  }

  // Handling a frame on connection c moves only that frame.
  lemma ReceiveKeepsLocated(b: Bridge, c: ConnId, own: ConnId, id: FrameId)
    requires c in b.conns && b.conns[c].handler.Waiting? && b.conns[c].toServer != [] && own in b.conns
    requires Located(b, own, id)
    ensures Located(Received(b, c), own, id) || id in Received(b, c).book.acked
  {
    var next, frames := Received(b, c), b.conns[c].toServer;
    assert forall x :: x in frames ==> x == frames[0] || x in frames[1..];
    if t :| t in b.tasks && b.tasks[t].id == id && b.tasks[t].from == own {
      assert next.tasks[t] == b.tasks[t];
    }
  }

  lemma ReceiveTracks(b: Bridge, c: ConnId)
    requires Enabled(b, ServerReceive(c)) && Inv(b)
    ensures TrackInv(Received(b, c))
  {
    var next := Received(b, c);
    if Live(next) {
      var own := next.link.conn;
      forall id | Undelivered(next, own, id) ensures Located(next, own, id) {
        if own == c && b.conns[c].toServer[0].Resume? {
          ResumeTracks(b, c, id);
        } else {
          assert next.resumedAt[own] == b.resumedAt[own];
          var p :| 0 <= p < |b.pushed| && b.pushed[p] == id
            && (p < next.resumedAt[own] || b.pushedTo[p] == Some(own));
          assert Undelivered(b, own, id);
          ReceiveKeepsLocated(b, c, own, id);
        }
      }
    }
  }

  lemma {:induction false} UnackedMember(backlog: seq<FrameId>, acked: set<FrameId>, id: FrameId)
    ensures id in Unacked(backlog, acked) <==> id in backlog && id !in acked
  {
    if backlog != [] {
      var front, last := backlog[..|backlog| - 1], backlog[|backlog| - 1];
      UnackedMember(front, acked, id);
      assert backlog == front + [last];
    }
  }

  lemma PushTracks(b: Bridge, id: FrameId)
    requires Enabled(b, PushFrame(id)) && Inv(b)
    ensures TrackInv(Pushed(b, id))
  {
    var next := Pushed(b, id);
    if Live(next) {
      var c := next.link.conn;
      forall other | Undelivered(next, c, other) ensures Located(next, c, other) {
        var p :| 0 <= p < |next.pushed| && next.pushed[p] == other
          && (p < b.resumedAt[c] || next.pushedTo[p] == Some(c));
        if p == |b.pushed| {
          assert (c, other) in next.sends;
        } else {
          assert b.pushed[p] == other && b.pushedTo[p] == next.pushedTo[p];
          assert other in b.book.backlog;
          assert Undelivered(b, c, other) && Located(b, c, other);
          if t :| t in b.tasks && b.tasks[t].id == other && b.tasks[t].from == c {
            assert next.tasks[t] == b.tasks[t];
          }
        }
      }
    }
  }

  lemma StepKeepsLocated(b: Bridge, step: Step, id: FrameId)
    requires Enabled(b, step) && LinkInv(b) && AckInv(b) && Live(b) && Live(Apply(b, step))
    requires b.link.conn == Apply(b, step).link.conn && !step.PushFrame? && !step.ServerReceive?
    requires Located(b, b.link.conn, id)
    ensures Located(Apply(b, step), b.link.conn, id)
  {
    if step.SendPushed? || step.SendPushedFails? || step.SendHelloAck? || step.ReplayNext? || step.ReplayDone?
       || step.ServerClose? {
      ServerKeepsLocated(b, step, id);
    } else if step.DispatchOk? || step.DispatchFails? || step.TaskAck? || step.TaskAckFails? {
      TaskKeepsLocated(b, step, id);
    } else {
      ClientKeepsLocated(b, step, id);
    }
  }

  lemma TrackStep(b: Bridge, step: Step)
    requires Enabled(b, step) && Inv(b)
    ensures BacklogInv(Apply(b, step)) && TrackInv(Apply(b, step))
  {
    BacklogStep(b, step);
    var next := Apply(b, step);
    if step.PushFrame? {
      PushTracks(b, step.id);
    } else if step.ServerReceive? {
      ReceiveTracks(b, step.c);
    } else if Live(next) {
      forall id | Undelivered(next, next.link.conn, id) ensures Located(next, next.link.conn, id) {
        WaitedBefore(b, step, id);
        StepKeepsLocated(b, step, id);
      }
    }
  }

  lemma StepKeepsInv(b: Bridge, step: Step)
    requires Enabled(b, step) && Inv(b)
    ensures Inv(Apply(b, step))
  {
    AckStep(b, step);
    LinkStep(b, step);
    TrackStep(b, step);
  }

  lemma {:induction false} RunKeepsInv(b: Bridge, steps: seq<Step>)
    requires IsRun(b, steps) && Inv(b)
    ensures Inv(RunFrom(b, steps))
    decreases |steps|
  {
    if steps != [] {
      StepKeepsInv(b, steps[0]);
      RunKeepsInv(Apply(b, steps[0]), steps[1..]);
    }
  }

  lemma ReachableInv(b: Bridge)
    requires Reachable(b)
    ensures Inv(b)
  {
    var init, steps :| Init(init) && IsRun(init, steps) && RunFrom(init, steps) == b;
    RunKeepsInv(init, steps);
  }

  // ---------- delivery ----------

  // An acked frame was dispatched by the gateway.
  lemma AckedWasDispatched(b: Bridge, id: FrameId)
    requires Reachable(b) && id in b.book.acked
    ensures id in b.dispatched
  {
    ReachableInv(b);
  }

  // ---------- exactly what a quiet connection delivers ----------

  // The frame is on its way down connection c.
  ghost predicate GoingDown(b: Bridge, c: ConnId, id: FrameId) {
    || (c, id) in b.sends
    || (c in b.conns && Outbound(id) in b.conns[c].toClient)
    || (c in b.conns && b.conns[c].handler.Replaying? && id in b.conns[c].handler.rest)
  }

  // It was pushed, before the connection's resume was handled or onto its socket.
  ghost predicate SentOn(b: Bridge, c: ConnId, id: FrameId, p: int)
    requires |b.pushedTo| == |b.pushed|
  {
    && 0 <= p < |b.pushed| && b.pushed[p] == id
    && (b.pushedTo[p] == Some(c) || (c in b.resumedAt && p < b.resumedAt[c]))
  }

  // The client has received the frame at some time.
  ghost predicate Seen(b: Bridge, id: FrameId) {
    || id in b.dispatched
    || (exists t :: t in b.tasks && b.tasks[t].id == id)
    || (exists c, ok :: c in b.conns && OutAck(id, ok) in b.conns[c].toServer)
    || (exists c :: (c, id) in b.nacked)
  }

  // It was pushed, and sent on the current connection once that is resumed.
  ghost predicate SeenFrom(b: Bridge, id: FrameId, p: int)
    requires |b.pushedTo| == |b.pushed|
  {
    && 0 <= p < |b.pushed| && b.pushed[p] == id
    && (b.link.Up? && b.link.conn in b.resumedAt ==> SentOn(b, b.link.conn, id, p))
  }

  ghost predicate DownInv(b: Bridge)
    requires |b.pushedTo| == |b.pushed|
  {
    forall c, id :: GoingDown(b, c, id) ==> exists p :: SentOn(b, c, id, p)
  }

  ghost predicate SeenInv(b: Bridge)
    requires |b.pushedTo| == |b.pushed|
  {
    forall id :: Seen(b, id) ==> exists p :: SeenFrom(b, id, p)
  }

  ghost predicate PushedOnce(b: Bridge) {
    forall i, j :: 0 <= i < j < |b.pushed| ==> b.pushed[i] != b.pushed[j]
  }

  ghost predicate SentInv(b: Bridge) {
    Inv(b) && DownInv(b) && SeenInv(b) && PushedOnce(b)
  }

  lemma PushStep(b: Bridge, step: Step)
    requires Enabled(b, step) && PushedOnce(b)
    ensures PushedOnce(Apply(b, step))
  {
  }

  // A step moves a frame down the connection it was going down, unless it pushes or replays it.
  lemma DownBefore(b: Bridge, step: Step, c: ConnId, id: FrameId)
    requires Enabled(b, step) && LinkInv(b) && GoingDown(Apply(b, step), c, id)
    requires !(step.PushFrame? && id == step.id) && step != ServerReceive(c)
    ensures GoingDown(b, c, id)
  {
  }

  lemma ReceiveDown(b: Bridge, c: ConnId, id: FrameId)
    requires Enabled(b, ServerReceive(c)) && GoingDown(Received(b, c), c, id)
    ensures GoingDown(b, c, id) || (b.conns[c].toServer[0].Resume? && id in b.book.backlog)
  {
    UnackedMember(b.book.backlog, b.book.acked, id);
  }

  // Pushes and resumes only grow.
  ghost predicate PushesGrow(b: Bridge, next: Bridge) {
    && |b.pushedTo| == |b.pushed| && |next.pushedTo| == |next.pushed|
    && b.pushed <= next.pushed && b.pushedTo <= next.pushedTo
    && (forall c :: c in b.resumedAt ==> c in next.resumedAt && b.resumedAt[c] <= next.resumedAt[c])
  }

  lemma StepGrows(b: Bridge, step: Step)
    requires Enabled(b, step) && BacklogInv(b) && LinkInv(b)
    ensures PushesGrow(b, Apply(b, step))
  {
  }

  // Where a frame was sent stays so.
  lemma SentStays(b: Bridge, next: Bridge, c: ConnId, id: FrameId, p: int)
    requires PushesGrow(b, next) && SentOn(b, c, id, p)
    ensures SentOn(next, c, id, p)
  {
  }

  lemma BacklogPosition(b: Bridge, id: FrameId) returns (p: nat)
    requires BacklogInv(b) && id in b.book.backlog
    ensures p < |b.pushed| && b.pushed[p] == id
  {
    var k :| 0 <= k < |b.book.backlog| && b.book.backlog[k] == id;
    p := |b.pushed| - |b.book.backlog| + k;
  }

  lemma DownStep(b: Bridge, step: Step)
    requires Enabled(b, step) && SentInv(b)
    ensures BacklogInv(Apply(b, step)) && DownInv(Apply(b, step))
  {
    BacklogStep(b, step);
    StepGrows(b, step);
    var next := Apply(b, step);
    forall c, id | GoingDown(next, c, id) ensures exists p :: SentOn(next, c, id, p) {
      if step.PushFrame? && id == step.id {
        PushedDown(b, c, id);
      } else if step == ServerReceive(c) {
        ReceiveDown(b, c, id);
        if GoingDown(b, c, id) {
          var p :| SentOn(b, c, id, p);
          SentStays(b, next, c, id, p);
        } else {
          var p := BacklogPosition(b, id);
          assert SentOn(next, c, id, p);
        }
      } else {
        DownBefore(b, step, c, id);
        var p :| SentOn(b, c, id, p);
        SentStays(b, next, c, id, p);
      }
    }
  }

  lemma PushedDown(b: Bridge, c: ConnId, id: FrameId)
    requires SentInv(b) && id !in b.pushed && GoingDown(Pushed(b, id), c, id)
    ensures |Pushed(b, id).pushedTo| == |Pushed(b, id).pushed| && exists p :: SentOn(Pushed(b, id), c, id, p)
  {
    StepGrows(b, PushFrame(id));
    assert !GoingDown(b, c, id);
    assert SentOn(Pushed(b, id), c, id, |b.pushed|);
  }

  // Only by reading it does the client come to have seen a frame.
  lemma SeenBefore(b: Bridge, step: Step, id: FrameId)
    requires Enabled(b, step) && Seen(Apply(b, step), id) && !step.ClientReceive? && !step.ServerReceive?
    ensures Seen(b, id)
  {
    var next := Apply(b, step);
    if t :| t in next.tasks && next.tasks[t].id == id {
      assert t in b.tasks && b.tasks[t].id == id;
    } else if c, ok :| c in next.conns && OutAck(id, ok) in next.conns[c].toServer {
      if !(c in b.conns && OutAck(id, ok) in b.conns[c].toServer) {
        assert step.TaskAck? && b.tasks[step.t].id == id;
      }
    } else if c :| (c, id) in next.nacked {
      assert (c, id) in b.nacked;
    }
  }

  lemma ReceiveSeen(b: Bridge, c: ConnId, id: FrameId)
    requires Enabled(b, ServerReceive(c)) && Seen(Received(b, c), id)
    ensures Seen(b, id)
  {
    var next, frame := Received(b, c), b.conns[c].toServer[0];
    assert frame in b.conns[c].toServer;
    if d, ok :| d in next.conns && OutAck(id, ok) in next.conns[d].toServer {
      assert OutAck(id, ok) in b.conns[d].toServer;
    } else if d :| (d, id) in next.nacked {
      assert (d, id) in b.nacked || frame == OutAck(id, false);
    } else if t :| t in next.tasks && next.tasks[t].id == id {
      assert b.tasks[t].id == id;
    }
  }

  lemma ReadSeen(b: Bridge, id: FrameId)
    requires Enabled(b, ClientReceive) && Seen(ClientReceived(b), id)
    ensures Seen(b, id) || (b.link.stage.Steady? && GoingDown(b, b.link.conn, id))
  {
    var next, frame := ClientReceived(b), b.conns[b.link.conn].toClient[0];
    assert frame in b.conns[b.link.conn].toClient;
    if c, ok :| c in next.conns && OutAck(id, ok) in next.conns[c].toServer {
      assert OutAck(id, ok) in b.conns[c].toServer;
    } else if t :| t in next.tasks && next.tasks[t].id == id {
      assert (t in b.tasks && b.tasks[t].id == id) || frame == Outbound(id);
    }
  }

  // A resumed connection was current and resumed before, or has just been resumed, after every
  // push.
  lemma ResumedBefore(b: Bridge, step: Step)
    requires Enabled(b, step) && LinkInv(b)
    ensures var next := Apply(b, step);
            next.link.Up? && next.link.conn in next.resumedAt ==>
              || (b.link.Up? && b.link.conn == next.link.conn && b.link.conn in b.resumedAt)
              || next.resumedAt[next.link.conn] == |b.pushed|
  {
  }

  lemma SeenStays(b: Bridge, step: Step, id: FrameId, p: int)
    requires Enabled(b, step) && LinkInv(b) && PushesGrow(b, Apply(b, step)) && SeenFrom(b, id, p)
    ensures SeenFrom(Apply(b, step), id, p)
  {
    ResumedBefore(b, step);
  }

  lemma SeenStep(b: Bridge, step: Step)
    requires Enabled(b, step) && SentInv(b)
    ensures BacklogInv(Apply(b, step)) && SeenInv(Apply(b, step))
  {
    BacklogStep(b, step);
    StepGrows(b, step);
    var next := Apply(b, step);
    forall id | Seen(next, id) ensures exists p :: SeenFrom(next, id, p) {
      if step.ServerReceive? {
        ReceiveSeen(b, step.c, id);
      } else if step.ClientReceive? {
        ReadSeen(b, id);
      } else {
        SeenBefore(b, step, id);
      }
      if Seen(b, id) {
        var p :| SeenFrom(b, id, p);
        SeenStays(b, step, id, p);
      } else {
        var p :| SentOn(b, b.link.conn, id, p);
        assert SeenFrom(b, id, p);
        SeenStays(b, step, id, p);
      }
    }
  }

  lemma {:induction false} RunKeepsSent(b: Bridge, steps: seq<Step>)
    requires IsRun(b, steps) && SentInv(b)
    ensures SentInv(RunFrom(b, steps))
    decreases |steps|
  {
    if steps != [] {
      StepKeepsInv(b, steps[0]);
      DownStep(b, steps[0]);
      SeenStep(b, steps[0]);
      PushStep(b, steps[0]);
      RunKeepsSent(Apply(b, steps[0]), steps[1..]);
    }
  }

  lemma ReachableSent(b: Bridge)
    requires Reachable(b)
    ensures SentInv(b)
  {
    var init, steps :| Init(init) && IsRun(init, steps) && RunFrom(init, steps) == b;
    RunKeepsSent(init, steps);
  }

  // A pushed frame is in the backlog, acked or not, exactly while fewer than maxlen frames were
  // pushed after it.
  lemma BacklogHolds(b: Bridge, p: nat)
    requires Reachable(b) && p < |b.pushed|
    ensures b.pushed[p] in b.book.backlog <==> |b.pushed| - 1 - p < b.maxlen
  {
    ReachableSent(b);
    var gone := |b.pushed| - |b.book.backlog|;
    assert forall k :: 0 <= k < |b.book.backlog| ==> b.book.backlog[k] == b.pushed[gone + k];
    if p >= gone {
      assert b.book.backlog[p - gone] == b.pushed[p];
    }
  }

  // ---------- the active socket ----------

  // The connection's hello was the last one handled, and its handler has not ended.
  predicate Greets(b: Bridge, c: ConnId) {
    b.greeted == Some(c) && c in b.conns && !b.conns[c].handler.Closed?
  }

  ghost predicate ActiveInv(b: Bridge) {
    && (forall c: ConnId :: b.book.active == Some(c) <==> Greets(b, c))
    && (b.greeted.Some? ==> b.greeted.value in b.conns) && (forall c :: c in b.conns ==> c < b.nextConn)
  }

  lemma ReceiveKeepsActive(b: Bridge, c: ConnId)
    requires Enabled(b, ServerReceive(c)) && ActiveInv(b)
    ensures ActiveInv(Received(b, c))
  {
  }

  lemma CloseKeepsActive(b: Bridge, c: ConnId)
    requires Enabled(b, ServerClose(c)) && ActiveInv(b)
    ensures ActiveInv(Apply(b, ServerClose(c)))
  {
  }

  // Nothing else touches the active socket or ends a handler; connections only come.
  lemma OtherKeepsActive(b: Bridge, step: Step)
    requires Enabled(b, step) && ActiveInv(b) && !step.ServerReceive? && !step.ServerClose?
    ensures ActiveInv(Apply(b, step))
  {
    var next := Apply(b, step);
    assert next.book.active == b.book.active && next.greeted == b.greeted;
    assert forall c :: c in b.conns ==> c in next.conns && next.conns[c].handler.Closed? == b.conns[c].handler.Closed?;
  }

  lemma ActiveStep(b: Bridge, step: Step)
    requires Enabled(b, step) && ActiveInv(b)
    ensures ActiveInv(Apply(b, step))
  {
    if step.ServerReceive? {
      ReceiveKeepsActive(b, step.c);
    } else if step.ServerClose? {
      CloseKeepsActive(b, step.c);
    } else {
      OtherKeepsActive(b, step);
    }
  }

  lemma {:induction false} RunKeepsActive(b: Bridge, steps: seq<Step>)
    requires IsRun(b, steps) && ActiveInv(b)
    ensures ActiveInv(RunFrom(b, steps))
    decreases |steps|
  {
    if steps != [] {
      ActiveStep(b, steps[0]);
      RunKeepsActive(Apply(b, steps[0]), steps[1..]);
    }
  }

  // A socket is the active one exactly while its hello was the last one handled and its handler
  // has not ended; with no such socket there is none.
  lemma ActiveSocket(b: Bridge, c: ConnId)
    requires Reachable(b)
    ensures b.book.active == Some(c) <==> Greets(b, c)
  {
    var init, steps :| Init(init) && IsRun(init, steps) && RunFrom(init, steps) == b;
    RunKeepsActive(init, steps);
  }

  // So a push goes out on that socket, and the end of any other connection changes nothing for it.
  lemma OtherEndKeepsSocket(b: Bridge, c: ConnId, id: FrameId)
    requires Reachable(b) && Enabled(b, ServerClose(c)) && Enabled(b, PushFrame(id))
    ensures var ended := Apply(b, ServerClose(c));
            var before, after := Apply(b, PushFrame(id)), Apply(ended, PushFrame(id));
            && (b.greeted != Some(c) ==> after.pushedTo == before.pushedTo && after.sends == before.sends)
            && (b.greeted == Some(c) ==> after.pushedTo == b.pushedTo + [None] && after.sends == b.sends)
            && (forall d: ConnId :: Greets(b, d) ==> before.pushedTo == b.pushedTo + [Some(d)] && (d, id) in before.sends)
  {
    ActiveSocket(b, c);
    forall d: ConnId | Greets(b, d) ensures b.book.active == Some(d) {
      ActiveSocket(b, d);
    }
    if b.book.active.Some? {
      ActiveSocket(b, b.book.active.value);
    }
  }

  // The current connection is resumed and has nothing left to do.
  ghost predicate Quiet(b: Bridge) {
    && Live(b) && b.conns[b.link.conn] == Conn([], [], Waiting)
    && (forall id :: (b.link.conn, id) !in b.sends)
    && (forall t :: t in b.tasks ==> b.tasks[t].from != b.link.conn)
  }

  // On a quiet connection a frame of the backlog is dispatched and acked, or was refused on this
  // connection, exactly if it was pushed before the resume was handled, or onto this socket. The
  // others are stranded: acked nowhere, and nothing on this connection will change that.
  lemma QuietConnectionDelivers(b: Bridge, id: FrameId)
    requires Reachable(b) && Quiet(b) && id in b.book.backlog
    ensures |b.pushedTo| == |b.pushed|
    ensures Covered(b, b.link.conn, id) <==>
            (id in b.book.acked && id in b.dispatched) || (b.link.conn, id) in b.nacked
  {
    ReachableSent(b);
    if (id in b.book.acked && id in b.dispatched) || (b.link.conn, id) in b.nacked {
      assert Seen(b, id);
      var p :| SeenFrom(b, id, p);
      assert SentOn(b, b.link.conn, id, p);
    }
  }

  // ---------- what a failed ack says ----------

  ghost predicate FailInv(b: Bridge) {
    && (forall t :: t in b.tasks && b.tasks[t].phase.AckingFailed? ==> b.tasks[t].id in b.failures)
    && (forall c, id :: c in b.conns && OutAck(id, false) in b.conns[c].toServer ==> id in b.failures)
    && (forall c, id :: (c, id) in b.nacked ==> id in b.failures)
  }

  lemma FailuresKept(b: Bridge, next: Bridge)
    requires FailInv(b) && b.failures <= next.failures
    requires forall t :: t in next.tasks && next.tasks[t].phase.AckingFailed? ==>
      next.tasks[t].id in next.failures || (t in b.tasks && next.tasks[t] == b.tasks[t])
    requires forall c, id :: c in next.conns && OutAck(id, false) in next.conns[c].toServer ==>
      id in next.failures || (c in b.conns && OutAck(id, false) in b.conns[c].toServer)
    requires forall c, id :: (c, id) in next.nacked ==> id in next.failures || (c, id) in b.nacked
    ensures FailInv(next)
  {
  }

  lemma ReceiveKeepsFailures(b: Bridge, c: ConnId)
    requires c in b.conns && b.conns[c].toServer != [] && FailInv(b)
    ensures FailInv(Received(b, c))
  {
    assert b.conns[c].toServer[0] in b.conns[c].toServer;
    FailuresKept(b, Received(b, c));
  }

  lemma FailStep(b: Bridge, step: Step)
    requires Enabled(b, step) && FailInv(b)
    ensures FailInv(Apply(b, step))
  {
    if step.ServerReceive? {
      ReceiveKeepsFailures(b, step.c);
    } else {
      FailuresKept(b, Apply(b, step));
    }
  }

  lemma {:induction false} RunKeepsFailures(b: Bridge, steps: seq<Step>)
    requires IsRun(b, steps) && FailInv(b)
    ensures FailInv(RunFrom(b, steps))
    decreases |steps|
  {
    if steps != [] {
      FailStep(b, steps[0]);
      RunKeepsFailures(Apply(b, steps[0]), steps[1..]);
    }
  }

  // A frame is refused on a connection only if its dispatch failed, or its ok ack could not be sent.
  lemma RefusedMeansFailed(b: Bridge, c: ConnId, id: FrameId)
    requires Reachable(b) && (c, id) in b.nacked
    ensures id in b.failures
  {
    var init, steps :| Init(init) && IsRun(init, steps) && RunFrom(init, steps) == b;
    RunKeepsFailures(init, steps);
  }

  // So without failures every covered frame of the backlog is dispatched and acked once the
  // connection is quiet.
  lemma QuietWithoutFailures(b: Bridge, id: FrameId)
    requires Reachable(b) && Quiet(b) && id in b.book.backlog && id !in b.failures
    ensures |b.pushedTo| == |b.pushed|
    ensures Covered(b, b.link.conn, id) <==> id in b.book.acked && id in b.dispatched
  {
    QuietConnectionDelivers(b, id);
    if (b.link.conn, id) in b.nacked {
      RefusedMeansFailed(b, b.link.conn, id);
    }
  }

  // A task that cannot send its ok ack tries a failed one, and drops that if it cannot send it.
  lemma LostOutAck(b: Bridge, t: nat)
    requires Enabled(b, TaskAckFails(t))
    ensures var next, task := Apply(b, TaskAckFails(t)), b.tasks[t];
            && (t in next.tasks <==> task.phase == AckingOk)
            && (t in next.tasks ==> next.tasks[t] == Task(task.id, task.from, AckingFailed))
            && next.conns == b.conns && next.book == b.book && next.nacked == b.nacked
            && (forall u :: u != t ==> (u in next.tasks <==> u in b.tasks))
  {
  }

  // Handling a resume starts a replay of all unacked frames of the backlog, in push order.
  lemma ResumeReplays(b: Bridge, c: ConnId) returns (at: seq<nat>)
    requires Enabled(b, ServerReceive(c)) && b.conns[c].toServer[0] == Resume
    ensures PicksUnacked(at, b.book.backlog, b.book.acked)
    ensures Apply(b, ServerReceive(c)).conns[c].handler == Replaying(Select(b.book.backlog, at))
  {
    at := ReplayInOrder(b.book.backlog, b.book.acked);
  }

  function AsOutbound(ids: seq<FrameId>): seq<DownFrame> {
    seq(|ids|, k requires 0 <= k < |ids| => Outbound(ids[k]))
  }

  // A replay sends its frames one by one, behind what is on its way, and the client reads the
  // oldest frame first: what is on its way and still to be replayed stays in order.
  lemma ReplayKeepsOrder(b: Bridge, c: ConnId)
    requires Enabled(b, ReplayNext(c))
    ensures var next := Apply(b, ReplayNext(c));
            next.conns[c].handler.Replaying? && next.conns[c].toClient + AsOutbound(next.conns[c].handler.rest)
                                                == b.conns[c].toClient + AsOutbound(b.conns[c].handler.rest)
  {
    var rest := b.conns[c].handler.rest;
    assert AsOutbound(rest) == [Outbound(rest[0])] + AsOutbound(rest[1..]);
  }

  // Whatever else is sent goes behind what is on its way, and the client takes the first frame.
  lemma ClientReadsInOrder(b: Bridge, step: Step, c: ConnId)
    requires Enabled(b, step) && c in b.conns && c in Apply(b, step).conns && c < b.nextConn
    ensures var was, now := b.conns[c].toClient, Apply(b, step).conns[c].toClient;
            && (!step.ClientReceive? ==> was <= now)
            && (step.ClientReceive? && c == b.link.conn ==> [was[0]] + now == was)
            && (step.ClientReceive? && c != b.link.conn ==> now == was)
  {
  }

  // ---------- a late hello strands later pushes ----------

  lemma {:induction false} RunAppend(b: Bridge, steps: seq<Step>, step: Step)
    requires IsRun(b, steps) && Enabled(RunFrom(b, steps), step)
    ensures IsRun(b, steps + [step])
    ensures RunFrom(b, steps + [step]) == Apply(RunFrom(b, steps), step)
    decreases |steps|
  {
    if steps == [] {
      assert steps + [step] == [step];
      assert [step][1..] == [];
    } else {
      RunAppend(Apply(b, steps[0]), steps[1..], step);
      assert (steps + [step])[1..] == steps[1..] + [step];
    }
  }

  lemma ReachableStep(b: Bridge, step: Step)
    requires Reachable(b) && Enabled(b, step)
    ensures Reachable(Apply(b, step))
  {
    var init, steps :| Init(init) && IsRun(init, steps) && RunFrom(init, steps) == b;
    RunAppend(init, steps, step);
  }

  // The client gave up on connection 0 before its hello was handled, and is at work on 1.
  lemma SecondConnectionResumed(maxlen: nat) returns (b: Bridge)
    ensures Reachable(b) && b.maxlen == maxlen && b.book == OutBook(Some(1), [], {})
    ensures b.pushed == [] && b.pushedTo == [] && b.sends == {} && b.tasks == map[] && b.dispatched == {}
    ensures b.link == Up(1, Steady, false) && b.resumedAt == map[1 := 0]
    ensures b.conns == map[0 := Conn([Hello], [], Waiting), 1 := Conn([], [], Waiting)]
  {
    b := Bridge(maxlen, Down, map[], 0, OutBook(None, [], {}), [], [], {}, map[], 0, {}, map[], {}, None, {});
    assert IsRun(b, []) && RunFrom(b, []) == b;
    ReachableStep(b, Connect);
    b := Apply(b, Connect);
    ReachableStep(b, Drop);
    b := Apply(b, Drop);
    ReachableStep(b, Connect);
    b := Apply(b, Connect);
    b := HandshakeOn1(b);
    ReachableStep(b, ServerReceive(1));
    b := Received(b, 1);
    assert b.conns[1] == Conn([], [], Replaying([]));
    ReachableStep(b, ReplayDone(1));
    b := Apply(b, ReplayDone(1));
    assert b.conns[1] == Conn([], [], Waiting);
  }

  lemma HandshakeOn1(b: Bridge) returns (next: Bridge)
    requires Reachable(b) && b.link == Up(1, AwaitHelloAck, false)
    requires b.conns.Keys == {0, 1} && b.conns[1] == Conn([Hello], [], Waiting)
    ensures Reachable(next)
    ensures next == b.(link := Up(1, Steady, false), book := b.book.(active := Some(1)), greeted := Some(1),
                       conns := b.conns[1 := Conn([Resume], [], Waiting)])
  {
    ReachableStep(b, ServerReceive(1));
    var s := Received(b, 1);
    assert s.conns[1] == Conn([], [], SendingHelloAck);
    ReachableStep(s, SendHelloAck(1));
    s := Apply(s, SendHelloAck(1));
    assert s.conns[1] == Conn([], [HelloAck], Waiting);
    ReachableStep(s, ClientReceive);
    s := ClientReceived(s);
    assert s.conns[1] == Conn([], [], Waiting);
    ReachableStep(s, SendResume);
    next := Apply(s, SendResume);
    assert next.conns[1] == Conn([Resume], [], Waiting);
    assert next.conns == b.conns[1 := Conn([Resume], [], Waiting)];
  }

  // The current connection is live, resumed and has nothing left to do, yet the frame is
  // neither acked nor dispatched.
  ghost predicate Stranded(b: Bridge, id: FrameId) {
    && Live(b) && b.link.stage.Steady? && b.conns[b.link.conn] == Conn([], [], Waiting)
    && b.sends == {} && b.tasks == map[]
    && id in b.book.backlog && id !in b.book.acked && id !in b.dispatched
  }

  // Not every frame pushed while a live connection exists is covered: when the server handles
  // the hello of an abandoned connection last, that socket becomes the active one, and frames
  // pushed from then on stay in the backlog, unsent on the live and quiet connection.
  lemma LateHelloStrandsPushes(maxlen: nat)
    requires maxlen >= 1
    ensures exists b :: Reachable(b) && b.maxlen == maxlen && Stranded(b, 7)
  {
    var b := SecondConnectionResumed(maxlen);
    ReachableStep(b, ServerReceive(0));
    b := Received(b, 0);
    ReachableStep(b, PushFrame(7));
    b := Pushed(b, 7);
    assert b.book.backlog == [7];
    ReachableStep(b, SendPushed(0, 7));
    b := Apply(b, SendPushed(0, 7));
    assert b.sends == {};
    assert Stranded(b, 7);
  }
}
