/** The panel's side of a node connection (panel/panel-backend/internal/node/grpc_server.go): the stream
    registry and one run of `Connect`, from the handshake to the deferred cleanup. */
module NodeStreams {
  import opened Prelude
  import opened NodeService

  /** Identity of a running `Connect`, which is also the identity of its stream. */
  type HandlerId = nat

  type Streams = map<NodeId, HandlerId>

  datatype NodeMessage =
    | Handshake(reconnectSecret: Secret, info: HostInfo)
    | Heartbeat(now: Time)
    | StatusReport(snapshot: Snapshot, now: Time)
    | Unknown

  datatype Refusal = NotAHandshake | AuthFailed | Denied(error: NodeError)

  datatype Ack = Accept(node: NodeId, secret: Secret) | Refuse(refusal: Refusal)

  datatype Panel = Panel(rows: Table, snapshots: map<NodeId, Snapshot>, streams: Streams)

  // ---------- specification ----------

  /** A newer stream replaces an older one of the same node. */
  function StreamAdded(s: Streams, id: NodeId, h: HandlerId): Streams {
    s[id := h]
  }

  /** Cleanup removes only the handler's own entry. */
  function StreamRemoved(s: Streams, id: NodeId, h: HandlerId): Streams {
    if id in s && s[id] == h then s - {id} else s
  }

  function Handled(p: Panel, id: NodeId, m: NodeMessage): Panel {
    match m
    case Heartbeat(now) => p.(rows := SeenOnline(p.rows, id, now))
    case StatusReport(snap, now) => p.(rows := SeenOnline(p.rows, id, now), snapshots := p.snapshots[id := snap])
    case _ => p
  }

  function HandledAll(p: Panel, id: NodeId, ms: seq<NodeMessage>): Panel {
    if ms == [] then p else Handled(HandledAll(p, id, ms[..|ms| - 1]), id, ms[|ms| - 1])
  }

  function CleanedUp(p: Panel, id: NodeId, h: HandlerId): Panel {
    Panel(WithStatus(p.rows, id, Offline), p.snapshots - {id}, StreamRemoved(p.streams, id, h))
  }

  /** The serving part of a connection that nothing else interferes with. */
  function Served(p: Panel, id: NodeId, h: HandlerId, ms: seq<NodeMessage>): Panel {
    CleanedUp(HandledAll(p.(streams := StreamAdded(p.streams, id, h)), id, ms), id, h)
  }

  ghost function Reply(rows: Table, first: Option<NodeMessage>, authOk: bool, g: Grant): Option<Ack> {
    match first
    case None => None
    case Some(m) =>
      if !m.Handshake? then Some(Refuse(NotAHandshake))
      else if !authOk then Some(Refuse(AuthFailed))
      else
        var r := Admitted(rows, m.reconnectSecret, g.(info := m.info));
        Some(if r.Ok? then Accept(r.value, g.newSecret) else Refuse(Denied(r.error)))
  }

  /** The whole connection. A failed ack send ends it before the cleanup is installed. */
  ghost function AfterConnect(p: Panel, h: HandlerId, first: Option<NodeMessage>, authOk: bool, g: Grant,
                              ackSent: bool, incoming: seq<NodeMessage>): Panel {
    var ack := Reply(p.rows, first, authOk, g);
    if ack.Some? && ack.value.Accept? then
      var admitted := p.(rows := AfterHandshake(p.rows, first.value.reconnectSecret, g.(info := first.value.info)));
      if ackSent then Served(admitted, ack.value.node, h, incoming) else admitted
    else p
  }

  class GRPCServer {
    const svc: Service
    var streams: Streams

    ghost predicate Valid()
      reads this, svc
    {
      svc.Valid()
    }

    ghost function Abstract(): Panel
      reads this, svc
    {
      Panel(svc.rows, svc.snapshots, streams)
    }

    constructor (svc: Service)
      requires svc.Valid()
      ensures this.svc == svc && streams == map[] && Valid()
    {
      this.svc := svc;
      streams := map[];
    }

    /** `incoming` is what the node sends after the handshake until the stream ends. */
    method Connect(h: HandlerId, first: Option<NodeMessage>, authOk: bool, g: Grant, ackSent: bool,
                   incoming: seq<NodeMessage>)
      returns (ack: Option<Ack>)
      requires Valid() && forall i :: !Holds(svc.rows, i, g.newSecret)
      modifies this, svc
      ensures Valid()
      ensures ack == Reply(old(svc.rows), first, authOk, g)
      ensures Abstract() == AfterConnect(old(Abstract()), h, first, authOk, g, ackSent, incoming)
    {
      if first.None? {
        return None;
      }
      var hs := first.value;
      if !hs.Handshake? {
        return Some(Refuse(NotAHandshake));
      }
      if !authOk {
        return Some(Refuse(AuthFailed));
      }
      var r;
      if hs.reconnectSecret != "" {
        r := svc.Reconnect(hs.reconnectSecret, g.newSecret, hs.info, g.now, g.stored);
      } else {
        r := svc.Register(g.newId, g.newSecret, hs.info, g.now, g.stored);
      }
      if r.Err? {
        return Some(Refuse(Denied(r.error)));
      }
      var (nodeID, secret) := r.value;
      ack := Some(Accept(nodeID, secret));
      assert svc.rows == AfterHandshake(old(svc.rows), hs.reconnectSecret, g.(info := hs.info));
      if !ackSent {
        return;
      }
      ghost var admitted := Abstract();
      streams := streams[nodeID := h];
      ServeMessages(nodeID, incoming);
      if nodeID in streams && streams[nodeID] == h {
        streams := streams - {nodeID};
      }
      svc.MarkOffline(nodeID);
      assert Abstract() == Served(admitted, nodeID, h, incoming);
    }

    /** The read loop. */
    method ServeMessages(nodeID: NodeId, incoming: seq<NodeMessage>)
      requires Valid()
      modifies svc
      ensures Valid() && Abstract() == HandledAll(old(Abstract()), nodeID, incoming)
    {
      for i := 0 to |incoming|
        invariant Valid() && Abstract() == HandledAll(old(Abstract()), nodeID, incoming[..i])
      {
        assert incoming[..i + 1][..i] == incoming[..i];
        match incoming[i]
        case Heartbeat(now) =>
          svc.MarkOnline(nodeID, now);
        case StatusReport(snap, now) =>
          svc.MarkOnline(nodeID, now);
          svc.UpdateSnapshot(nodeID, snap);
        case _ =>
      }
      assert incoming[..|incoming|] == incoming;
    }

    method SendToNode(nodeID: NodeId, sendFails: bool) returns (to: Option<HandlerId>, ok: bool)
      ensures to == if nodeID in streams then Some(streams[nodeID]) else None
      ensures ok <==> nodeID in streams && !sendFails
    {
      if nodeID !in streams {
        return None, false;
      }
      return Some(streams[nodeID]), !sendFails;
    }

    method ConnectedCount() returns (n: nat)
      ensures n == |streams.Keys|
    {
      n := |streams|;
    }
  }

  /** A connection left alone cleans up completely: whatever it served, the node is offline without stream
      and snapshot, and no other node's stream or snapshot was touched. */
  lemma {:induction false} ServedLeavesNothing(p: Panel, id: NodeId, h: HandlerId, ms: seq<NodeMessage>)
    ensures var q := Served(p, id, h, ms);
            && q.streams == p.streams - {id} && q.snapshots == p.snapshots - {id}
            && (Live(q.rows, id) ==> q.rows[id].status == Offline)
            && (forall i | i != id :: (i in q.rows <==> i in p.rows) && (i in p.rows ==> q.rows[i] == p.rows[i]))
  {
    HandledAllFacts(p.(streams := StreamAdded(p.streams, id, h)), id, ms);
  }

  lemma {:induction false} HandledAllFacts(p: Panel, id: NodeId, ms: seq<NodeMessage>)
    ensures var q := HandledAll(p, id, ms);
            && q.streams == p.streams && q.snapshots - {id} == p.snapshots - {id}
            && (forall i | i != id :: (i in q.rows <==> i in p.rows) && (i in p.rows ==> q.rows[i] == p.rows[i]))
  {
    if ms != [] {
      HandledAllFacts(p, id, ms[..|ms| - 1]);
    }
  }

  /** An accepting ack answers a handshake that passed the cluster token, carries the new secret, and leaves the
      row of its node online under exactly that secret: the row of the secret's live holder, or a new one. */
  lemma AcceptMeans(rows: Table, first: Option<NodeMessage>, authOk: bool, g: Grant, n: NodeId, x: Secret)
    requires Reply(rows, first, authOk, g) == Some(Accept(n, x))
    ensures authOk && g.stored && x == g.newSecret && first.Some? && first.value.Handshake?
    ensures var sent, info := first.value.reconnectSecret, first.value.info;
            && (sent != "" ==> n in rows && !rows[n].deleted && rows[n].secret == sent)
            && (sent == "" ==> n == g.newId && n !in rows)
            && AfterHandshake(rows, sent, g.(info := info)) == rows[n := Row(x, Online, info, g.now, g.now, false)]
  {
  }

  /** Every other answer leaves the panel as it was. */
  lemma RefusedChangesNothing(p: Panel, h: HandlerId, first: Option<NodeMessage>, authOk: bool, g: Grant,
                              ackSent: bool, incoming: seq<NodeMessage>)
    requires var ack := Reply(p.rows, first, authOk, g); ack.None? || ack.value.Refuse?
    ensures AfterConnect(p, h, first, authOk, g, ackSent, incoming) == p
    ensures first.None? || !first.value.Handshake? || !authOk || !g.stored
            || (first.value.reconnectSecret == "" && g.newId in p.rows)
            || (first.value.reconnectSecret != ""
                && forall n | n in p.rows && !p.rows[n].deleted :: p.rows[n].secret != first.value.reconnectSecret)
  {
    if first.Some? && first.value.Handshake? {
      forall n | n in p.rows && !p.rows[n].deleted && p.rows[n].secret == first.value.reconnectSecret
        ensures Holds(p.rows, n, first.value.reconnectSecret)
      {
      }
    }
  }

  /** When the node was last heard of: at its latest heartbeat or report, else when it connected. */
  function LastHeard(ms: seq<NodeMessage>, since: Time): Time {
    if ms == [] then since
    else
      match ms[|ms| - 1]
      case Heartbeat(now) => now
      case StatusReport(_, now) => now
      case _ => LastHeard(ms[..|ms| - 1], since)
  }

  function LastReport(ms: seq<NodeMessage>): Option<Snapshot> {
    if ms == [] then None
    else if ms[|ms| - 1].StatusReport? then Some(ms[|ms| - 1].snapshot)
    else LastReport(ms[..|ms| - 1])
  }

  /** While a connection is served, its node is shown online, heard of at its latest heartbeat or report,
      with the latest report as its snapshot. */
  lemma {:induction false} ServingShows(p: Panel, id: NodeId, ms: seq<NodeMessage>)
    requires id in p.rows && !p.rows[id].deleted && p.rows[id].status == Online
    ensures var q, last := HandledAll(p, id, ms), LastReport(ms);
            && q.rows == p.rows[id := p.rows[id].(lastSeenAt := LastHeard(ms, p.rows[id].lastSeenAt))]
            && q.snapshots == (if last.Some? then p.snapshots[id := last.value] else p.snapshots)
            && q.streams == p.streams
  {
    if ms != [] {
      ServingShows(p, id, ms[..|ms| - 1]);
    } else {
      assert p.rows[id := p.rows[id].(lastSeenAt := p.rows[id].lastSeenAt)] == p.rows;
    }
  }

  /** After a connection the row keeps what the handshake wrote and the time of the latest message. */
  lemma ServedRow(p: Panel, id: NodeId, h: HandlerId, ms: seq<NodeMessage>)
    requires id in p.rows && !p.rows[id].deleted && p.rows[id].status == Online
    ensures Served(p, id, h, ms).rows
         == p.rows[id := p.rows[id].(status := Offline, lastSeenAt := LastHeard(ms, p.rows[id].lastSeenAt))]
  {
    ServingShows(p.(streams := StreamAdded(p.streams, id, h)), id, ms);
  }
}
