/** Agents and panel together (node/internal/agent/agent.go, panel/panel-backend/internal/node): every
    interleaving of agents, connection handlers, admin deletions and restarts of either side. Each event
    is one atomic action of one of them; handlers of one node interleave freely. */
module NodeProtocol {
  import opened Prelude
  import opened NodeService
  import opened NodeStreams
  import NodeAgent

  type AgentId = nat

  /** Where one run of `Connect` stands. */
  datatype Phase =
    | Arrived        // the handshake is on its way or waits to be read
    | Refused        // the handshake was refused, the handler has returned
    | Granted        // Register or Reconnect is done, the ack not yet sent
    | AckFailed      // sending the ack failed: returned before the cleanup was installed
    | AckSent        // the stream is not registered yet
    | Serving        // the stream is registered, messages are read
    | Unregistered   // the cleanup has removed the stream entry, if it was its own
    | StatusCleared  // MarkOffline has written the status
    | Finished       // MarkOffline has dropped the snapshot
    | Killed         // the panel restarted meanwhile

  /** What is in flight from a handler to its agent. */
  datatype Mail = NoMail | RefusalMail | AckMail

  /** since numbers the stream registrations, 0 before; issued is "" until the handshake is granted. */
  datatype Handler = Handler(agent: AgentId, sent: Secret, phase: Phase, node: NodeId, issued: Secret, mail: Mail,
                             since: nat)

  datatype AgentPhase = Idle | Waiting(h: HandlerId) | Persisting | Connected

  /** unsaved: the secret in memory was not written to the file. lost: an ack, or the persisting of one,
      was lost: the panel rotated the secret and the agent cannot learn the new one any more. */
  datatype Agent = Agent(st: NodeAgent.State, phase: AgentPhase, unsaved: bool, lost: bool)

  /** owner, holder, nodeOf and redeemed record history: who registered a node, to whom and for which node
      a secret was issued, and the secrets Reconnect has accepted, in order. */
  datatype System = System(panel: Panel, handlers: map<HandlerId, Handler>, agents: map<AgentId, Agent>,
                           registrations: nat,
                           owner: map<NodeId, AgentId>, holder: map<Secret, AgentId>, nodeOf: map<Secret, NodeId>,
                           redeemed: seq<Secret>)

  datatype Event =
    | AgentConnects(a: AgentId, h: HandlerId)
    | PanelAnswers(h: HandlerId, authOk: bool, g: Grant)
    | AckGoesOut(h: HandlerId, sent: bool)
    | StreamRegisters(h: HandlerId)
    | MarksOnline(h: HandlerId, now: Time)
    | StoresSnapshot(h: HandlerId, snap: Snapshot)
    | StreamUnregisters(h: HandlerId)
    | StatusClears(h: HandlerId)
    | SnapshotClears(h: HandlerId)
    | AdminDropsSnapshot(id: NodeId)
    | AdminDeletesRow(id: NodeId)
    | PanelRestarts
    | AgentTakesAck(a: AgentId)
    | AgentTakesRefusal(a: AgentId)
    | AgentPersists(a: AgentId, writable: bool)
    | AgentGivesUp(a: AgentId)
    | AgentDisconnects(a: AgentId)
    | AgentRestarts(a: AgentId)

  /** The events of the agents' processes; the others happen on the panel. */
  predicate AgentSide(e: Event) {
    e.AgentConnects? || e.AgentTakesAck? || e.AgentTakesRefusal? || e.AgentPersists? || e.AgentGivesUp?
    || e.AgentDisconnects? || e.AgentRestarts?
  }

  /** The events that open a connection on the panel. */
  predicate Opening(e: Event) {
    e.PanelAnswers? || e.AckGoesOut? || e.StreamRegisters?
  }

  // ---------- when an event can happen ----------

  predicate InPhase(s: System, h: HandlerId, p: Phase) {
    h in s.handlers && s.handlers[h].phase == p
  }

  predicate AgentIn(s: System, a: AgentId, p: AgentPhase) {
    a in s.agents && s.agents[a].phase == p
  }

  predicate IsWaiting(s: System, a: AgentId) {
    a in s.agents && s.agents[a].phase.Waiting? && s.agents[a].phase.h in s.handlers
  }

  predicate MailIs(s: System, a: AgentId, m: Mail) {
    IsWaiting(s, a) && s.handlers[s.agents[a].phase.h].mail == m
  }

  /** Random values are fresh. */
  predicate Fresh(s: System, g: Grant) {
    g.newSecret != "" && g.newSecret !in s.holder && g.newId !in s.panel.rows
  }

  predicate Enabled(s: System, e: Event) {
    match e
    case AgentConnects(a, h) => AgentIn(s, a, Idle) && h !in s.handlers
    case PanelAnswers(h, _, g) => InPhase(s, h, Arrived) && s.handlers[h].agent in s.agents && Fresh(s, g)
    case AckGoesOut(h, _) => InPhase(s, h, Granted) && s.handlers[h].agent in s.agents
    case StreamRegisters(h) => InPhase(s, h, AckSent)
    case MarksOnline(h, _) => InPhase(s, h, Serving)
    case StoresSnapshot(h, _) => InPhase(s, h, Serving)
    case StreamUnregisters(h) => InPhase(s, h, Serving)
    case StatusClears(h) => InPhase(s, h, Unregistered)
    case SnapshotClears(h) => InPhase(s, h, StatusCleared)
    case AdminDropsSnapshot(_) => true
    case AdminDeletesRow(_) => true
    case PanelRestarts => true
    case AgentTakesAck(a) => MailIs(s, a, AckMail)
    case AgentTakesRefusal(a) => MailIs(s, a, RefusalMail)
    case AgentPersists(a, _) => AgentIn(s, a, Persisting)
    case AgentGivesUp(a) => IsWaiting(s, a)
    case AgentDisconnects(a) => AgentIn(s, a, Connected)
    case AgentRestarts(a) => a in s.agents
  }

  // ---------- what it does ----------

  function Moved(s: System, h: HandlerId, p: Phase): System
    requires h in s.handlers
  {
    s.(handlers := s.handlers[h := s.handlers[h].(phase := p)])
  }

  function Loses(s: System, a: AgentId, lost: bool): System
    requires a in s.agents
  {
    s.(agents := s.agents[a := s.agents[a].(lost := s.agents[a].lost || lost)])
  }

  function Connect(s: System, a: AgentId, h: HandlerId): System
    requires Enabled(s, AgentConnects(a, h))
  {
    s.(agents := s.agents[a := s.agents[a].(phase := Waiting(h))],
       handlers := s.handlers[h := Handler(a, NodeAgent.Stored(s.agents[a].st), Arrived, "", "", NoMail, 0)])
  }

  /** An ack for an agent that has stopped waiting is lost at once. */
  ghost function Answer(s: System, h: HandlerId, authOk: bool, g: Grant): System
    requires Enabled(s, PanelAnswers(h, authOk, g))
  {
    var hd := s.handlers[h];
    var r := if authOk then Admitted(s.panel.rows, hd.sent, g) else Err(InvalidSecret);
    if r.Ok? then
      Loses(s.(panel := s.panel.(rows := AfterHandshake(s.panel.rows, hd.sent, g)),
               handlers := s.handlers[h := hd.(phase := Granted, node := r.value, issued := g.newSecret)],
               owner := s.owner[r.value := hd.agent],
               holder := s.holder[g.newSecret := hd.agent],
               nodeOf := s.nodeOf[g.newSecret := r.value],
               redeemed := if hd.sent != "" then s.redeemed + [hd.sent] else s.redeemed),
            hd.agent, s.agents[hd.agent].phase != Waiting(h))
    else s.(handlers := s.handlers[h := hd.(phase := Refused, mail := RefusalMail)])
  }

  function SendAck(s: System, h: HandlerId, sent: bool): System
    requires Enabled(s, AckGoesOut(h, sent))
  {
    var hd := s.handlers[h];
    if sent then s.(handlers := s.handlers[h := hd.(phase := AckSent, mail := AckMail)])
    else Loses(Moved(s, h, AckFailed), hd.agent, true)
  }

  function RegisterStream(s: System, h: HandlerId): System
    requires Enabled(s, StreamRegisters(h))
  {
    var hd := s.handlers[h];
    s.(handlers := s.handlers[h := hd.(phase := Serving, since := s.registrations + 1)],
       registrations := s.registrations + 1,
       panel := s.panel.(streams := StreamAdded(s.panel.streams, hd.node, h)))
  }

  function Kill(hd: Handler): Handler {
    if hd.phase.Refused? || hd.phase.Finished? then hd else hd.(phase := Killed)
  }

  /** A granted handshake whose ack was not sent yet dies with the panel. */
  predicate AckDies(s: System, a: AgentId) {
    IsWaiting(s, a) && s.handlers[s.agents[a].phase.h].phase == Granted
  }

  function RestartPanel(s: System): System {
    s.(panel := Panel(AllOffline(s.panel.rows), map[], map[]),
       handlers := map h | h in s.handlers :: Kill(s.handlers[h]),
       agents := map a | a in s.agents :: s.agents[a].(lost := s.agents[a].lost || AckDies(s, a)))
  }

  /** The agent stops waiting: what is granted or in flight for it will not arrive. */
  predicate MissesAck(s: System, a: AgentId) {
    && IsWaiting(s, a)
    && (s.handlers[s.agents[a].phase.h].phase == Granted || s.handlers[s.agents[a].phase.h].mail == AckMail)
  }

  function MailGone(s: System, a: AgentId): map<HandlerId, Handler> {
    if IsWaiting(s, a)
    then s.handlers[s.agents[a].phase.h := s.handlers[s.agents[a].phase.h].(mail := NoMail)]
    else s.handlers
  }

  function TakeAck(s: System, a: AgentId): System
    requires Enabled(s, AgentTakesAck(a))
  {
    var ag := s.agents[a];
    var hd := s.handlers[ag.phase.h];
    var ack := NodeAgent.HandshakeAck(true, hd.node, hd.issued, 10, 30);
    s.(agents := s.agents[a := ag.(st := NodeAgent.AckAccepted(ag.st, ack), phase := Persisting)],
       handlers := MailGone(s, a))
  }

  function Persist(s: System, a: AgentId, writable: bool): System
    requires Enabled(s, AgentPersists(a, writable))
  {
    var ag := s.agents[a];
    s.(agents := s.agents[a := ag.(st := NodeAgent.SecretWritten(ag.st, ag.st.memory, writable), phase := Connected,
                                   unsaved := !(ag.st.hasFile && writable))])
  }

  function StopWaiting(s: System, a: AgentId): System
    requires IsWaiting(s, a)
  {
    s.(agents := s.agents[a := s.agents[a].(phase := Idle, lost := s.agents[a].lost || MissesAck(s, a))],
       handlers := MailGone(s, a))
  }

  /** The process starts again with what the secret file holds; RECONNECT_SECRET is not set. */
  function RestartAgent(s: System, a: AgentId): System
    requires a in s.agents
  {
    var ag := s.agents[a];
    s.(agents := s.agents[a := Agent(NodeAgent.Booted("", ag.st.hasFile, ag.st.file), Idle, false,
                                     ag.lost || ag.unsaved || ag.phase == Persisting || MissesAck(s, a))],
       handlers := MailGone(s, a))
  }

  ghost function Step(s: System, e: Event): System
    requires Enabled(s, e)
  {
    match e
    case AgentConnects(a, h) => Connect(s, a, h)
    case PanelAnswers(h, authOk, g) => Answer(s, h, authOk, g)
    case AckGoesOut(h, sent) => SendAck(s, h, sent)
    case StreamRegisters(h) => RegisterStream(s, h)
    case MarksOnline(h, now) => s.(panel := s.panel.(rows := SeenOnline(s.panel.rows, s.handlers[h].node, now)))
    case StoresSnapshot(h, snap) => s.(panel := s.panel.(snapshots := s.panel.snapshots[s.handlers[h].node := snap]))
    case StreamUnregisters(h) =>
      Moved(s, h, Unregistered).(panel := s.panel.(streams := StreamRemoved(s.panel.streams, s.handlers[h].node, h)))
    case StatusClears(h) =>
      Moved(s, h, StatusCleared).(panel := s.panel.(rows := WithStatus(s.panel.rows, s.handlers[h].node, Offline)))
    case SnapshotClears(h) =>
      Moved(s, h, Finished).(panel := s.panel.(snapshots := s.panel.snapshots - {s.handlers[h].node}))
    case AdminDropsSnapshot(id) => s.(panel := s.panel.(snapshots := s.panel.snapshots - {id}))
    case AdminDeletesRow(id) => s.(panel := s.panel.(rows := Deleted(s.panel.rows, id)))
    case PanelRestarts => RestartPanel(s)
    case AgentTakesAck(a) => TakeAck(s, a)
    case AgentTakesRefusal(a) => StopWaiting(s, a)
    case AgentPersists(a, writable) => Persist(s, a, writable)
    case AgentGivesUp(a) => StopWaiting(s, a)
    case AgentDisconnects(a) => s.(agents := s.agents[a := s.agents[a].(phase := Idle)])
    case AgentRestarts(a) => RestartAgent(s, a)
  }

  /** A first start of everything: empty tables, agents without secret. */
  ghost predicate Initial(s: System) {
    && s.panel == Panel(map[], map[], map[]) && s.handlers == map[] && s.registrations == 0
    && s.owner == map[] && s.holder == map[] && s.nodeOf == map[] && s.redeemed == []
    && forall a | a in s.agents ::
         s.agents[a] == Agent(NodeAgent.Booted("", s.agents[a].st.hasFile, None), Idle, false, false)
  }

  ghost predicate PossibleRun(s: System, es: seq<Event>)
    decreases |es|
  {
    es != [] ==> Enabled(s, es[0]) && PossibleRun(Step(s, es[0]), es[1..])
  }

  ghost function Run(s: System, es: seq<Event>): System
    requires PossibleRun(s, es)
    decreases |es|
  {
    if es == [] then s else Run(Step(s, es[0]), es[1..])
  }
}
