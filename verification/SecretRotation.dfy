/** The rotating reconnect secrets over every interleaving of agents and panel: agreement between an
    agent's secret and its node's row, single use, and finality of deletion. */
module SecretRotation {
  import opened Prelude
  import opened NodeService
  import opened NodeStreams
  import opened NodeProtocol
  import NodeAgent

  // ---------- bookkeeping ----------

  lemma OpeningLossStays(s: System, e: Event, a: AgentId)
    requires Enabled(s, e) && Opening(e)
    ensures a in Step(s, e).agents <==> a in s.agents
    ensures a in s.agents && s.agents[a].lost ==> Step(s, e).agents[a].lost
  {
  }

  lemma LaterLossStays(s: System, e: Event, a: AgentId)
    requires Enabled(s, e) && !AgentSide(e) && !Opening(e)
    ensures a in Step(s, e).agents <==> a in s.agents
    ensures a in s.agents && s.agents[a].lost ==> Step(s, e).agents[a].lost
  {
  }

  lemma AgentLossStays(s: System, e: Event, a: AgentId)
    requires Enabled(s, e) && AgentSide(e)
    ensures a in Step(s, e).agents <==> a in s.agents
    ensures a in s.agents && s.agents[a].lost ==> Step(s, e).agents[a].lost
  {
  }

  /** The secret is absent, or was issued to agent a. */
  predicate IssuedTo(s: System, secret: Secret, a: AgentId) {
    secret == "" || (secret in s.holder && s.holder[secret] == a)
  }

  /** Every row belongs to the agent its secret was issued to. */
  ghost predicate RowBooked(s: System, id: NodeId) {
    id in s.panel.rows ==>
      && id in s.owner && s.panel.rows[id].secret != "" && IssuedTo(s, s.panel.rows[id].secret, s.owner[id])
      && s.panel.rows[id].secret in s.nodeOf && s.nodeOf[s.panel.rows[id].secret] == id
  }

  /** Every secret ever issued is redeemed, or is the current one of the node it was issued for. */
  ghost predicate SecretBooked(s: System, secret: Secret) {
    secret in s.nodeOf ==>
      && s.nodeOf[secret] in s.panel.rows
      && (secret in s.redeemed || s.panel.rows[s.nodeOf[secret]].secret == secret)
  }

  predicate IsGranted(p: Phase) {
    p.Granted? || p.AckFailed? || p.AckSent? || p.Serving? || p.Unregistered? || p.StatusCleared? || p.Finished?
  }

  ghost predicate HandlerBooked(s: System, h: HandlerId) {
    h in s.handlers ==>
      var hd := s.handlers[h];
      && IssuedTo(s, hd.sent, hd.agent) && IssuedTo(s, hd.issued, hd.agent)
      && (hd.issued != "" ==> hd.node in s.owner && s.owner[hd.node] == hd.agent)
      && (hd.issued != "" && hd.sent != "" ==> hd.sent in s.redeemed)
      && (IsGranted(hd.phase) || hd.mail == AckMail ==> hd.issued != "")
      && (hd.phase.Granted? ==> hd.mail == NoMail)
      && (hd.phase.Arrived? ==> hd.issued == "" && hd.mail == NoMail)
      && (hd.mail == RefusalMail ==> hd.issued == "")
  }

  /** The file holds the stored secret, unless writing it is still to be done or has failed. */
  predicate FileInStep(ag: Agent) {
    && (ag.phase.Persisting? ==> ag.st.memory != "")
    && (ag.st.hasFile && !ag.unsaved && !ag.phase.Persisting? && NodeAgent.Stored(ag.st) != "" ==>
          ag.st.file == Some(NodeAgent.Stored(ag.st)))
  }

  /** A file that exists holds the stored secret or, while that is not written, a redeemed one. */
  predicate FileBooked(s: System, ag: Agent) {
    ag.st.file.Some? ==>
      && ag.st.hasFile && ag.st.file.value != "" && NodeAgent.Stored(ag.st) != ""
      && (ag.unsaved || ag.phase.Persisting? ==> ag.st.file.value in s.redeemed)
  }

  /** The handler an agent waits on is its own and was sent the secret the agent stores. */
  predicate WaitsOnOwn(s: System, a: AgentId)
    requires a in s.agents
  {
    s.agents[a].phase.Waiting? ==>
      && s.agents[a].phase.h in s.handlers
      && s.handlers[s.agents[a].phase.h].agent == a
      && s.handlers[s.agents[a].phase.h].sent == NodeAgent.Stored(s.agents[a].st)
  }

  ghost predicate AgentBooked(s: System, a: AgentId) {
    a in s.agents ==>
      var st := s.agents[a].st;
      && IssuedTo(s, st.memory, a) && IssuedTo(s, st.configured, a) && (st.file.Some? ==> IssuedTo(s, st.file.value, a))
      && FileInStep(s.agents[a]) && FileBooked(s, s.agents[a]) && WaitsOnOwn(s, a)
  }

  ghost predicate RowsDistinct(s: System) {
    forall i, j | i in s.panel.rows && j in s.panel.rows && s.panel.rows[i].secret == s.panel.rows[j].secret :: i == j
  }

  /** Redeemed secrets are pairwise distinct and in no row. */
  ghost predicate Retired(s: System) {
    && (forall i, j | 0 <= i < j < |s.redeemed| :: s.redeemed[i] != s.redeemed[j])
    && (forall r | r in s.redeemed :: r in s.holder)
    && forall id | id in s.panel.rows :: s.panel.rows[id].secret !in s.redeemed
  }

  ghost predicate Booked(s: System) {
    && "" !in s.holder
    && s.nodeOf.Keys == s.holder.Keys
    && s.owner.Keys == s.panel.rows.Keys
    && (forall id :: RowBooked(s, id))
    && (forall secret :: SecretBooked(s, secret))
    && (forall h :: HandlerBooked(s, h))
    && (forall a :: AgentBooked(s, a))
    && RowsDistinct(s)
    && Retired(s)
  }

  // ---------- agreement ----------

  predicate Owns(s: System, a: AgentId, n: NodeId) {
    n in s.owner && s.owner[n] == a
  }

  predicate Saved(ag: Agent, secret: Secret) {
    ag.unsaved || (ag.st.hasFile && ag.st.file == Some(secret))
  }

  /** An agent that lost nothing and has no node yet has no secret either. */
  ghost predicate Unregistered(s: System, a: AgentId)
    requires a in s.agents
  {
    var ag := s.agents[a];
    && ag.st.memory == "" && ag.st.configured == "" && ag.st.file == None && !ag.unsaved
    && (ag.phase.Idle? || (ag.phase.Waiting? && ag.phase.h in s.handlers
                           && s.handlers[ag.phase.h].sent == "" && s.handlers[ag.phase.h].issued == ""))
  }

  /** An agent that lost nothing stores its node's current secret, or the ack carrying it is under way. */
  ghost predicate Agrees(s: System, a: AgentId, n: NodeId)
    requires a in s.agents && n in s.panel.rows
  {
    var ag, current := s.agents[a], s.panel.rows[n].secret;
    match ag.phase
    case Idle => NodeAgent.Stored(ag.st) == current && Saved(ag, current)
    case Connected => NodeAgent.Stored(ag.st) == current && Saved(ag, current)
    case Persisting => ag.st.memory == current
    case Waiting(h) =>
      h in s.handlers &&
      var hd := s.handlers[h];
      if hd.issued != "" then
        hd.issued == current && hd.node == n && UnderWay(hd)
      else
        hd.sent == current && NodeAgent.Stored(ag.st) == current && Saved(ag, current)
  }

  ghost predicate OneNode(s: System, a: AgentId) {
    forall m, n | Owns(s, a, m) && Owns(s, a, n) :: m == n
  }

  ghost predicate AgentInv(s: System, a: AgentId) {
    a in s.agents && !s.agents[a].lost ==>
      && OneNode(s, a)
      && (forall n | Owns(s, a, n) :: n in s.panel.rows && Agrees(s, a, n))
      && ((forall n :: !Owns(s, a, n)) ==> Unregistered(s, a))
  }

  ghost predicate Inv(s: System) {
    Booked(s) && forall a :: AgentInv(s, a)
  }

  // ---------- events that grant nothing ----------

  /** The event is a handshake the panel grants. */
  ghost predicate Grants(s: System, e: Event)
    requires Enabled(s, e)
  {
    e.PanelAnswers? && e.authOk && Admitted(s.panel.rows, s.handlers[e.h].sent, e.g).Ok?
  }

  /** No secret changes hands. */
  ghost predicate Quiet(s: System, s': System) {
    && s'.owner == s.owner && s'.holder == s.holder && s'.nodeOf == s.nodeOf && s'.redeemed == s.redeemed
    && s'.panel.rows.Keys == s.panel.rows.Keys
    && forall id | id in s.panel.rows :: s'.panel.rows[id].secret == s.panel.rows[id].secret
  }

  lemma AgentQuietStep(s: System, e: Event)
    requires Enabled(s, e) && AgentSide(e)
    ensures Quiet(s, Step(s, e))
  {
  }

  lemma OpeningPanelQuietStep(s: System, e: Event)
    requires Enabled(s, e) && !AgentSide(e) && !Grants(s, e) && Opening(e)
    ensures Quiet(s, Step(s, e))
  {
  }

  lemma LaterPanelQuietStep(s: System, e: Event)
    requires Enabled(s, e) && !AgentSide(e) && !Grants(s, e) && !AgentSide(e) && !Opening(e)
    ensures Quiet(s, Step(s, e))
  {
  }

  lemma PanelQuietStep(s: System, e: Event)
    requires Enabled(s, e) && !AgentSide(e) && !Grants(s, e)
    ensures Quiet(s, Step(s, e))
  {
    if Opening(e) {
      OpeningPanelQuietStep(s, e);
    } else {
      LaterPanelQuietStep(s, e);
    }
  }

  lemma QuietStep(s: System, e: Event)
    requires Enabled(s, e) && !Grants(s, e)
    ensures Quiet(s, Step(s, e))
  {
    if AgentSide(e) {
      AgentQuietStep(s, e);
    } else {
      PanelQuietStep(s, e);
    }
  }

  /** No event adds an agent or takes back a loss. */
  lemma LossStays(s: System, e: Event, a: AgentId)
    requires Enabled(s, e)
    ensures a in Step(s, e).agents <==> a in s.agents
    ensures a in s.agents && s.agents[a].lost ==> Step(s, e).agents[a].lost
  {
    if AgentSide(e) {
      AgentLossStays(s, e, a);
    } else if Opening(e) {
      OpeningLossStays(s, e, a);
    } else {
      LaterLossStays(s, e, a);
    }
  }

  /** What an event that grants nothing can do to a handler that exists. */
  ghost predicate HandlerMoves(x: Handler, y: Handler) {
    && y.agent == x.agent && y.sent == x.sent && y.node == x.node && y.issued == x.issued
    && (IsGranted(y.phase) ==> IsGranted(x.phase))
    && (y.phase.Granted? ==> x.phase.Granted? && (y.mail == x.mail || y.mail == NoMail))
    && (y.phase.Arrived? ==> x.phase.Arrived? && (x.mail == NoMail ==> y.mail == NoMail))
    && (|| y.mail == x.mail || y.mail == NoMail
        || (y.mail == AckMail && x.phase.Granted?) || (y.mail == RefusalMail && x.phase.Arrived?))
  }

  lemma AgentHandlerStep(s: System, e: Event, h: HandlerId)
    requires Enabled(s, e) && AgentSide(e) && h in s.handlers
    ensures h in Step(s, e).handlers && HandlerMoves(s.handlers[h], Step(s, e).handlers[h])
  {
  }

  lemma OpeningPanelHandlerStep(s: System, e: Event, h: HandlerId)
    requires Enabled(s, e) && !AgentSide(e) && !Grants(s, e) && h in s.handlers && Opening(e)
    ensures h in Step(s, e).handlers && HandlerMoves(s.handlers[h], Step(s, e).handlers[h])
  {
  }

  lemma LaterPanelHandlerStep(s: System, e: Event, h: HandlerId)
    requires Enabled(s, e) && !AgentSide(e) && !Grants(s, e) && h in s.handlers && !AgentSide(e) && !Opening(e)
    ensures h in Step(s, e).handlers && HandlerMoves(s.handlers[h], Step(s, e).handlers[h])
  {
  }

  lemma PanelHandlerStep(s: System, e: Event, h: HandlerId)
    requires Enabled(s, e) && !AgentSide(e) && !Grants(s, e) && h in s.handlers
    ensures h in Step(s, e).handlers && HandlerMoves(s.handlers[h], Step(s, e).handlers[h])
  {
    if Opening(e) {
      OpeningPanelHandlerStep(s, e, h);
    } else {
      LaterPanelHandlerStep(s, e, h);
    }
  }

  lemma HandlerStep(s: System, e: Event, h: HandlerId)
    requires Enabled(s, e) && !Grants(s, e) && h in s.handlers
    ensures h in Step(s, e).handlers && HandlerMoves(s.handlers[h], Step(s, e).handlers[h])
  {
    if AgentSide(e) {
      AgentHandlerStep(s, e, h);
    } else {
      PanelHandlerStep(s, e, h);
    }
  }

  lemma NewHandler(s: System, e: Event, h: HandlerId)
    requires Enabled(s, e) && h !in s.handlers && h in Step(s, e).handlers
    ensures e.AgentConnects? && e.h == h && e.a in s.agents
    ensures Step(s, e).handlers[h] == Handler(e.a, NodeAgent.Stored(s.agents[e.a].st), Arrived, "", "", NoMail, 0)
  {
  }

  lemma MovedHandlerBooked(s: System, s': System, h: HandlerId)
    requires h in s.handlers && h in s'.handlers && HandlerBooked(s, h)
    requires HandlerMoves(s.handlers[h], s'.handlers[h]) && Quiet(s, s')
    ensures HandlerBooked(s', h)
  {
  }

  lemma HandlerBookedQuiet(s: System, e: Event, h: HandlerId)
    requires Booked(s) && Enabled(s, e) && !Grants(s, e)
    ensures HandlerBooked(Step(s, e), h)
  {
    var s' := Step(s, e);
    QuietStep(s, e);
    if h in s.handlers {
      assert HandlerBooked(s, h);
      HandlerStep(s, e, h);
      MovedHandlerBooked(s, s', h);
    } else if h in s'.handlers {
      NewHandler(s, e, h);
      assert AgentBooked(s, e.a);
    }
  }

  /** The events agent a takes part in itself. */
  predicate Own(e: Event, a: AgentId) {
    match e
    case AgentConnects(b, _) => a == b
    case AgentTakesAck(b) => a == b
    case AgentTakesRefusal(b) => a == b
    case AgentPersists(b, _) => a == b
    case AgentGivesUp(b) => a == b
    case AgentDisconnects(b) => a == b
    case AgentRestarts(b) => a == b
    case _ => false
  }

  lemma OpeningOthersLeaveAgent(s: System, e: Event, a: AgentId)
    requires Enabled(s, e) && a in s.agents && !Own(e, a) && Opening(e)
    ensures a in Step(s, e).agents
    ensures Step(s, e).agents[a] == s.agents[a].(lost := Step(s, e).agents[a].lost)
  {
  }

  lemma LaterOthersLeaveAgent(s: System, e: Event, a: AgentId)
    requires Enabled(s, e) && a in s.agents && !Own(e, a) && !AgentSide(e) && !Opening(e)
    ensures a in Step(s, e).agents
    ensures Step(s, e).agents[a] == s.agents[a].(lost := Step(s, e).agents[a].lost)
  {
  }

  lemma AgentOthersLeaveAgent(s: System, e: Event, a: AgentId)
    requires Enabled(s, e) && a in s.agents && !Own(e, a) && AgentSide(e)
    ensures a in Step(s, e).agents
    ensures Step(s, e).agents[a] == s.agents[a].(lost := Step(s, e).agents[a].lost)
  {
  }

  lemma OthersLeaveAgent(s: System, e: Event, a: AgentId)
    requires Enabled(s, e) && a in s.agents && !Own(e, a)
    ensures a in Step(s, e).agents
    ensures Step(s, e).agents[a] == s.agents[a].(lost := Step(s, e).agents[a].lost)
  {
    if AgentSide(e) {
      AgentOthersLeaveAgent(s, e, a);
    } else if Opening(e) {
      OpeningOthersLeaveAgent(s, e, a);
    } else {
      LaterOthersLeaveAgent(s, e, a);
    }
  }

  lemma HandlersStay(s: System, e: Event, h: HandlerId)
    requires Enabled(s, e) && h in s.handlers
    ensures h in Step(s, e).handlers
    ensures Step(s, e).handlers[h].agent == s.handlers[h].agent && Step(s, e).handlers[h].sent == s.handlers[h].sent
  {
  }

  lemma AgentBookedOwn(s: System, e: Event, a: AgentId)
    requires AgentBooked(s, a) && Enabled(s, e) && Own(e, a)
    requires s.agents[a].phase.Waiting? ==> HandlerBooked(s, s.agents[a].phase.h)
    ensures AgentBooked(Step(s, e), a)
  {
  }

  lemma AgentBookedQuiet(s: System, e: Event, a: AgentId)
    requires Booked(s) && Enabled(s, e) && !Grants(s, e)
    ensures AgentBooked(Step(s, e), a)
  {
    assert AgentBooked(s, a);
    LossStays(s, e, a);
    if a in s.agents {
      if s.agents[a].phase.Waiting? {
        assert HandlerBooked(s, s.agents[a].phase.h);
      }
      if Own(e, a) {
        AgentBookedOwn(s, e, a);
      } else {
        QuietStep(s, e);
        OthersLeaveAgent(s, e, a);
        if s.agents[a].phase.Waiting? {
          HandlersStay(s, e, s.agents[a].phase.h);
        }
      }
    }
  }

  lemma BookedQuiet(s: System, e: Event)
    requires Booked(s) && Enabled(s, e) && !Grants(s, e)
    ensures Booked(Step(s, e))
  {
    var s' := Step(s, e);
    QuietStep(s, e);
    forall id
      ensures RowBooked(s', id)
    {
      assert RowBooked(s, id);
    }
    forall secret
      ensures SecretBooked(s', secret)
    {
      assert SecretBooked(s, secret);
    }
    forall h
      ensures HandlerBooked(s', h)
    {
      HandlerBookedQuiet(s, e, h);
    }
    forall a
      ensures AgentBooked(s', a)
    {
      AgentBookedQuiet(s, e, a);
    }
  }

  predicate UnderWay(hd: Handler) {
    hd.phase.Granted? || hd.mail == AckMail
  }

  /** Two agents never wait on one handler, so an agent that stops waiting takes only its own mail. */
  lemma AckStaysUnderWay(s: System, e: Event, a: AgentId, h: HandlerId)
    requires Enabled(s, e) && !Own(e, a) && a in s.agents && s.agents[a].phase == Waiting(h)
    requires h in s.handlers && s.handlers[h].agent == a && UnderWay(s.handlers[h])
    requires HandlerBooked(s, h) && forall b :: AgentBooked(s, b)
    requires a in Step(s, e).agents && !Step(s, e).agents[a].lost
    ensures h in Step(s, e).handlers && UnderWay(Step(s, e).handlers[h])
  {
    match e
    case AgentTakesAck(b) => assert AgentBooked(s, b);
    case AgentTakesRefusal(b) => assert AgentBooked(s, b);
    case AgentGivesUp(b) => assert AgentBooked(s, b);
    case AgentRestarts(b) => assert AgentBooked(s, b);
    case _ =>
  }

  /** The handler an agent waits on, under an event of somebody else that loses nothing. */
  lemma WaitedHandler(s: System, e: Event, a: AgentId, h: HandlerId)
    requires Booked(s) && Enabled(s, e) && !Grants(s, e) && !Own(e, a)
    requires a in s.agents && s.agents[a].phase == Waiting(h)
    requires a in Step(s, e).agents && !Step(s, e).agents[a].lost
    ensures h in s.handlers && h in Step(s, e).handlers && HandlerMoves(s.handlers[h], Step(s, e).handlers[h])
    ensures UnderWay(s.handlers[h]) ==> UnderWay(Step(s, e).handlers[h])
  {
    assert AgentBooked(s, a) && HandlerBooked(s, h);
    HandlerStep(s, e, h);
    if UnderWay(s.handlers[h]) {
      AckStaysUnderWay(s, e, a, h);
    }
  }

  lemma AgreesQuiet(s: System, e: Event, a: AgentId, n: NodeId)
    requires Booked(s) && Enabled(s, e) && !Grants(s, e)
    requires a in s.agents && n in s.panel.rows && Owns(s, a, n) && Agrees(s, a, n)
    requires a in Step(s, e).agents && !Step(s, e).agents[a].lost
    ensures n in Step(s, e).panel.rows && Agrees(Step(s, e), a, n)
  {
    var s' := Step(s, e);
    QuietStep(s, e);
    assert AgentBooked(s, a) && RowBooked(s, n);
    if s.agents[a].phase.Waiting? {
      assert HandlerBooked(s, s.agents[a].phase.h);
    }
    if Own(e, a) {
      AgreesOwn(s, e, a, n);
    } else {
      OthersLeaveAgent(s, e, a);
      if s.agents[a].phase.Waiting? {
        WaitedHandler(s, e, a, s.agents[a].phase.h);
      }
    }
  }

  lemma AgreesOwn(s: System, e: Event, a: AgentId, n: NodeId)
    requires Enabled(s, e) && Own(e, a) && RowBooked(s, n)
    requires a in s.agents && n in s.panel.rows && Agrees(s, a, n)
    requires s.agents[a].phase.Waiting? ==> s.agents[a].phase.h in s.handlers && HandlerBooked(s, s.agents[a].phase.h)
    requires !Step(s, e).agents[a].lost
    ensures n in Step(s, e).panel.rows && Agrees(Step(s, e), a, n)
  {
    match e
    case AgentConnects(_, h) =>
    case AgentTakesAck(_) =>
    case AgentTakesRefusal(_) =>
    case AgentPersists(_, _) =>
    case AgentGivesUp(_) =>
    case AgentDisconnects(_) =>
    case AgentRestarts(_) =>
  }

  lemma UnregisteredQuiet(s: System, e: Event, a: AgentId)
    requires Booked(s) && Enabled(s, e) && !Grants(s, e)
    requires a in s.agents && Unregistered(s, a)
    requires a in Step(s, e).agents && !Step(s, e).agents[a].lost
    ensures Unregistered(Step(s, e), a)
  {
    assert AgentBooked(s, a);
    if s.agents[a].phase.Waiting? {
      assert HandlerBooked(s, s.agents[a].phase.h);
    }
    if Own(e, a) {
      UnregisteredOwn(s, e, a);
    } else {
      OthersLeaveAgent(s, e, a);
      if s.agents[a].phase.Waiting? {
        WaitedHandler(s, e, a, s.agents[a].phase.h);
      }
    }
  }

  lemma UnregisteredOwn(s: System, e: Event, a: AgentId)
    requires Enabled(s, e) && Own(e, a) && a in s.agents && Unregistered(s, a)
    requires s.agents[a].phase.Waiting? ==> HandlerBooked(s, s.agents[a].phase.h)
    ensures Unregistered(Step(s, e), a)
  {
  }

  lemma AgentInvQuiet(s: System, e: Event, a: AgentId)
    requires Booked(s) && AgentInv(s, a) && Enabled(s, e) && !Grants(s, e)
    ensures AgentInv(Step(s, e), a)
  {
    var s' := Step(s, e);
    LossStays(s, e, a);
    if a in s'.agents && !s'.agents[a].lost {
      QuietStep(s, e);
      assert forall n :: Owns(s', a, n) <==> Owns(s, a, n);
      forall n | Owns(s', a, n)
        ensures n in s'.panel.rows && Agrees(s', a, n)
      {
        AgreesQuiet(s, e, a, n);
      }
      if forall n :: !Owns(s', a, n) {
        UnregisteredQuiet(s, e, a);
      }
    }
  }

  // ---------- a granted handshake ----------

  /** Everything a granted handshake does, with the node it was granted as. */
  ghost predicate Granting(s: System, s': System, h: HandlerId, n: NodeId, g: Grant) {
    && h in s.handlers && s.handlers[h].phase.Arrived? && Fresh(s, g)
    && var hd := s.handlers[h];
    && hd.agent in s.agents
    && (if hd.sent == "" then n !in s.panel.rows else n in s.panel.rows && s.panel.rows[n].secret == hd.sent)
    && (exists row: Row :: row.secret == g.newSecret && s'.panel.rows == s.panel.rows[n := row])
    && s'.handlers == s.handlers[h := hd.(phase := Granted, node := n, issued := g.newSecret)]
    && s'.owner == s.owner[n := hd.agent]
    && s'.holder == s.holder[g.newSecret := hd.agent] && s'.nodeOf == s.nodeOf[g.newSecret := n]
    && s'.redeemed == (if hd.sent != "" then s.redeemed + [hd.sent] else s.redeemed)
    && var ag := s.agents[hd.agent];
    && s'.agents == s.agents[hd.agent := ag.(lost := ag.lost || ag.phase != Waiting(h))]
  }

  lemma GrantingStep(s: System, e: Event)
    requires Enabled(s, e) && Grants(s, e)
    ensures Granting(s, Step(s, e), e.h, Admitted(s.panel.rows, s.handlers[e.h].sent, e.g).value, e.g)
  {
    var r := Admitted(s.panel.rows, s.handlers[e.h].sent, e.g);
    var row := Row(e.g.newSecret, Online, e.g.info, e.g.now, e.g.now, false);
    assert Step(s, e).panel.rows == s.panel.rows[r.value := row];
  }

  /** The node granted belongs to the agent already, or is new. */
  lemma GrantedToOwner(s: System, s': System, h: HandlerId, n: NodeId, g: Grant)
    requires Booked(s) && Granting(s, s', h, n, g)
    ensures n in s.owner ==> s.owner[n] == s.handlers[h].agent
    ensures n in s.owner <==> s.handlers[h].sent != ""
    ensures s.handlers[h].sent !in s.redeemed
  {
    assert HandlerBooked(s, h) && RowBooked(s, n);
    assert forall r | r in s.redeemed :: r in s.holder;
  }

  lemma IssuedStays(s: System, s': System, h: HandlerId, n: NodeId, g: Grant, secret: Secret, a: AgentId)
    requires Granting(s, s', h, n, g) && IssuedTo(s, secret, a)
    ensures IssuedTo(s', secret, a)
  {
  }

  lemma RowBookedGranted(s: System, s': System, h: HandlerId, n: NodeId, g: Grant, id: NodeId)
    requires Booked(s) && Granting(s, s', h, n, g)
    ensures RowBooked(s', id)
  {
    assert RowBooked(s, id);
    if id in s.panel.rows && id != n {
      IssuedStays(s, s', h, n, g, s.panel.rows[id].secret, s.owner[id]);
    }
  }

  lemma HandlerBookedGranted(s: System, s': System, h: HandlerId, n: NodeId, g: Grant, k: HandlerId)
    requires Booked(s) && Granting(s, s', h, n, g)
    ensures HandlerBooked(s', k)
  {
    GrantedToOwner(s, s', h, n, g);
    assert HandlerBooked(s, k);
    if k in s.handlers {
      IssuedStays(s, s', h, n, g, s.handlers[k].sent, s.handlers[k].agent);
      IssuedStays(s, s', h, n, g, s.handlers[k].issued, s.handlers[k].agent);
    }
  }

  lemma AgentBookedGranted(s: System, s': System, h: HandlerId, n: NodeId, g: Grant, a: AgentId)
    requires Booked(s) && Granting(s, s', h, n, g)
    ensures AgentBooked(s', a)
  {
    assert AgentBooked(s, a);
    if a in s.agents {
      var st := s.agents[a].st;
      IssuedStays(s, s', h, n, g, st.memory, a);
      IssuedStays(s, s', h, n, g, st.configured, a);
      if st.file.Some? {
        IssuedStays(s, s', h, n, g, st.file.value, a);
      }
    }
  }

  lemma SecretsGranted(s: System, s': System, h: HandlerId, n: NodeId, g: Grant)
    requires Booked(s) && Granting(s, s', h, n, g)
    ensures RowsDistinct(s') && Retired(s')
  {
    GrantedToOwner(s, s', h, n, g);
    assert HandlerBooked(s, h);
    forall id | id in s.panel.rows
      ensures s.panel.rows[id].secret in s.holder && s.panel.rows[id].secret != g.newSecret
      ensures id != n ==> s.panel.rows[id].secret != s.handlers[h].sent
    {
      assert RowBooked(s, id);
    }
    forall id | id in s'.panel.rows
      ensures s'.panel.rows[id].secret !in s'.redeemed
    {
      if id != n {
        assert s'.panel.rows[id] == s.panel.rows[id];
      }
    }
  }

  /** The secret a granted handshake replaces is the one it redeems. */
  lemma SecretBookedGranted(s: System, s': System, h: HandlerId, n: NodeId, g: Grant, secret: Secret)
    requires Booked(s) && Granting(s, s', h, n, g)
    ensures SecretBooked(s', secret)
  {
    assert SecretBooked(s, secret);
  }

  lemma BookedGranted(s: System, s': System, h: HandlerId, n: NodeId, g: Grant)
    requires Booked(s) && Granting(s, s', h, n, g)
    ensures Booked(s')
  {
    forall id
      ensures RowBooked(s', id)
    {
      RowBookedGranted(s, s', h, n, g, id);
    }
    forall secret
      ensures SecretBooked(s', secret)
    {
      SecretBookedGranted(s, s', h, n, g, secret);
    }
    forall k
      ensures HandlerBooked(s', k)
    {
      HandlerBookedGranted(s, s', h, n, g, k);
    }
    forall a
      ensures AgentBooked(s', a)
    {
      AgentBookedGranted(s, s', h, n, g, a);
    }
    SecretsGranted(s, s', h, n, g);
  }

  /** The agent whose handshake is granted: unless it lost something, it waits for this very ack. */
  lemma GrantedAgentInv(s: System, s': System, h: HandlerId, n: NodeId, g: Grant)
    requires Booked(s) && Granting(s, s', h, n, g) && AgentInv(s, s.handlers[h].agent)
    ensures AgentInv(s', s.handlers[h].agent)
  {
    var a := s.handlers[h].agent;
    GrantedToOwner(s, s', h, n, g);
    assert HandlerBooked(s, h);
    if !s'.agents[a].lost {
      assert s.agents[a].phase == Waiting(h) && !s.agents[a].lost;
      if n !in s.owner {
        forall m
          ensures !Owns(s, a, m)
        {
          assert Owns(s, a, m) ==> m in s.panel.rows && Agrees(s, a, m);
          assert RowBooked(s, m);
        }
      }
      assert forall m | Owns(s', a, m) :: m == n by {
        forall m | Owns(s', a, m)
          ensures m == n
        {
          if m != n {
            assert Owns(s, a, m);
            assert n in s.owner ==> Owns(s, a, n);
          }
        }
      }
      assert Owns(s', a, n) && Agrees(s', a, n);
    }
  }

  /** The handler another agent waits on is not the granted one. */
  lemma OtherAgentUntouched(s: System, s': System, h: HandlerId, n: NodeId, g: Grant, a: AgentId)
    requires Booked(s) && Granting(s, s', h, n, g) && a in s.agents && a != s.handlers[h].agent
    ensures a in s'.agents && s'.agents[a] == s.agents[a]
    ensures s.agents[a].phase.Waiting? ==>
              var k := s.agents[a].phase.h; k in s.handlers && k in s'.handlers && s'.handlers[k] == s.handlers[k]
  {
    assert AgentBooked(s, a);
  }

  lemma OtherAgrees(s: System, s': System, h: HandlerId, n: NodeId, g: Grant, a: AgentId, m: NodeId)
    requires Booked(s) && Granting(s, s', h, n, g) && a in s.agents && a != s.handlers[h].agent
    requires m != n && m in s.panel.rows && Agrees(s, a, m)
    ensures a in s'.agents && m in s'.panel.rows && Agrees(s', a, m)
  {
    OtherAgentUntouched(s, s', h, n, g, a);
    assert s'.panel.rows[m] == s.panel.rows[m];
  }

  lemma OtherOwns(s: System, s': System, h: HandlerId, n: NodeId, g: Grant, a: AgentId)
    requires Booked(s) && Granting(s, s', h, n, g) && a != s.handlers[h].agent
    ensures forall m :: Owns(s', a, m) <==> Owns(s, a, m) && m != n
    ensures forall m :: Owns(s', a, m) <==> Owns(s, a, m)
  {
    GrantedToOwner(s, s', h, n, g);
  }

  /** Agents other than the one whose handshake is granted are not touched. */
  lemma OtherAgentInv(s: System, s': System, h: HandlerId, n: NodeId, g: Grant, a: AgentId)
    requires Booked(s) && Granting(s, s', h, n, g) && AgentInv(s, a) && a != s.handlers[h].agent
    ensures AgentInv(s', a)
  {
    if a in s.agents && !s.agents[a].lost {
      OtherAgentUntouched(s, s', h, n, g, a);
      OtherOwns(s, s', h, n, g, a);
      forall m | Owns(s', a, m)
        ensures m in s'.panel.rows && Agrees(s', a, m)
      {
        OtherAgrees(s, s', h, n, g, a, m);
      }
    }
  }

  // ---------- every run ----------

  lemma StepKeepsBooked(s: System, e: Event)
    requires Booked(s) && Enabled(s, e)
    ensures Booked(Step(s, e))
  {
    if Grants(s, e) {
      GrantingStep(s, e);
      BookedGranted(s, Step(s, e), e.h, Admitted(s.panel.rows, s.handlers[e.h].sent, e.g).value, e.g);
    } else {
      BookedQuiet(s, e);
    }
  }

  lemma StepKeepsInv(s: System, e: Event)
    requires Inv(s) && Enabled(s, e)
    ensures Inv(Step(s, e))
  {
    var s' := Step(s, e);
    if Grants(s, e) {
      var n := Admitted(s.panel.rows, s.handlers[e.h].sent, e.g).value;
      GrantingStep(s, e);
      GrantKeepsInv(s, s', e.h, n, e.g);
    } else {
      BookedQuiet(s, e);
      forall a
        ensures AgentInv(s', a)
      {
        AgentInvQuiet(s, e, a);
      }
    }
  }

  lemma GrantKeepsInv(s: System, s': System, h: HandlerId, n: NodeId, g: Grant)
    requires Inv(s) && Granting(s, s', h, n, g)
    ensures Inv(s')
  {
    BookedGranted(s, s', h, n, g);
    forall a
      ensures AgentInv(s', a)
    {
      if a == s.handlers[h].agent {
        GrantedAgentInv(s, s', h, n, g);
      } else {
        OtherAgentInv(s, s', h, n, g, a);
      }
    }
  }

  lemma InitialInv(s: System)
    requires Initial(s)
    ensures Inv(s)
  {
    forall a
      ensures AgentInv(s, a) && AgentBooked(s, a)
    {
    }
  }

  lemma {:induction false} RunKeepsInv(s: System, es: seq<Event>)
    requires Inv(s) && PossibleRun(s, es)
    ensures Inv(Run(s, es))
    decreases |es|
  {
    if es != [] {
      StepKeepsInv(s, es[0]);
      RunKeepsInv(Step(s, es[0]), es[1..]);
    }
  }

  // ---------- what it means ----------

  /** The ack agent a is waiting for carries the secret. */
  ghost predicate AckUnderWay(s: System, a: AgentId, secret: Secret) {
    IsWaiting(s, a) && var hd := s.handlers[s.agents[a].phase.h]; UnderWay(hd) && hd.issued == secret
  }

  /** Over every interleaving, agent and panel restarts included: unless an ack or its persisting was lost,
      an agent registered at most one node, and for that node it stores the panel's current secret, or the
      ack carrying it is under way. */
  lemma SecretAgreement(s: System, es: seq<Event>, a: AgentId, n: NodeId)
    requires Initial(s) && PossibleRun(s, es)
    requires var s' := Run(s, es); a in s'.agents && !s'.agents[a].lost && Owns(s', a, n)
    ensures var s' := Run(s, es);
            && (forall m | Owns(s', a, m) :: m == n)
            && n in s'.panel.rows
            && (|| NodeAgent.Stored(s'.agents[a].st) == s'.panel.rows[n].secret
                || AckUnderWay(s', a, s'.panel.rows[n].secret))
  {
    InitialInv(s);
    RunKeepsInv(s, es);
    var s' := Run(s, es);
    assert AgentInv(s', a) && OneNode(s', a) && RowBooked(s', n);
    assert Agrees(s', a, n);
  }

  /** Nothing was lost, and agent a waits for the answer to a handshake the panel has not read yet. */
  ghost predicate AsksAnew(s: System, a: AgentId, h: HandlerId) {
    a in s.agents && !s.agents[a].lost && s.agents[a].phase == Waiting(h) && InPhase(s, h, Arrived)
  }

  /** Without loss every reconnect of a node that is not deleted succeeds, with the same node id: the agent
      is never registered a second time. */
  lemma ReconnectSucceeds(s: System, es: seq<Event>, a: AgentId, h: HandlerId, n: NodeId, g: Grant)
    requires Initial(s) && PossibleRun(s, es)
    requires var s' := Run(s, es); AsksAnew(s', a, h) && Owns(s', a, n) && Live(s'.panel.rows, n)
    requires g.stored && Fresh(Run(s, es), g)
    ensures Admitted(Run(s, es).panel.rows, Run(s, es).handlers[h].sent, g) == Ok(n)
  {
    InitialInv(s);
    RunKeepsInv(s, es);
    var s' := Run(s, es);
    assert AgentInv(s', a) && HandlerBooked(s', h) && RowBooked(s', n);
    assert Agrees(s', a, n);
    assert Holds(s'.panel.rows, n, s'.handlers[h].sent);
  }

  /** The other half: once its node is deleted, an agent that lost nothing is refused for ever, and never
      registers again either, because it keeps presenting the deleted node's secret. */
  lemma DeletedStaysOut(s: System, es: seq<Event>, a: AgentId, h: HandlerId, n: NodeId, g: Grant)
    requires Initial(s) && PossibleRun(s, es)
    requires var s' := Run(s, es); AsksAnew(s', a, h) && Owns(s', a, n) && !Live(s'.panel.rows, n)
    requires Fresh(Run(s, es), g)
    ensures Admitted(Run(s, es).panel.rows, Run(s, es).handlers[h].sent, g) == Err(InvalidSecret)
  {
    InitialInv(s);
    RunKeepsInv(s, es);
    var s' := Run(s, es);
    assert AgentInv(s', a) && HandlerBooked(s', h) && RowBooked(s', n);
    assert Agrees(s', a, n);
  }

  /** Live rows hold pairwise distinct secrets, and no secret is accepted by Reconnect twice in a run. */
  lemma SecretsUsedOnce(s: System, es: seq<Event>)
    requires Initial(s) && PossibleRun(s, es)
    ensures var s' := Run(s, es);
            && LiveSecretsDistinct(s'.panel.rows)
            && (forall i, j | 0 <= i < j < |s'.redeemed| :: s'.redeemed[i] != s'.redeemed[j])
            && (forall id | Live(s'.panel.rows, id) :: s'.panel.rows[id].secret !in s'.redeemed)
  {
    InitialInv(s);
    RunKeepsInv(s, es);
  }

  // ---------- deletion is final ----------

  predicate IsDeleted(s: System, id: NodeId) {
    id in s.panel.rows && s.panel.rows[id].deleted
  }

  lemma StepKeepsDeleted(s: System, e: Event, id: NodeId)
    requires Enabled(s, e) && IsDeleted(s, id)
    ensures IsDeleted(Step(s, e), id)
  {
  }

  /** A deleted node id never becomes listed or reconnectable again, whatever follows. */
  lemma {:induction false} DeletedForEver(s: System, es: seq<Event>, id: NodeId, sent: Secret, g: Grant)
    requires PossibleRun(s, es) && IsDeleted(s, id)
    ensures !Live(Run(s, es).panel.rows, id)
    ensures Admitted(Run(s, es).panel.rows, sent, g) != Ok(id)
    decreases |es|
  {
    if es != [] {
      StepKeepsDeleted(s, es[0], id);
      DeletedForEver(Step(s, es[0]), es[1..], id, sent, g);
    }
  }
}
