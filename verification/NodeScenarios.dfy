/** Runs from a first start that reach the states in which panel and nodes disagree: a connected node shown
    offline, a node shown online that nobody serves, an agent locked out for ever. */
module NodeScenarios {
  import opened Prelude
  import opened NodeService
  import opened NodeStreams
  import opened NodeProtocol
  import opened NodeRefinement
  import opened NodePresence
  import opened NodeVisibility
  import opened SecretRotation
  import opened SecretLockout
  import NodeAgent

  /** The run is possible and ends in s'. */
  ghost predicate Leads(s: System, es: seq<Event>, s': System) {
    PossibleRun(s, es) && Run(s, es) == s'
  }

  lemma LeadsNowhere(s: System)
    ensures Leads(s, [], s)
  {
  }

  lemma LeadsOn(s: System, es: seq<Event>, s': System, e: Event)
    requires Leads(s, es, s') && Enabled(s', e)
    ensures Leads(s, es + [e], Step(s', e))
  {
    RunOne(s', e);
    RunConcat(s, es, [e]);
  }

  lemma LeadsFar(s: System, es: seq<Event>, s': System, more: seq<Event>, s'': System)
    requires Leads(s, es, s') && Leads(s', more, s'')
    ensures Leads(s, es + more, s'')
  {
    RunConcat(s, es, more);
  }

  lemma {:induction false} LeadsBooked(s: System, es: seq<Event>, s': System)
    requires Booked(s) && Leads(s, es, s')
    ensures Booked(s')
    decreases |es|
  {
    if es != [] {
      StepKeepsBooked(s, es[0]);
      LeadsBooked(Step(s, es[0]), es[1..], s');
    }
  }

  // ---------- opening a connection ----------

  /** A handshake of a, by handler h, granted for node id. */
  ghost predicate Opened(s: System, a: AgentId, h: HandlerId, id: NodeId) {
    && AgentIn(s, a, Waiting(h)) && InPhase(s, h, Granted)
    && var hd := s.handlers[h];
    && hd.agent == a && hd.node == id && hd.mail == NoMail && hd.issued != ""
    && ShownOnline(s, id) && s.panel.rows[id].secret == hd.issued
  }

  /** What opening a connection leaves alone. */
  ghost predicate Unmoved(s: System, s': System, a: AgentId) {
    && a in s.agents && a in s'.agents && s'.agents[a].st == s.agents[a].st
    && s'.panel.streams == s.panel.streams
    && forall k | k in s.handlers :: k in s'.handlers && s'.handlers[k] == s.handlers[k]
  }

  lemma Open(s: System, a: AgentId) returns (es: seq<Event>, s': System, h: HandlerId, id: NodeId)
    requires Booked(s) && AgentIn(s, a, Idle) && !Dead(s, NodeAgent.Stored(s.agents[a].st))
    ensures Leads(s, es, s') && Opened(s', a, h, id) && Unmoved(s, s', a) && h !in s.handlers
    ensures s'.handlers.Keys == s.handlers.Keys + {h}
    ensures s'.handlers[h].sent == NodeAgent.Stored(s.agents[a].st)
    ensures NodeAgent.Stored(s.agents[a].st) in s.nodeOf ==> id == s.nodeOf[NodeAgent.Stored(s.agents[a].st)]
  {
    h := AboveAll(s.handlers.Keys);
    assert h !in s.handlers;
    var e := AgentConnects(a, h);
    ConnectedFacts(s, a, h);
    LeadsNowhere(s);
    LeadsOn(s, [], s, e);
    var s1 := Step(s, e);
    var g := FreshGrant(s1);
    id := GrantedNode(s, a, g);
    s' := Answered(s1, a, h, g, id);
    LeadsOn(s, [] + [e], s1, PanelAnswers(h, true, g));
    es := [] + [e] + [PanelAnswers(h, true, g)];
  }

  lemma GrantedNode(s: System, a: AgentId, g: Grant) returns (id: NodeId)
    requires Booked(s) && a in s.agents && !Dead(s, NodeAgent.Stored(s.agents[a].st)) && Fresh(s, g) && g.stored
    ensures var sent := NodeAgent.Stored(s.agents[a].st);
            Admitted(s.panel.rows, sent, g) == Ok(id) && (sent in s.nodeOf ==> id == s.nodeOf[sent])
  {
    var sent := NodeAgent.Stored(s.agents[a].st);
    assert AgentBooked(s, a);
    AdmittedAnswer(s, sent, g);
    id := Admitted(s.panel.rows, sent, g).value;
  }

  /** Everything a granted handshake changes. */
  lemma GrantFacts(s: System, h: HandlerId, g: Grant, id: NodeId)
    requires InPhase(s, h, Arrived) && s.handlers[h].agent in s.agents && Fresh(s, g)
    requires Admitted(s.panel.rows, s.handlers[h].sent, g) == Ok(id)
    ensures Enabled(s, PanelAnswers(h, true, g))
    ensures var s', hd := Step(s, PanelAnswers(h, true, g)), s.handlers[h];
            && s'.panel == s.panel.(rows := s.panel.rows[id := Row(g.newSecret, Online, g.info, g.now, g.now, false)])
            && s'.handlers == s.handlers[h := hd.(phase := Granted, node := id, issued := g.newSecret)]
            && var ag := s.agents[hd.agent];
            && s'.agents == s.agents[hd.agent := ag.(lost := ag.lost || ag.phase != Waiting(h))]
  {
  }

  lemma Answered(s: System, a: AgentId, h: HandlerId, g: Grant, id: NodeId) returns (s': System)
    requires AgentIn(s, a, Waiting(h)) && InPhase(s, h, Arrived) && Fresh(s, g)
    requires s.handlers[h].agent == a && s.handlers[h].mail == NoMail
    requires Admitted(s.panel.rows, s.handlers[h].sent, g) == Ok(id)
    ensures Enabled(s, PanelAnswers(h, true, g)) && s' == Step(s, PanelAnswers(h, true, g))
    ensures Opened(s', a, h, id)
    ensures s'.agents[a].st == s.agents[a].st && s'.panel.streams == s.panel.streams
    ensures s'.handlers.Keys == s.handlers.Keys && s'.handlers[h].sent == s.handlers[h].sent
    ensures forall k | k in s.handlers && k != h :: s'.handlers[k] == s.handlers[k]
  {
    GrantFacts(s, h, g, id);
    s' := Step(s, PanelAnswers(h, true, g));
  }

  lemma ConnectedFacts(s: System, a: AgentId, h: HandlerId)
    requires AgentIn(s, a, Idle) && h !in s.handlers
    ensures Enabled(s, AgentConnects(a, h))
    ensures var s' := Step(s, AgentConnects(a, h));
            && AgentIn(s', a, Waiting(h)) && s'.agents[a].st == s.agents[a].st && s'.panel == s.panel
            && s'.holder == s.holder && s'.nodeOf == s.nodeOf && s'.redeemed == s.redeemed
            && s'.handlers == s.handlers[h := Handler(a, NodeAgent.Stored(s.agents[a].st), Arrived, "", "", NoMail, 0)]
  {
  }

  /** The agent is connected as node id over handler h, whose stream is registered, and its secret is safe. */
  ghost predicate Settled(s: System, a: AgentId, h: HandlerId, id: NodeId) {
    && AgentIn(s, a, Connected) && InPhase(s, h, Serving) && s.handlers[h].node == id
    && id in s.panel.streams && s.panel.streams[id] == h && ShownOnline(s, id)
    && var st := s.agents[a].st;
    && NodeAgent.Stored(st) == s.panel.rows[id].secret && st.hasFile && st.file == Some(NodeAgent.Stored(st))
  }

  lemma AckSentFacts(s: System, a: AgentId, h: HandlerId, id: NodeId)
    requires Opened(s, a, h, id)
    ensures Enabled(s, AckGoesOut(h, true))
    ensures var s' := Step(s, AckGoesOut(h, true));
            && AgentIn(s', a, Waiting(h)) && s'.panel == s.panel
            && s'.handlers == s.handlers[h := s.handlers[h].(phase := AckSent, mail := AckMail)]
            && s'.agents[a].st == s.agents[a].st
  {
  }

  lemma StreamRegisteredFacts(s: System, h: HandlerId)
    requires InPhase(s, h, AckSent)
    ensures Enabled(s, StreamRegisters(h))
    ensures var s' := Step(s, StreamRegisters(h));
            && s'.agents == s.agents && s'.panel == s.panel.(streams := s.panel.streams[s.handlers[h].node := h])
            && s'.handlers == s.handlers[h := s.handlers[h].(phase := Serving, since := s.registrations + 1)]
  {
  }

  lemma AckTakenFacts(s: System, a: AgentId, h: HandlerId)
    requires AgentIn(s, a, Waiting(h)) && h in s.handlers && s.handlers[h].mail == AckMail
    ensures Enabled(s, AgentTakesAck(a))
    ensures var s' := Step(s, AgentTakesAck(a));
            && AgentIn(s', a, Persisting) && s'.panel == s.panel
            && s'.handlers == s.handlers[h := s.handlers[h].(mail := NoMail)]
            && s'.agents[a].st.memory == s.handlers[h].issued && s'.agents[a].st.hasFile == s.agents[a].st.hasFile
  {
  }

  lemma PersistedFacts(s: System, a: AgentId)
    requires AgentIn(s, a, Persisting) && s.agents[a].st.hasFile && s.agents[a].st.memory != ""
    ensures Enabled(s, AgentPersists(a, true))
    ensures var s' := Step(s, AgentPersists(a, true));
            && AgentIn(s', a, Connected) && s'.panel == s.panel && s'.handlers == s.handlers
            && s'.agents[a].st.hasFile && NodeAgent.Stored(s'.agents[a].st) == s.agents[a].st.memory
            && s'.agents[a].st.file == Some(s.agents[a].st.memory)
  {
  }

  /** The handler serves, and the ack is on its way. */
  ghost predicate Served(s: System, a: AgentId, h: HandlerId, id: NodeId) {
    && AgentIn(s, a, Waiting(h)) && InPhase(s, h, Serving) && s.handlers[h].node == id
    && s.handlers[h].mail == AckMail
    && s.handlers[h].issued == (if id in s.panel.rows then s.panel.rows[id].secret else "") != ""
    && id in s.panel.streams && s.panel.streams[id] == h && ShownOnline(s, id)
  }

  lemma Serve(s: System, a: AgentId, h: HandlerId, id: NodeId) returns (es: seq<Event>, s': System)
    requires Opened(s, a, h, id)
    ensures Leads(s, es, s') && Served(s', a, h, id) && s'.agents[a].st == s.agents[a].st
  {
    AckSentFacts(s, a, h, id);
    LeadsNowhere(s);
    LeadsOn(s, [], s, AckGoesOut(h, true));
    var s1 := Step(s, AckGoesOut(h, true));
    StreamRegisteredFacts(s1, h);
    LeadsOn(s, [] + [AckGoesOut(h, true)], s1, StreamRegisters(h));
    es := [] + [AckGoesOut(h, true)] + [StreamRegisters(h)];
    s' := Step(s1, StreamRegisters(h));
  }

  lemma Keep(s: System, a: AgentId, h: HandlerId, id: NodeId) returns (es: seq<Event>, s': System)
    requires Served(s, a, h, id) && s.agents[a].st.hasFile
    ensures Leads(s, es, s') && Settled(s', a, h, id)
  {
    AckTakenFacts(s, a, h);
    LeadsNowhere(s);
    LeadsOn(s, [], s, AgentTakesAck(a));
    var s1 := Step(s, AgentTakesAck(a));
    PersistedFacts(s1, a);
    LeadsOn(s, [] + [AgentTakesAck(a)], s1, AgentPersists(a, true));
    es := [] + [AgentTakesAck(a)] + [AgentPersists(a, true)];
    s' := Step(s1, AgentPersists(a, true));
  }

  lemma Settle(s: System, a: AgentId) returns (es: seq<Event>, s': System, h: HandlerId, id: NodeId)
    requires Booked(s) && AgentIn(s, a, Idle) && s.agents[a].st.hasFile && !Dead(s, NodeAgent.Stored(s.agents[a].st))
    ensures Leads(s, es, s') && Settled(s', a, h, id)
  {
    var opening, s1;
    opening, s1, h, id := Open(s, a);
    var serving, s2 := Serve(s1, a, h, id);
    LeadsFar(s, opening, s1, serving, s2);
    var keeping;
    keeping, s' := Keep(s2, a, h, id);
    LeadsFar(s, opening + serving, s2, keeping, s');
    es := opening + serving + keeping;
  }

  lemma SettleFirst(s: System, a: AgentId) returns (es: seq<Event>, s': System, h: HandlerId, id: NodeId)
    requires Initial(s) && a in s.agents && s.agents[a].st.hasFile
    ensures Leads(s, es, s') && Settled(s', a, h, id)
  {
    InitialInv(s);
    es, s', h, id := Settle(s, a);
  }

  // ---------- the agent comes back while its old handler still runs ----------

  /** A new handshake of the node is granted, by handler h', while handler h still serves it. */
  ghost predicate Returning(s: System, a: AgentId, h: HandlerId, h': HandlerId, id: NodeId) {
    && Opened(s, a, h', id) && h' != h && InPhase(s, h, Serving) && s.handlers[h].node == id
    && id in s.panel.streams && s.panel.streams[id] == h
    && s.handlers[h'].sent == NodeAgent.Stored(s.agents[a].st) != ""
    && s.agents[a].st.file == Some(NodeAgent.Stored(s.agents[a].st))
  }

  lemma DisconnectedFacts(s: System, a: AgentId)
    requires AgentIn(s, a, Connected)
    ensures Enabled(s, AgentDisconnects(a))
    ensures var s' := Step(s, AgentDisconnects(a));
            && AgentIn(s', a, Idle) && s'.panel == s.panel && s'.handlers == s.handlers
            && s'.agents[a].st == s.agents[a].st && s'.redeemed == s.redeemed && s'.nodeOf == s.nodeOf
  {
  }

  lemma SettledSecretAlive(s: System, a: AgentId, h: HandlerId, id: NodeId)
    requires Booked(s) && Settled(s, a, h, id)
    ensures var sent := NodeAgent.Stored(s.agents[a].st);
            sent != "" && !Dead(s, sent) && sent in s.nodeOf && s.nodeOf[sent] == id
  {
    assert RowBooked(s, id);
  }

  lemma Return(s: System, a: AgentId, h: HandlerId, id: NodeId) returns (es: seq<Event>, s': System, h': HandlerId)
    requires Booked(s) && Settled(s, a, h, id)
    ensures Leads(s, es, s') && Returning(s', a, h, h', id)
  {
    SettledSecretAlive(s, a, h, id);
    DisconnectedFacts(s, a);
    LeadsNowhere(s);
    LeadsOn(s, [], s, AgentDisconnects(a));
    var s1 := Step(s, AgentDisconnects(a));
    LeadsBooked(s, [] + [AgentDisconnects(a)], s1);
    var more, id';
    more, s', h', id' := Open(s1, a);
    LeadsFar(s, [] + [AgentDisconnects(a)], s1, more, s');
    es := [] + [AgentDisconnects(a)] + more;
  }

  lemma UnregisteredFacts(s: System, h: HandlerId, id: NodeId)
    requires InPhase(s, h, Serving) && s.handlers[h].node == id
    ensures Enabled(s, StreamUnregisters(h))
    ensures var s' := Step(s, StreamUnregisters(h));
            && InPhase(s', h, Unregistered) && s'.handlers == s.handlers[h := s.handlers[h].(phase := Unregistered)]
            && s'.panel.rows == s.panel.rows && s'.panel.streams == StreamRemoved(s.panel.streams, id, h)
  {
  }

  lemma StatusClearedFacts(s: System, h: HandlerId, id: NodeId)
    requires InPhase(s, h, Unregistered) && s.handlers[h].node == id && Live(s.panel.rows, id)
    ensures Enabled(s, StatusClears(h))
    ensures var s' := Step(s, StatusClears(h));
            && s'.handlers == s.handlers[h := s.handlers[h].(phase := StatusCleared)]
            && s'.panel.streams == s.panel.streams
            && Live(s'.panel.rows, id) && !ShownOnline(s', id)
  {
  }

  /** First route: the newer stream is registered, then the older handler marks the node offline. */
  lemma DarkAfterStream(s: System, a: AgentId, h: HandlerId, h': HandlerId, id: NodeId)
    returns (es: seq<Event>, s': System)
    requires Returning(s, a, h, h', id)
    ensures es != [] && es[|es| - 1].StatusClears?
    ensures Leads(s, es, s') && Dark(s', id) && InPhase(s', h', Serving) && s'.panel.streams[id] == h'
  {
    AckSentFacts(s, a, h', id);
    LeadsNowhere(s);
    LeadsOn(s, [], s, AckGoesOut(h', true));
    var s1 := Step(s, AckGoesOut(h', true));
    StreamRegisteredFacts(s1, h');
    LeadsOn(s, [] + [AckGoesOut(h', true)], s1, StreamRegisters(h'));
    var s2 := Step(s1, StreamRegisters(h'));
    UnregisteredFacts(s2, h, id);
    LeadsOn(s, [] + [AckGoesOut(h', true)] + [StreamRegisters(h')], s2, StreamUnregisters(h));
    var s3 := Step(s2, StreamUnregisters(h));
    StatusClearedFacts(s3, h, id);
    LeadsOn(s, [] + [AckGoesOut(h', true)] + [StreamRegisters(h')] + [StreamUnregisters(h)], s3, StatusClears(h));
    es := [] + [AckGoesOut(h', true)] + [StreamRegisters(h')] + [StreamUnregisters(h)] + [StatusClears(h)];
    s' := Step(s3, StatusClears(h));
  }

  /** Second route, the ordinary reconnect race: the older handler marks the node offline, then the newer
      stream is registered. */
  lemma DarkBeforeStream(s: System, a: AgentId, h: HandlerId, h': HandlerId, id: NodeId)
    returns (es: seq<Event>, s': System)
    requires Returning(s, a, h, h', id)
    ensures es != [] && es[|es| - 1].StreamRegisters?
    ensures Leads(s, es, s') && Dark(s', id) && InPhase(s', h', Serving) && s'.panel.streams[id] == h'
  {
    AckSentFacts(s, a, h', id);
    LeadsNowhere(s);
    LeadsOn(s, [], s, AckGoesOut(h', true));
    var s1 := Step(s, AckGoesOut(h', true));
    UnregisteredFacts(s1, h, id);
    LeadsOn(s, [] + [AckGoesOut(h', true)], s1, StreamUnregisters(h));
    var s2 := Step(s1, StreamUnregisters(h));
    StatusClearedFacts(s2, h, id);
    LeadsOn(s, [] + [AckGoesOut(h', true)] + [StreamUnregisters(h)], s2, StatusClears(h));
    var s3 := Step(s2, StatusClears(h));
    RegistersUnder(s3, h', id);
    LeadsOn(s, [] + [AckGoesOut(h', true)] + [StreamUnregisters(h)] + [StatusClears(h)], s3, StreamRegisters(h'));
    es := [] + [AckGoesOut(h', true)] + [StreamUnregisters(h)] + [StatusClears(h)] + [StreamRegisters(h')];
    s' := Step(s3, StreamRegisters(h'));
  }

  lemma RegistersUnder(s: System, h: HandlerId, id: NodeId)
    requires InPhase(s, h, AckSent) && s.handlers[h].node == id && Live(s.panel.rows, id) && !ShownOnline(s, id)
    ensures Enabled(s, StreamRegisters(h))
    ensures var s' := Step(s, StreamRegisters(h)); Dark(s', id) && InPhase(s', h, Serving) && s'.panel.streams[id] == h
  {
  }

  lemma ReturnFirst(s: System, a: AgentId) returns (es: seq<Event>, s': System, h: HandlerId, h': HandlerId, id: NodeId)
    requires Initial(s) && a in s.agents && s.agents[a].st.hasFile
    ensures Leads(s, es, s') && Returning(s', a, h, h', id) && Booked(s')
  {
    var first, s1, again;
    first, s1, h, id := SettleFirst(s, a);
    InitialInv(s);
    LeadsBooked(s, first, s1);
    again, s', h' := Return(s1, a, h, id);
    LeadsFar(s, first, s1, again, s');
    es := first + again;
    LeadsBooked(s, es, s');
  }

  /** Both routes start from a first start of everything: for every agent with a secret file there are runs
      that end with its node connected and shown offline. */
  lemma DarkReachedLate(s: System, a: AgentId) returns (es: seq<Event>, id: NodeId)
    requires Initial(s) && a in s.agents && s.agents[a].st.hasFile
    ensures PossibleRun(s, es) && Dark(Run(s, es), id) && es != [] && es[|es| - 1].StatusClears?
  {
    var first, s1, h, h', route, s2;
    first, s1, h, h', id := ReturnFirst(s, a);
    route, s2 := DarkAfterStream(s1, a, h, h', id);
    LeadsFar(s, first, s1, route, s2);
    es := first + route;
  }

  lemma DarkReachedEarly(s: System, a: AgentId) returns (es: seq<Event>, id: NodeId)
    requires Initial(s) && a in s.agents && s.agents[a].st.hasFile
    ensures PossibleRun(s, es) && Dark(Run(s, es), id) && es != [] && es[|es| - 1].StreamRegisters?
  {
    var first, s1, h, h', route, s2;
    first, s1, h, h', id := ReturnFirst(s, a);
    route, s2 := DarkBeforeStream(s1, a, h, h', id);
    LeadsFar(s, first, s1, route, s2);
    es := first + route;
  }

  // ---------- shown online, served by nobody ----------

  lemma AckFailedFacts(s: System, a: AgentId, h: HandlerId, id: NodeId)
    requires Opened(s, a, h, id)
    ensures Enabled(s, AckGoesOut(h, false)) && LeftOnline(Step(s, AckGoesOut(h, false)), h, id)
    ensures var s' := Step(s, AckGoesOut(h, false));
            && s'.agents[a].st == s.agents[a].st && AgentIn(s', a, Waiting(h)) && s'.redeemed == s.redeemed
            && InPhase(s', h, AckFailed) && s'.handlers[h].mail == NoMail && s'.handlers.Keys == s.handlers.Keys
  {
  }

  /** A first handshake whose ack cannot be sent leaves its node shown online and unserved, with no handler
      at all that could take the status back. */
  lemma LeftOnlineReached(s: System, a: AgentId) returns (es: seq<Event>, h: HandlerId, id: NodeId)
    requires Initial(s) && a in s.agents
    ensures PossibleRun(s, es) && LeftOnline(Run(s, es), h, id)
    ensures Unserved(Run(s, es), id) && Run(s, es).handlers.Keys == {h}
  {
    InitialInv(s);
    var s1;
    es, s1, h, id := Open(s, a);
    AckFailedFacts(s1, a, h, id);
    LeadsOn(s, es, s1, AckGoesOut(h, false));
    es := es + [AckGoesOut(h, false)];
  }

  // ---------- locked out ----------

  /** For every agent with a secret file there is a run, without any deletion, after which it never
      connects again: it reconnects, and the ack of that cannot be sent. */
  lemma LockedOutReached(s: System, a: AgentId) returns (es: seq<Event>)
    requires Initial(s) && a in s.agents && s.agents[a].st.hasFile
    ensures PossibleRun(s, es) && NeverConnects(Run(s, es), a) && es != [] && es[|es| - 1].AckGoesOut?
  {
    var first, s1, h, h', id := ReturnFirst(s, a);
    AckFailedFacts(s1, a, h', id);
    LeadsOn(s, first, s1, AckGoesOut(h', false));
    es := first + [AckGoesOut(h', false)];
    FailedAckLocksOut(s1, a, h, h', id);
  }

  lemma FailedAckLocksOut(s: System, a: AgentId, h: HandlerId, h': HandlerId, id: NodeId)
    requires Booked(s) && Returning(s, a, h, h', id)
    ensures Enabled(s, AckGoesOut(h', false)) && NeverConnects(Step(s, AckGoesOut(h', false)), a)
  {
    AckFailedFacts(s, a, h', id);
    assert HandlerBooked(s, h');
    StepKeepsBooked(s, AckGoesOut(h', false));
    NeverConnectsWhenLockedOut(Step(s, AckGoesOut(h', false)), a);
  }
}
