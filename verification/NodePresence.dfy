/** What the panel shows about a node against the handlers that run for it, over every interleaving:
    the stream registry, the online status and the snapshots. */
module NodePresence {
  import opened Prelude
  import opened NodeService
  import opened NodeStreams
  import opened NodeProtocol

  ghost predicate HandlerFor(s: System, h: HandlerId, id: NodeId) {
    h in s.handlers && s.handlers[h].node == id
  }

  // ---------- the registry ----------

  predicate BeforeRegistration(p: Phase) {
    p.Arrived? || p.Refused? || p.Granted? || p.AckFailed? || p.AckSent?
  }

  lemma OpeningOnlineWitnessKept(s: System, e: Event, id: NodeId, h: HandlerId)
    requires Enabled(s, e) && KeepsOnline(s, h, id) && Opening(e)
    ensures KeepsOnline(Step(s, e), h, id) || e == StatusClears(h) || e.PanelRestarts?
  {
  }

  lemma LaterOnlineWitnessKept(s: System, e: Event, id: NodeId, h: HandlerId)
    requires Enabled(s, e) && KeepsOnline(s, h, id) && !AgentSide(e) && !Opening(e)
    ensures KeepsOnline(Step(s, e), h, id) || e == StatusClears(h) || e.PanelRestarts?
  {
  }

  lemma AgentOnlineWitnessKept(s: System, e: Event, id: NodeId, h: HandlerId)
    requires Enabled(s, e) && KeepsOnline(s, h, id) && AgentSide(e)
    ensures KeepsOnline(Step(s, e), h, id) || e == StatusClears(h) || e.PanelRestarts?
  {
  }

  /** Registrations are numbered in order. */
  ghost predicate Numbered(s: System) {
    forall h | h in s.handlers :: s.handlers[h].since <= s.registrations
      && (BeforeRegistration(s.handlers[h].phase) ==> s.handlers[h].since == 0)
  }

  /** The stream registered for id belongs to a handler of that node which has not run its cleanup. */
  ghost predicate EntryServes(s: System, id: NodeId)
    requires id in s.panel.streams
  {
    HandlerFor(s, s.panel.streams[id], id) && s.handlers[s.panel.streams[id]].phase == Serving
  }

  /** No other handler of the node registered later. */
  ghost predicate EntryLatest(s: System, id: NodeId, h: HandlerId)
    requires id in s.panel.streams && EntryServes(s, id)
  {
    HandlerFor(s, h, id) && h != s.panel.streams[id] ==> s.handlers[h].since < s.handlers[s.panel.streams[id]].since
  }

  ghost predicate Registry(s: System) {
    && Numbered(s)
    && forall id | id in s.panel.streams ::
         EntryServes(s, id) && s.handlers[s.panel.streams[id]].since > 0 && forall h :: EntryLatest(s, id, h)
  }

  /** How one event can move one handler, as far as the registry is concerned. */
  ghost predicate HandlerMoves(s: System, s': System, e: Event, h: HandlerId) {
    && (h in s.handlers ==> h in s'.handlers)
    && (h in s'.handlers && h !in s.handlers ==> s'.handlers[h].since == 0 && BeforeRegistration(s'.handlers[h].phase))
    && (h in s.handlers && h in s'.handlers ==>
          var x, y := s.handlers[h], s'.handlers[h];
          && (BeforeRegistration(y.phase) ==> BeforeRegistration(x.phase))
          && (y.node != x.node ==> BeforeRegistration(x.phase) && BeforeRegistration(y.phase))
          && (if e == StreamRegisters(h) then y.since == s.registrations + 1 && y.phase == Serving && y.node == x.node
              else y.since == x.since)
          && (x.phase == Serving ==> y.phase == Serving || e == StreamUnregisters(h) || e.PanelRestarts?))
  }

  lemma AgentHandlerStep(s: System, e: Event, h: HandlerId)
    requires Enabled(s, e) && AgentSide(e)
    ensures HandlerMoves(s, Step(s, e), e, h)
  {
  }

  lemma OpeningPanelHandlerStep(s: System, e: Event, h: HandlerId)
    requires Enabled(s, e) && Opening(e)
    ensures HandlerMoves(s, Step(s, e), e, h)
  {
  }

  lemma LaterPanelHandlerStep(s: System, e: Event, h: HandlerId)
    requires Enabled(s, e) && !AgentSide(e) && !Opening(e)
    ensures HandlerMoves(s, Step(s, e), e, h)
  {
  }

  lemma PanelHandlerStep(s: System, e: Event, h: HandlerId)
    requires Enabled(s, e) && !AgentSide(e)
    ensures HandlerMoves(s, Step(s, e), e, h)
  {
    if Opening(e) {
      OpeningPanelHandlerStep(s, e, h);
    } else {
      LaterPanelHandlerStep(s, e, h);
    }
  }

  lemma HandlerStep(s: System, e: Event, h: HandlerId)
    requires Enabled(s, e)
    ensures HandlerMoves(s, Step(s, e), e, h)
  {
    if AgentSide(e) {
      AgentHandlerStep(s, e, h);
    } else {
      PanelHandlerStep(s, e, h);
    }
  }

  /** How one event can change the registry. */
  ghost predicate StreamsMove(s: System, s': System, e: Event) {
    if e.StreamRegisters? then
      && e.h in s.handlers && e.h in s'.handlers && s'.registrations == s.registrations + 1
      && s'.panel.streams == StreamAdded(s.panel.streams, s.handlers[e.h].node, e.h)
    else
      && s'.registrations == s.registrations
      && if e.StreamUnregisters? then
           e.h in s.handlers && s'.panel.streams == StreamRemoved(s.panel.streams, s.handlers[e.h].node, e.h)
         else s'.panel.streams == if e.PanelRestarts? then map[] else s.panel.streams
  }

  lemma StreamsStep(s: System, e: Event)
    requires Enabled(s, e)
    ensures StreamsMove(s, Step(s, e), e)
  {
  }

  lemma RegistryMoves(s: System, s': System, e: Event)
    requires Registry(s) && StreamsMove(s, s', e) && forall h :: HandlerMoves(s, s', e, h)
    ensures Registry(s')
  {
    forall h | h in s'.handlers
      ensures s'.handlers[h].since <= s'.registrations
      ensures BeforeRegistration(s'.handlers[h].phase) ==> s'.handlers[h].since == 0
    {
      assert HandlerMoves(s, s', e, h);
    }
    forall id | id in s'.panel.streams
      ensures EntryServes(s', id) && s'.handlers[s'.panel.streams[id]].since > 0
      ensures forall h :: EntryLatest(s', id, h)
    {
      EntryMoves(s, s', e, id);
    }
  }

  lemma EntryMoves(s: System, s': System, e: Event, id: NodeId)
    requires Registry(s) && StreamsMove(s, s', e) && id in s'.panel.streams
    requires forall h :: HandlerMoves(s, s', e, h)
    ensures EntryServes(s', id) && s'.handlers[s'.panel.streams[id]].since > 0
    ensures forall h :: EntryLatest(s', id, h)
  {
    var top := s'.panel.streams[id];
    assert HandlerMoves(s, s', e, top);
    forall h
      ensures EntryLatest(s', id, h)
    {
      assert HandlerMoves(s, s', e, h);
      if e != StreamRegisters(top) {
        assert EntryLatest(s, id, h);
      }
    }
  }

  lemma RegistryStep(s: System, e: Event)
    requires Registry(s) && Enabled(s, e)
    ensures Registry(Step(s, e))
  {
    StreamsStep(s, e);
    forall h
      ensures HandlerMoves(s, Step(s, e), e, h)
    {
      HandlerStep(s, e, h);
    }
    RegistryMoves(s, Step(s, e), e);
  }

  /** No handler's cleanup removes another handler's entry: an entry disappears or changes only when its
      own handler cleans up, when a newer stream of the same node registers, or when the panel restarts. */
  lemma EntryChanges(s: System, e: Event, id: NodeId)
    requires Enabled(s, e) && id in s.panel.streams
    ensures || (id in Step(s, e).panel.streams && Step(s, e).panel.streams[id] == s.panel.streams[id])
            || e == StreamUnregisters(s.panel.streams[id])
            || (e.StreamRegisters? && s.handlers[e.h].node == id && Step(s, e).panel.streams[id] == e.h)
            || e.PanelRestarts?
  {
    StreamsStep(s, e);
  }

  // ---------- status and snapshots ----------

  /** The handler has finished Register or Reconnect in this panel lifetime, and has not yet marked the
      node offline or never will. */
  ghost predicate KeepsOnline(s: System, h: HandlerId, id: NodeId) {
    HandlerFor(s, h, id) && var p := s.handlers[h].phase;
    p.Granted? || p.AckFailed? || p.AckSent? || p.Serving? || p.Unregistered?
  }

  /** The handler has served messages and has not finished MarkOffline. */
  ghost predicate KeepsSnapshot(s: System, h: HandlerId, id: NodeId) {
    HandlerFor(s, h, id) && var p := s.handlers[h].phase;
    p.Serving? || p.Unregistered? || p.StatusCleared?
  }

  predicate ShownOnline(s: System, id: NodeId) {
    Live(s.panel.rows, id) && s.panel.rows[id].status == Online
  }

  ghost predicate Witnessed(s: System) {
    && (forall id | ShownOnline(s, id) :: exists h :: KeepsOnline(s, h, id))
    && (forall id | id in s.panel.snapshots :: exists h :: KeepsSnapshot(s, h, id))
  }

  /** A handler that keeps one of its two roles through the event. */
  lemma OnlineWitnessKept(s: System, e: Event, id: NodeId, h: HandlerId)
    requires Enabled(s, e) && KeepsOnline(s, h, id)
    ensures KeepsOnline(Step(s, e), h, id) || e == StatusClears(h) || e.PanelRestarts?
  {
    if AgentSide(e) {
      AgentOnlineWitnessKept(s, e, id, h);
    } else if Opening(e) {
      OpeningOnlineWitnessKept(s, e, id, h);
    } else {
      LaterOnlineWitnessKept(s, e, id, h);
    }
  }

  lemma SnapshotWitnessKept(s: System, e: Event, id: NodeId, h: HandlerId)
    requires Enabled(s, e) && KeepsSnapshot(s, h, id)
    ensures KeepsSnapshot(Step(s, e), h, id) || e == SnapshotClears(h) || e.PanelRestarts?
  {
  }

  /** A node becomes online only by a handshake or a message, whose handler then witnesses it. */
  lemma OnlineAppears(s: System, e: Event, id: NodeId)
    requires Enabled(s, e) && ShownOnline(Step(s, e), id) && !ShownOnline(s, id)
    ensures exists h :: KeepsOnline(Step(s, e), h, id)
  {
    match e
    case PanelAnswers(h, _, _) => assert KeepsOnline(Step(s, e), h, id);
    case MarksOnline(h, _) => assert KeepsOnline(Step(s, e), h, id);
    case _ =>
  }

  lemma SnapshotAppears(s: System, e: Event, id: NodeId)
    requires Enabled(s, e) && id in Step(s, e).panel.snapshots && id !in s.panel.snapshots
    ensures exists h :: KeepsSnapshot(Step(s, e), h, id)
  {
    match e
    case StoresSnapshot(h, _) => assert KeepsSnapshot(Step(s, e), h, id);
    case _ =>
  }

  lemma WitnessedStep(s: System, e: Event)
    requires Witnessed(s) && Enabled(s, e)
    ensures Witnessed(Step(s, e))
  {
    var s' := Step(s, e);
    forall id | ShownOnline(s', id)
      ensures exists h :: KeepsOnline(s', h, id)
    {
      if ShownOnline(s, id) {
        var h :| KeepsOnline(s, h, id);
        OnlineWitnessKept(s, e, id, h);
      } else {
        OnlineAppears(s, e, id);
      }
    }
    forall id | id in s'.panel.snapshots
      ensures exists h :: KeepsSnapshot(s', h, id)
    {
      if id in s.panel.snapshots {
        var h :| KeepsSnapshot(s, h, id);
        SnapshotWitnessKept(s, e, id, h);
      } else {
        SnapshotAppears(s, e, id);
      }
    }
  }

  // ---------- every run ----------

  ghost predicate Inv(s: System) {
    Registry(s) && Witnessed(s)
  }

  /** Over every interleaving, panel restarts included: registered streams are those of the latest running
      handlers; an online node is witnessed by a handler that has not marked it offline yet, or by one
      that returned on a failed ack send; a snapshot is witnessed by a handler that has not finished. */
  lemma {:induction false} RunKeepsPresence(s: System, es: seq<Event>)
    requires Inv(s) && PossibleRun(s, es)
    ensures Inv(Run(s, es))
    decreases |es|
  {
    if es != [] {
      RegistryStep(s, es[0]);
      WitnessedStep(s, es[0]);
      RunKeepsPresence(Step(s, es[0]), es[1..]);
    }
  }

  lemma InitialPresence(s: System)
    requires Initial(s)
    ensures Inv(s)
  {
  }

  /** Every handler of the node has returned the regular way, or was refused, or died with a panel. */
  ghost predicate AllFinished(s: System, id: NodeId) {
    forall h | HandlerFor(s, h, id) ::
      var p := s.handlers[h].phase; p.Finished? || p.Refused? || p.Killed? || p.Arrived?
  }

  /** Once all its handlers have finished and no ack send failed, a node is offline, without stream and
      without snapshot. */
  lemma FinishedIsOffline(s: System, es: seq<Event>, id: NodeId)
    requires Initial(s) && PossibleRun(s, es) && AllFinished(Run(s, es), id)
    ensures var s' := Run(s, es);
            !ShownOnline(s', id) && id !in s'.panel.streams && id !in s'.panel.snapshots
  {
    InitialPresence(s);
    RunKeepsPresence(s, es);
  }

  /** The event does not take the online status of id back. */
  ghost predicate Spares(s: System, e: Event, id: NodeId)
    requires Enabled(s, e)
  {
    !e.PanelRestarts? && e != AdminDeletesRow(id) && (e.StatusClears? ==> s.handlers[e.h].node != id)
  }

  ghost predicate RunSpares(s: System, es: seq<Event>, id: NodeId)
    requires PossibleRun(s, es)
    decreases |es|
  {
    es != [] ==> Spares(s, es[0], id) && RunSpares(Step(s, es[0]), es[1..], id)
  }

  /** A node shown online, one of whose handlers has returned on a failed ack send. Other handlers may or
      may not serve it. */
  ghost predicate LeftOnline(s: System, h: HandlerId, id: NodeId) {
    InPhase(s, h, AckFailed) && s.handlers[h].node == id && ShownOnline(s, id)
  }

  lemma LeftOnlineStep(s: System, h: HandlerId, id: NodeId, e: Event)
    requires LeftOnline(s, h, id) && Enabled(s, e)
    ensures Spares(s, e, id) <==> LeftOnline(Step(s, e), h, id)
  {
    if AgentSide(e) {
      AgentsLeaveRows(s, e);
      AgentHandlerPhase(s, e, h);
    } else if Opening(e) {
      OpeningLeftOnline(s, h, id, e);
    } else {
      LaterLeftOnline(s, h, id, e);
    }
  }

  lemma OpeningLeftOnline(s: System, h: HandlerId, id: NodeId, e: Event)
    requires LeftOnline(s, h, id) && Enabled(s, e) && Opening(e)
    ensures Spares(s, e, id) && LeftOnline(Step(s, e), h, id)
  {
  }

  lemma LaterLeftOnline(s: System, h: HandlerId, id: NodeId, e: Event)
    requires LeftOnline(s, h, id) && Enabled(s, e) && !AgentSide(e) && !Opening(e)
    ensures Spares(s, e, id) <==> LeftOnline(Step(s, e), h, id)
  {
  }

  /** A failed ack send leaves the node online for as long as the run goes on, whether or not another handler
      ever serves it: only another connection of the node marking it offline, its deletion or a panel restart
      takes the status back, and each of them does. */
  lemma {:induction false} FailedAckLeavesOnline(s: System, es: seq<Event>, h: HandlerId, id: NodeId)
    requires LeftOnline(s, h, id) && PossibleRun(s, es) && RunSpares(s, es, id)
    ensures LeftOnline(Run(s, es), h, id)
    ensures forall e | Enabled(Run(s, es), e) :: Spares(Run(s, es), e, id) <==> LeftOnline(Step(Run(s, es), e), h, id)
    decreases |es|
  {
    if es != [] {
      LeftOnlineStep(s, h, id, es[0]);
      FailedAckLeavesOnline(Step(s, es[0]), es[1..], h, id);
    } else {
      forall e | Enabled(s, e)
        ensures Spares(s, e, id) <==> LeftOnline(Step(s, e), h, id)
      {
        LeftOnlineStep(s, h, id, e);
      }
    }
  }

  lemma AgentsLeaveRows(s: System, e: Event)
    requires Enabled(s, e) && AgentSide(e)
    ensures Step(s, e).panel == s.panel
  {
  }

  lemma AgentHandlerPhase(s: System, e: Event, h: HandlerId)
    requires Enabled(s, e) && AgentSide(e) && h in s.handlers
    ensures h in Step(s, e).handlers && Step(s, e).handlers[h].phase == s.handlers[h].phase
  {
  }
}
