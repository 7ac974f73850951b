/** When a connected node is shown offline, and when a node is shown online that nobody serves: the exact
    events that make it so and end it, over every run. */
module NodeVisibility {
  import opened Prelude
  import opened NodeService
  import opened NodeStreams
  import opened NodeProtocol
  import opened NodePresence

  /** The node has a registered stream and is shown offline. */
  predicate Dark(s: System, id: NodeId) {
    id in s.panel.streams && Live(s.panel.rows, id) && !ShownOnline(s, id)
  }

  /** A handler marks the node offline under a registered stream, its own or a newer one, or a stream is
      registered for a node that an older handler has marked offline just before. */
  ghost predicate Darkens(s: System, e: Event, id: NodeId)
    requires Enabled(s, e)
  {
    || (e.StatusClears? && s.handlers[e.h].node == id && id in s.panel.streams && Live(s.panel.rows, id))
    || (e.StreamRegisters? && s.handlers[e.h].node == id && Live(s.panel.rows, id) && !ShownOnline(s, id))
  }

  /** A message of the node, another handshake granted for it, the end of the registered stream, a deletion,
      or a panel restart. */
  ghost predicate EndsDark(s: System, e: Event, id: NodeId)
    requires Enabled(s, e)
  {
    || (e.MarksOnline? && s.handlers[e.h].node == id)
    || (e.PanelAnswers? && e.authOk && Admitted(s.panel.rows, s.handlers[e.h].sent, e.g) == Ok(id))
    || (e.StreamUnregisters? && id in s.panel.streams && s.panel.streams[id] == e.h && s.handlers[e.h].node == id)
    || e == AdminDeletesRow(id)
    || e.PanelRestarts?
  }

  lemma OpeningDark(s: System, e: Event, id: NodeId)
    requires Enabled(s, e) && Opening(e)
    ensures Dark(Step(s, e), id) <==> Darkens(s, e, id) || (Dark(s, id) && !EndsDark(s, e, id))
  {
  }

  lemma LaterDark(s: System, e: Event, id: NodeId)
    requires Enabled(s, e) && !AgentSide(e) && !Opening(e)
    ensures Dark(Step(s, e), id) <==> Darkens(s, e, id) || (Dark(s, id) && !EndsDark(s, e, id))
  {
  }

  /** One event, exactly. */
  lemma DarkStepIff(s: System, e: Event, id: NodeId)
    requires Enabled(s, e)
    ensures Dark(Step(s, e), id) <==> Darkens(s, e, id) || (Dark(s, id) && !EndsDark(s, e, id))
  {
    if AgentSide(e) {
      AgentsLeaveRows(s, e);
    } else if Opening(e) {
      OpeningDark(s, e, id);
    } else {
      LaterDark(s, e, id);
    }
  }

  /** Some event of the run darkened the node (or it was dark before), and none since ended that. */
  ghost predicate DarkenedLast(s: System, es: seq<Event>, id: NodeId, before: bool)
    requires PossibleRun(s, es)
    decreases |es|
  {
    if es == [] then before
    else
      DarkenedLast(Step(s, es[0]), es[1..], id, Darkens(s, es[0], id) || (before && !EndsDark(s, es[0], id)))
  }

  lemma {:induction false} DarkRunIff(s: System, es: seq<Event>, id: NodeId)
    requires PossibleRun(s, es)
    ensures Dark(Run(s, es), id) <==> DarkenedLast(s, es, id, Dark(s, id))
    decreases |es|
  {
    if es != [] {
      DarkStepIff(s, es[0], id);
      DarkRunIff(Step(s, es[0]), es[1..], id);
    }
  }

  /** Over every interleaving, a connected node is shown offline if and only if a handler of it marked it
      offline under a registered stream, or its stream was registered after such a mark, and since then it
      has sent no message, completed no other handshake, and its stream, row and panel have stayed. */
  lemma ConnectedShownOfflineIff(s: System, es: seq<Event>, id: NodeId)
    requires Initial(s) && PossibleRun(s, es)
    ensures Dark(Run(s, es), id) <==> DarkenedLast(s, es, id, false)
  {
    DarkRunIff(s, es, id);
  }

  // ---------- shown online, served by nobody ----------

  /** The node is shown online, and every handler that could still mark it offline has returned on a failed
      ack send, and never will. */
  ghost predicate Unserved(s: System, id: NodeId) {
    ShownOnline(s, id) && forall h | KeepsOnline(s, h, id) :: s.handlers[h].phase == AckFailed
  }

  /** The ack of a handshake granted for the node cannot be sent, while the node is shown online and all its
      other handlers have failed before. */
  ghost predicate Abandons(s: System, e: Event, id: NodeId)
    requires Enabled(s, e)
  {
    && e.AckGoesOut? && !e.sent && s.handlers[e.h].node == id && ShownOnline(s, id)
    && forall h | KeepsOnline(s, h, id) && h != e.h :: s.handlers[h].phase == AckFailed
  }

  /** Another handshake granted for the node, an older handler marking it offline, a deletion, or a panel
      restart. */
  ghost predicate EndsUnserved(s: System, e: Event, id: NodeId)
    requires Enabled(s, e)
  {
    || (e.PanelAnswers? && e.authOk && Admitted(s.panel.rows, s.handlers[e.h].sent, e.g) == Ok(id))
    || (e.StatusClears? && s.handlers[e.h].node == id)
    || e == AdminDeletesRow(id)
    || e.PanelRestarts?
  }

  lemma AgentKeeper(s: System, e: Event, h: HandlerId, id: NodeId)
    requires Enabled(s, e) && AgentSide(e)
    ensures KeepsOnline(Step(s, e), h, id) <==> KeepsOnline(s, h, id)
    ensures KeepsOnline(s, h, id) ==> h in Step(s, e).handlers && Step(s, e).handlers[h].phase == s.handlers[h].phase
  {
  }

  lemma AgentUnserved(s: System, e: Event, id: NodeId)
    requires Enabled(s, e) && AgentSide(e)
    ensures Unserved(Step(s, e), id) <==> Unserved(s, id)
  {
    AgentsLeaveRows(s, e);
    forall h
      ensures KeepsOnline(Step(s, e), h, id) <==> KeepsOnline(s, h, id)
      ensures KeepsOnline(s, h, id) ==> h in Step(s, e).handlers && Step(s, e).handlers[h].phase == s.handlers[h].phase
    {
      AgentKeeper(s, e, h, id);
    }
  }

  /** The event moves handler h from one phase to the next. */
  predicate Moves(e: Event, h: HandlerId) {
    match e
    case PanelAnswers(k, _, _) => h == k
    case AckGoesOut(k, _) => h == k
    case StreamRegisters(k) => h == k
    case StreamUnregisters(k) => h == k
    case StatusClears(k) => h == k
    case SnapshotClears(k) => h == k
    case _ => false
  }

  lemma UnmovedKeeper(s: System, e: Event, h: HandlerId, id: NodeId)
    requires Enabled(s, e) && !AgentSide(e) && !e.PanelRestarts? && !Moves(e, h)
    ensures KeepsOnline(Step(s, e), h, id) <==> KeepsOnline(s, h, id)
    ensures KeepsOnline(s, h, id) ==> h in Step(s, e).handlers && Step(s, e).handlers[h].phase == s.handlers[h].phase
  {
  }

  /** The other handlers count for the node after the event as they did before. */
  lemma OthersUnmoved(s: System, e: Event, id: NodeId)
    requires Enabled(s, e) && !AgentSide(e) && !e.PanelRestarts?
    ensures forall h | !Moves(e, h) ::
              && (KeepsOnline(Step(s, e), h, id) <==> KeepsOnline(s, h, id))
              && (KeepsOnline(s, h, id) ==> Step(s, e).handlers[h].phase == s.handlers[h].phase)
  {
    forall h | !Moves(e, h)
      ensures KeepsOnline(Step(s, e), h, id) <==> KeepsOnline(s, h, id)
      ensures KeepsOnline(s, h, id) ==> Step(s, e).handlers[h].phase == s.handlers[h].phase
    {
      UnmovedKeeper(s, e, h, id);
    }
  }

  lemma AnswerUnserved(s: System, e: Event, id: NodeId)
    requires Enabled(s, e) && e.PanelAnswers?
    ensures Unserved(Step(s, e), id) <==> Unserved(s, id) && !EndsUnserved(s, e, id)
  {
    OthersUnmoved(s, e, id);
    assert !KeepsOnline(s, e.h, id);
    if EndsUnserved(s, e, id) {
      assert KeepsOnline(Step(s, e), e.h, id);
    } else {
      assert !KeepsOnline(Step(s, e), e.h, id);
    }
  }

  lemma AckUnserved(s: System, e: Event, id: NodeId)
    requires Enabled(s, e) && e.AckGoesOut?
    ensures Unserved(Step(s, e), id) <==> Abandons(s, e, id) || Unserved(s, id)
  {
    OthersUnmoved(s, e, id);
    assert KeepsOnline(s, e.h, id) <==> s.handlers[e.h].node == id;
    assert KeepsOnline(Step(s, e), e.h, id) <==> s.handlers[e.h].node == id;
    assert Step(s, e).panel == s.panel;
  }

  /** Handlers that serve, and what they do, leave an unserved node alone, except for their status mark. */
  lemma ServingUnserved(s: System, e: Event, id: NodeId)
    requires Enabled(s, e) && !AgentSide(e) && !e.PanelAnswers? && !e.AckGoesOut? && !e.PanelRestarts?
    ensures Unserved(Step(s, e), id) <==> Unserved(s, id) && !EndsUnserved(s, e, id)
  {
    OthersUnmoved(s, e, id);
    if Unserved(s, id) && !EndsUnserved(s, e, id) {
      ServingKeepsUnserved(s, e, id);
    } else if Unserved(Step(s, e), id) {
      ServingWasUnserved(s, e, id);
    }
  }

  lemma ServingKeepsUnserved(s: System, e: Event, id: NodeId)
    requires Enabled(s, e) && !AgentSide(e) && !e.PanelAnswers? && !e.AckGoesOut? && !e.PanelRestarts?
    requires Unserved(s, id) && !EndsUnserved(s, e, id)
    ensures Unserved(Step(s, e), id)
  {
    OthersUnmoved(s, e, id);
    forall h | KeepsOnline(Step(s, e), h, id)
      ensures Step(s, e).handlers[h].phase == AckFailed
    {
      if Moves(e, h) {
        assert KeepsOnline(s, h, id);
      }
    }
  }

  lemma ServingWasUnserved(s: System, e: Event, id: NodeId)
    requires Enabled(s, e) && !AgentSide(e) && !e.PanelAnswers? && !e.AckGoesOut? && !e.PanelRestarts?
    requires Unserved(Step(s, e), id)
    ensures Unserved(s, id) && !EndsUnserved(s, e, id)
  {
    MarkIsServed(s, e, id);
    OthersUnmoved(s, e, id);
    forall h | KeepsOnline(s, h, id)
      ensures s.handlers[h].phase == AckFailed
    {
      if Moves(e, h) {
        MovedKeeper(s, e, h, id);
      }
    }
  }

  /** A handler that marks the node online serves it. */
  lemma MarkIsServed(s: System, e: Event, id: NodeId)
    requires Enabled(s, e)
    ensures e.MarksOnline? && s.handlers[e.h].node == id ==> !Unserved(Step(s, e), id)
  {
    if e.MarksOnline? && s.handlers[e.h].node == id {
      assert KeepsOnline(Step(s, e), e.h, id);
    }
  }

  lemma MovedKeeper(s: System, e: Event, h: HandlerId, id: NodeId)
    requires Enabled(s, e) && !AgentSide(e) && !e.PanelAnswers? && !e.AckGoesOut?
    requires Moves(e, h) && KeepsOnline(s, h, id)
    ensures !Unserved(Step(s, e), id)
  {
    if !e.StatusClears? {
      assert KeepsOnline(Step(s, e), h, id);
    }
  }

  /** One event, exactly. */
  lemma UnservedStepIff(s: System, e: Event, id: NodeId)
    requires Enabled(s, e)
    ensures Unserved(Step(s, e), id) <==> Abandons(s, e, id) || (Unserved(s, id) && !EndsUnserved(s, e, id))
  {
    if AgentSide(e) {
      AgentUnserved(s, e, id);
    } else if e.PanelAnswers? {
      AnswerUnserved(s, e, id);
    } else if e.AckGoesOut? {
      AckUnserved(s, e, id);
    } else if !e.PanelRestarts? {
      ServingUnserved(s, e, id);
    }
  }

  /** Some event of the run abandoned the node (or it was unserved before), and none since ended that. */
  ghost predicate AbandonedLast(s: System, es: seq<Event>, id: NodeId, before: bool)
    requires PossibleRun(s, es)
    decreases |es|
  {
    if es == [] then before
    else
      AbandonedLast(Step(s, es[0]), es[1..], id, Abandons(s, es[0], id) || (before && !EndsUnserved(s, es[0], id)))
  }

  lemma {:induction false} UnservedRunIff(s: System, es: seq<Event>, id: NodeId)
    requires PossibleRun(s, es)
    ensures Unserved(Run(s, es), id) <==> AbandonedLast(s, es, id, Unserved(s, id))
    decreases |es|
  {
    if es != [] {
      UnservedStepIff(s, es[0], id);
      UnservedRunIff(Step(s, es[0]), es[1..], id);
    }
  }

  /** Over every interleaving, a node is shown online with nobody serving it, or about to, if and only if the
      ack of its last remaining connection could not be sent, and since then no handshake was granted for it,
      no older handler marked it offline, it was not deleted and the panel did not restart. */
  lemma ShownOnlineUnservedIff(s: System, es: seq<Event>, id: NodeId)
    requires Initial(s) && PossibleRun(s, es)
    ensures Unserved(Run(s, es), id) <==> AbandonedLast(s, es, id, false)
  {
    UnservedRunIff(s, es, id);
  }
}
