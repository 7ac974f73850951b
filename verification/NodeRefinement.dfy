/** The interleaving model against the sequential one: the events of one connection, run without anything
    in between, change the panel exactly as one call of `Connect` does. */
module NodeRefinement {
  import opened Prelude
  import opened NodeService
  import opened NodeStreams
  import opened NodeProtocol

  /** What the handler does for one message. */
  function EventsOf(h: HandlerId, m: NodeMessage): seq<Event> {
    match m
    case Heartbeat(now) => [MarksOnline(h, now)]
    case StatusReport(snap, now) => [MarksOnline(h, now), StoresSnapshot(h, snap)]
    case _ => []
  }

  function Messages(h: HandlerId, ms: seq<NodeMessage>): seq<Event> {
    if ms == [] then [] else Messages(h, ms[..|ms| - 1]) + EventsOf(h, ms[|ms| - 1])
  }

  /** One connection from the handler's start to its return. */
  ghost function Connection(rows: Table, h: HandlerId, sent: Secret, authOk: bool, g: Grant, ackSent: bool,
                            ms: seq<NodeMessage>): seq<Event> {
    if !authOk || Admitted(rows, sent, g).Err? then [PanelAnswers(h, authOk, g)]
    else if !ackSent then [PanelAnswers(h, authOk, g), AckGoesOut(h, false)]
    else [PanelAnswers(h, authOk, g), AckGoesOut(h, true), StreamRegisters(h)] + Messages(h, ms)
         + [StreamUnregisters(h), StatusClears(h), SnapshotClears(h)]
  }

  lemma {:induction false} RunConcat(s: System, es: seq<Event>, more: seq<Event>)
    requires PossibleRun(s, es) && PossibleRun(Run(s, es), more)
    ensures PossibleRun(s, es + more) && Run(s, es + more) == Run(Run(s, es), more)
    decreases |es|
  {
    if es == [] {
      assert es + more == more;
    } else {
      RunConcat(Step(s, es[0]), es[1..], more);
      assert (es + more)[1..] == es[1..] + more;
    }
  }

  lemma RunOne(s: System, e: Event)
    requires Enabled(s, e)
    ensures PossibleRun(s, [e]) && Run(s, [e]) == Step(s, e)
  {
    assert [e][1..] == [];
    assert PossibleRun(Step(s, e), []);
  }

  lemma MessageRun(s: System, h: HandlerId, m: NodeMessage)
    requires InPhase(s, h, Serving)
    ensures PossibleRun(s, EventsOf(h, m))
    ensures Run(s, EventsOf(h, m)) == s.(panel := Handled(s.panel, s.handlers[h].node, m))
  {
    match m
    case Heartbeat(now) => RunOne(s, MarksOnline(h, now));
    case StatusReport(snap, now) =>
      RunOne(s, MarksOnline(h, now));
      RunOne(Step(s, MarksOnline(h, now)), StoresSnapshot(h, snap));
      RunConcat(s, [MarksOnline(h, now)], [StoresSnapshot(h, snap)]);
      assert [MarksOnline(h, now)] + [StoresSnapshot(h, snap)] == EventsOf(h, m);
    case _ =>
  }

  lemma {:induction false} MessagesRun(s: System, h: HandlerId, ms: seq<NodeMessage>)
    requires InPhase(s, h, Serving)
    ensures PossibleRun(s, Messages(h, ms))
    ensures Run(s, Messages(h, ms)) == s.(panel := HandledAll(s.panel, s.handlers[h].node, ms))
  {
    if ms != [] {
      var k := |ms| - 1;
      MessagesRun(s, h, ms[..k]);
      MessageRun(Run(s, Messages(h, ms[..k])), h, ms[k]);
      RunConcat(s, Messages(h, ms[..k]), EventsOf(h, ms[k]));
    }
  }

  lemma Run2(s: System, e: Event, f: Event)
    requires Enabled(s, e) && Enabled(Step(s, e), f)
    ensures PossibleRun(s, [e, f]) && Run(s, [e, f]) == Step(Step(s, e), f)
  {
    RunOne(s, e);
    RunOne(Step(s, e), f);
    RunConcat(s, [e], [f]);
    assert [e] + [f] == [e, f];
  }

  lemma Run3(s: System, e: Event, f: Event, g: Event)
    requires Enabled(s, e) && Enabled(Step(s, e), f) && Enabled(Step(Step(s, e), f), g)
    ensures PossibleRun(s, [e, f, g]) && Run(s, [e, f, g]) == Step(Step(Step(s, e), f), g)
  {
    Run2(s, e, f);
    RunOne(Step(Step(s, e), f), g);
    RunConcat(s, [e, f], [g]);
    assert [e, f] + [g] == [e, f, g];
  }

  lemma CleanupRun(s: System, h: HandlerId)
    requires InPhase(s, h, Serving)
    ensures var es := [StreamUnregisters(h), StatusClears(h), SnapshotClears(h)];
            && PossibleRun(s, es)
            && Run(s, es).panel == CleanedUp(s.panel, s.handlers[h].node, h)
            && InPhase(Run(s, es), h, Finished)
  {
    Run3(s, StreamUnregisters(h), StatusClears(h), SnapshotClears(h));
  }

  ghost predicate CanAnswer(s: System, h: HandlerId, g: Grant) {
    InPhase(s, h, Arrived) && s.handlers[h].agent in s.agents && Fresh(s, g)
  }

  lemma AdmissionRun(s: System, h: HandlerId, g: Grant)
    requires CanAnswer(s, h, g) && Admitted(s.panel.rows, s.handlers[h].sent, g).Ok?
    ensures var es := [PanelAnswers(h, true, g), AckGoesOut(h, true), StreamRegisters(h)];
            && PossibleRun(s, es)
            && InPhase(Run(s, es), h, Serving)
            && var id := Admitted(s.panel.rows, s.handlers[h].sent, g).value;
            && Run(s, es).handlers[h].node == id
            && Run(s, es).panel == s.panel.(rows := AfterHandshake(s.panel.rows, s.handlers[h].sent, g),
                                            streams := StreamAdded(s.panel.streams, id, h))
  {
    Run3(s, PanelAnswers(h, true, g), AckGoesOut(h, true), StreamRegisters(h));
  }

  /** The refinement: run on its own, every connection is a possible run of the protocol, refused ones and
      ones with a failing ack included, and its effect on rows, snapshots and streams is that of `Connect`. */
  lemma ConnectionRefinesConnect(s: System, h: HandlerId, authOk: bool, g: Grant, ackSent: bool, ms: seq<NodeMessage>)
    requires CanAnswer(s, h, g)
    ensures var sent := s.handlers[h].sent;
            var es := Connection(s.panel.rows, h, sent, authOk, g, ackSent, ms);
            && PossibleRun(s, es)
            && Run(s, es).panel == AfterConnect(s.panel, h, Some(Handshake(sent, g.info)), authOk, g, ackSent, ms)
  {
    var sent := s.handlers[h].sent;
    assert g.(info := g.info) == g;
    if !authOk || Admitted(s.panel.rows, sent, g).Err? {
      RunOne(s, PanelAnswers(h, authOk, g));
    } else if !ackSent {
      Run2(s, PanelAnswers(h, authOk, g), AckGoesOut(h, false));
    } else {
      ServedRun(s, h, g, ms);
    }
  }

  lemma ServedRun(s: System, h: HandlerId, g: Grant, ms: seq<NodeMessage>)
    requires CanAnswer(s, h, g) && Admitted(s.panel.rows, s.handlers[h].sent, g).Ok?
    ensures var sent := s.handlers[h].sent;
            var es := Connection(s.panel.rows, h, sent, true, g, true, ms);
            && PossibleRun(s, es)
            && Run(s, es).panel == Served(s.panel.(rows := AfterHandshake(s.panel.rows, sent, g)),
                                          Admitted(s.panel.rows, sent, g).value, h, ms)
  {
    var first := [PanelAnswers(h, true, g), AckGoesOut(h, true), StreamRegisters(h)];
    var last := [StreamUnregisters(h), StatusClears(h), SnapshotClears(h)];
    AdmissionRun(s, h, g);
    var s1 := Run(s, first);
    MessagesRun(s1, h, ms);
    RunConcat(s, first, Messages(h, ms));
    CleanupRun(Run(s1, Messages(h, ms)), h);
    RunConcat(s, first + Messages(h, ms), last);
  }
}
