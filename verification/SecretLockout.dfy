/** When an agent can still reconnect, and when never again: the exact answer of the panel to every secret,
    the states an agent is locked out in, and the events that lock it out. */
module SecretLockout {
  import opened Prelude
  import opened NodeService
  import opened NodeStreams
  import opened NodeProtocol
  import opened NodeRefinement
  import opened SecretRotation
  import NodeAgent

  // ---------- what the panel answers to a secret ----------

  /** The panel has replaced the secret, or its node is deleted. */
  predicate Dead(s: System, secret: Secret) {
    secret != "" && (secret in s.redeemed || (secret in s.nodeOf && IsDeleted(s, s.nodeOf[secret])))
  }

  lemma AdmittedAnswer(s: System, sent: Secret, g: Grant)
    requires Booked(s) && g.stored && Fresh(s, g)
    ensures Admitted(s.panel.rows, sent, g)
         == if sent == "" then Ok(g.newId)
            else if sent !in s.nodeOf || Dead(s, sent) then Err(InvalidSecret)
            else Ok(s.nodeOf[sent])
  {
    assert SecretBooked(s, sent);
    var found := FindBySecret(s.panel.rows, sent);
    if found.Some? {
      assert RowBooked(s, found.value);
    } else if sent in s.nodeOf {
      assert !Holds(s.panel.rows, s.nodeOf[sent], sent);
    }
  }

  /** The panel's answer to a handshake, over the whole history: no secret registers a new node; a secret is
      granted if and only if it was issued, has not been redeemed, and the node it was issued for is not
      deleted, and then as that very node. */
  lemma HandshakeAnswer(s: System, es: seq<Event>, sent: Secret, g: Grant)
    requires Initial(s) && PossibleRun(s, es) && g.stored && Fresh(Run(s, es), g)
    ensures var s' := Run(s, es);
            Admitted(s'.panel.rows, sent, g)
            == if sent == "" then Ok(g.newId)
               else if sent !in s'.nodeOf || sent in s'.redeemed || IsDeleted(s', s'.nodeOf[sent])
                 then Err(InvalidSecret)
               else Ok(s'.nodeOf[sent])
  {
    InitialInv(s);
    RunKeepsInv(s, es);
    AdmittedAnswer(Run(s, es), sent, g);
    if sent in Run(s, es).redeemed {
      assert Retired(Run(s, es));
      assert sent in Run(s, es).holder;
    }
  }

  // ---------- locked out for ever ----------

  /** The ack agent a waits for is still to be sent or in flight. */
  predicate AckComing(s: System, a: AgentId) {
    IsWaiting(s, a) && UnderWay(s.handlers[s.agents[a].phase.h])
  }

  /** The agent is not connected nor about to be, and neither its memory nor its secret file, which exists,
      holds a secret the panel would grant. */
  predicate LockedOut(s: System, a: AgentId) {
    && a in s.agents
    && var ag := s.agents[a];
    && (ag.phase.Idle? || ag.phase.Waiting?) && !AckComing(s, a)
    && Dead(s, NodeAgent.Stored(ag.st)) && ag.st.file.Some? && Dead(s, ag.st.file.value)
  }

  lemma DeadSecretRefused(s: System, secret: Secret, g: Grant)
    requires Booked(s) && Dead(s, secret)
    ensures Admitted(s.panel.rows, secret, g) == Err(InvalidSecret)
  {
    assert SecretBooked(s, secret);
    assert forall id :: RowBooked(s, id);
  }

  lemma RedeemedGrows(s: System, e: Event)
    requires Enabled(s, e)
    ensures s.redeemed <= Step(s, e).redeemed
    ensures forall x | x in s.nodeOf && !(Grants(s, e) && x == e.g.newSecret) ::
              x in Step(s, e).nodeOf && Step(s, e).nodeOf[x] == s.nodeOf[x]
  {
    if Grants(s, e) {
      GrantingStep(s, e);
    } else {
      QuietStep(s, e);
    }
  }

  lemma DeadStays(s: System, e: Event, secret: Secret)
    requires Booked(s) && Enabled(s, e) && Dead(s, secret)
    ensures Dead(Step(s, e), secret)
  {
    RedeemedGrows(s, e);
    if secret !in s.redeemed {
      StepKeepsDeleted(s, e, s.nodeOf[secret]);
    }
  }

  /** A handler that will never send its agent an ack. */
  predicate Fruitless(s: System, h: HandlerId) {
    h in s.handlers && !UnderWay(s.handlers[h]) && (s.handlers[h].phase.Arrived? ==> Dead(s, s.handlers[h].sent))
  }

  lemma FruitlessStep(s: System, e: Event, h: HandlerId)
    requires Booked(s) && Enabled(s, e) && Fruitless(s, h)
    ensures Fruitless(Step(s, e), h)
  {
    if s.handlers[h].phase.Arrived? {
      DeadStays(s, e, s.handlers[h].sent);
    }
    if Grants(s, e) {
      GrantingStep(s, e);
      if e.h == h {
        DeadSecretRefused(s, s.handlers[h].sent, e.g);
      }
    } else {
      HandlerStep(s, e, h);
    }
  }

  lemma LockedOutOwn(s: System, e: Event, a: AgentId)
    requires LockedOut(s, a) && Enabled(s, e) && Own(e, a)
    ensures var ag, ag' := s.agents[a], Step(s, e).agents[a];
            && (ag'.phase.Idle? || (ag'.phase.Waiting? && e.AgentConnects?))
            && ag'.st.file == ag.st.file
            && (NodeAgent.Stored(ag'.st) == NodeAgent.Stored(ag.st) || NodeAgent.Stored(ag'.st) == ag.st.file.value
                || (ag.st.file.Some? && !ag.st.hasFile))
  {
  }

  lemma LockedOutStep(s: System, e: Event, a: AgentId)
    requires Booked(s) && LockedOut(s, a) && Enabled(s, e)
    ensures LockedOut(Step(s, e), a)
  {
    var ag := s.agents[a];
    assert AgentBooked(s, a);
    DeadStays(s, e, NodeAgent.Stored(ag.st));
    DeadStays(s, e, ag.st.file.value);
    if Own(e, a) {
      LockedOutOwn(s, e, a);
    } else {
      OthersLeaveAgent(s, e, a);
      if ag.phase.Waiting? {
        FruitlessStep(s, e, ag.phase.h);
      }
    }
  }

  lemma {:induction false} LockedOutForEver(s: System, es: seq<Event>, a: AgentId)
    requires Booked(s) && LockedOut(s, a) && PossibleRun(s, es)
    ensures LockedOut(Run(s, es), a) && !AgentIn(Run(s, es), a, Connected)
    decreases |es|
  {
    if es != [] {
      LockedOutStep(s, es[0], a);
      StepKeepsBooked(s, es[0]);
      LockedOutForEver(Step(s, es[0]), es[1..], a);
    }
  }

  // ---------- otherwise it can connect ----------

  lemma {:induction false} LongerThanAll(xs: set<string>) returns (x: string)
    ensures x != "" && x !in xs
    ensures forall y | y in xs :: |y| < |x|
  {
    if xs == {} {
      x := "s";
    } else {
      var y :| y in xs;
      var z := LongerThanAll(xs - {y});
      x := z + y;
      assert forall w | w in xs :: w == y || w in xs - {y};
      assert forall w | w in xs :: |w| < |x|;
    }
  }

  lemma {:induction false} AboveAll(hs: set<HandlerId>) returns (h: HandlerId)
    ensures forall k | k in hs :: k < h
  {
    if hs == {} {
      h := 0;
    } else {
      var k :| k in hs;
      var m := AboveAll(hs - {k});
      h := m + k + 1;
      assert forall j | j in hs :: j == k || j in hs - {k};
    }
  }

  /** The environment always has fresh values to give. */
  lemma FreshGrant(s: System) returns (g: Grant)
    ensures Fresh(s, g) && g.stored
  {
    var secret := LongerThanAll(s.holder.Keys);
    var id := LongerThanAll(s.panel.rows.Keys);
    g := Grant(id, secret, HostInfo("", "", "", "", "", ""), 0, true);
  }

  lemma ConnectPersisting(s: System, a: AgentId) returns (es: seq<Event>)
    requires AgentIn(s, a, Persisting)
    ensures PossibleRun(s, es) && AgentIn(Run(s, es), a, Connected)
  {
    RunOne(s, AgentPersists(a, true));
    es := [AgentPersists(a, true)];
  }

  lemma ConnectMailed(s: System, a: AgentId) returns (es: seq<Event>)
    requires MailIs(s, a, AckMail)
    ensures PossibleRun(s, es) && AgentIn(Run(s, es), a, Connected)
  {
    RunOne(s, AgentTakesAck(a));
    var more := ConnectPersisting(Step(s, AgentTakesAck(a)), a);
    RunConcat(s, [AgentTakesAck(a)], more);
    es := [AgentTakesAck(a)] + more;
  }

  lemma ConnectComing(s: System, a: AgentId) returns (es: seq<Event>)
    requires Booked(s) && AckComing(s, a)
    ensures PossibleRun(s, es) && AgentIn(Run(s, es), a, Connected)
  {
    var h := s.agents[a].phase.h;
    assert AgentBooked(s, a);
    if s.handlers[h].mail == AckMail {
      es := ConnectMailed(s, a);
    } else {
      var e := AckGoesOut(h, true);
      RunOne(s, e);
      var more := ConnectMailed(Step(s, e), a);
      RunConcat(s, [e], more);
      es := [e] + more;
    }
  }

  /** From rest, with no secret or with one the panel grants. */
  lemma ConnectIdle(s: System, a: AgentId) returns (es: seq<Event>)
    requires Booked(s) && AgentIn(s, a, Idle) && !Dead(s, NodeAgent.Stored(s.agents[a].st))
    ensures PossibleRun(s, es) && AgentIn(Run(s, es), a, Connected)
  {
    var sent := NodeAgent.Stored(s.agents[a].st);
    var h := AboveAll(s.handlers.Keys);
    var e := AgentConnects(a, h);
    assert h !in s.handlers;
    var s1 := Step(s, e);
    StepKeepsBooked(s, e);
    assert AgentBooked(s, a);
    var g := FreshGrant(s1);
    AdmittedAnswer(s1, sent, g);
    var s2 := ConnectAnswered(s1, a, h, g);
    var more := ConnectComing(s2, a);
    Run2(s, e, PanelAnswers(h, true, g));
    RunConcat(s, [e, PanelAnswers(h, true, g)], more);
    es := [e, PanelAnswers(h, true, g)] + more;
  }

  lemma ConnectAnswered(s: System, a: AgentId, h: HandlerId, g: Grant) returns (s': System)
    requires Booked(s) && AgentIn(s, a, Waiting(h)) && InPhase(s, h, Arrived) && Fresh(s, g)
    requires Admitted(s.panel.rows, s.handlers[h].sent, g).Ok?
    ensures Enabled(s, PanelAnswers(h, true, g)) && s' == Step(s, PanelAnswers(h, true, g))
    ensures Booked(s') && AckComing(s', a)
  {
    assert AgentBooked(s, a);
    StepKeepsBooked(s, PanelAnswers(h, true, g));
    s' := Step(s, PanelAnswers(h, true, g));
    GrantingStep(s, PanelAnswers(h, true, g));
  }

  /** First something that leaves the agent at rest, then the connection. */
  lemma ConnectAfter(s: System, a: AgentId, e: Event) returns (es: seq<Event>)
    requires Booked(s) && Enabled(s, e) && AgentIn(Step(s, e), a, Idle)
    requires !Dead(Step(s, e), NodeAgent.Stored(Step(s, e).agents[a].st))
    ensures PossibleRun(s, es) && AgentIn(Run(s, es), a, Connected)
  {
    StepKeepsBooked(s, e);
    RunOne(s, e);
    var more := ConnectIdle(Step(s, e), a);
    RunConcat(s, [e], more);
    es := [e] + more;
  }

  lemma CanConnect(s: System, a: AgentId) returns (es: seq<Event>)
    requires Booked(s) && a in s.agents && !LockedOut(s, a)
    ensures PossibleRun(s, es) && AgentIn(Run(s, es), a, Connected)
  {
    var ag := s.agents[a];
    assert AgentBooked(s, a);
    if ag.phase.Connected? {
      es := [];
    } else if ag.phase.Persisting? {
      es := ConnectPersisting(s, a);
    } else if AckComing(s, a) {
      es := ConnectComing(s, a);
    } else if !Dead(s, NodeAgent.Stored(ag.st)) {
      if ag.phase.Idle? {
        es := ConnectIdle(s, a);
      } else {
        GivingUpKeepsSecret(s, a);
        es := ConnectAfter(s, a, AgentGivesUp(a));
      }
    } else {
      RestartReadsFile(s, a);
      es := ConnectAfter(s, a, AgentRestarts(a));
    }
  }

  lemma GivingUpKeepsSecret(s: System, a: AgentId)
    requires IsWaiting(s, a)
    ensures var s' := Step(s, AgentGivesUp(a));
            && AgentIn(s', a, Idle) && s'.agents[a].st == s.agents[a].st
            && s'.redeemed == s.redeemed && s'.nodeOf == s.nodeOf && s'.panel == s.panel
  {
  }

  lemma RestartReadsFile(s: System, a: AgentId)
    requires a in s.agents && FileBooked(s, s.agents[a])
    ensures var s' := Step(s, AgentRestarts(a));
            && AgentIn(s', a, Idle) && s'.agents[a].st.file == s.agents[a].st.file
            && NodeAgent.Stored(s'.agents[a].st)
               == (if s.agents[a].st.file.Some? then s.agents[a].st.file.value else "")
            && s'.redeemed == s.redeemed && s'.nodeOf == s.nodeOf && s'.panel == s.panel
  {
  }

  /** The run is possible and connects the agent. */
  ghost predicate ConnectsBy(s: System, es: seq<Event>, a: AgentId) {
    PossibleRun(s, es) && AgentIn(Run(s, es), a, Connected)
  }

  ghost predicate NeverConnects(s: System, a: AgentId) {
    forall es :: !ConnectsBy(s, es, a)
  }

  lemma NeverConnectsWhenLockedOut(s: System, a: AgentId)
    requires Booked(s) && a in s.agents
    ensures NeverConnects(s, a) <==> LockedOut(s, a)
  {
    if LockedOut(s, a) {
      forall es
        ensures !ConnectsBy(s, es, a)
      {
        if PossibleRun(s, es) {
          LockedOutForEver(s, es, a);
        }
      }
    } else {
      var es := CanConnect(s, a);
      assert ConnectsBy(s, es, a);
    }
  }

  /** In every reachable state, an agent connects in no continuation at all if and only if it is locked out. */
  lemma NeverConnectsIff(s: System, before: seq<Event>, a: AgentId)
    requires Initial(s) && PossibleRun(s, before) && a in Run(s, before).agents
    ensures NeverConnects(Run(s, before), a) <==> LockedOut(Run(s, before), a)
  {
    InitialInv(s);
    RunKeepsInv(s, before);
    NeverConnectsWhenLockedOut(Run(s, before), a);
  }

  // ---------- who waits for what ----------

  /** A granted handshake whose ack was not sent yet is waited for by its agent, unless that lost something. */
  ghost predicate GrantAwaited(s: System, a: AgentId, h: HandlerId) {
    a in s.agents && !s.agents[a].lost && InPhase(s, h, Granted) && s.handlers[h].agent == a ==>
      s.agents[a].phase == Waiting(h)
  }

  lemma GrantAwaitedStep(s: System, e: Event, a: AgentId, h: HandlerId)
    requires Booked(s) && Enabled(s, e) && GrantAwaited(s, a, h)
    ensures GrantAwaited(Step(s, e), a, h)
  {
    LossStays(s, e, a);
    if a in s.agents && h in s.handlers && !Step(s, e).agents[a].lost {
      assert HandlerBooked(s, h);
      if Grants(s, e) {
        GrantingStep(s, e);
      } else {
        HandlerStep(s, e, h);
        if Own(e, a) {
          GrantAwaitedOwn(s, e, a, h);
        } else {
          OthersLeaveAgent(s, e, a);
        }
      }
    } else if h !in s.handlers && h in Step(s, e).handlers {
      NewHandler(s, e, h);
    }
  }

  lemma GrantAwaitedOwn(s: System, e: Event, a: AgentId, h: HandlerId)
    requires Enabled(s, e) && Own(e, a) && GrantAwaited(s, a, h) && HandlerBooked(s, h)
    requires h in s.handlers && !Step(s, e).agents[a].lost
    ensures GrantAwaited(Step(s, e), a, h)
  {
  }

  // ---------- a secret that is not delivered is used by nobody ----------

  ghost predicate IssuedApart(s: System, k: HandlerId, h: HandlerId) {
    k in s.handlers && h in s.handlers && k != h && s.handlers[k].issued != "" ==>
      s.handlers[k].issued != s.handlers[h].issued
  }

  /** No handshake carries a secret whose ack is still to come. */
  ghost predicate Unsent(s: System, k: HandlerId, h: HandlerId) {
    k in s.handlers && UnderWay(s.handlers[k]) && h in s.handlers ==> s.handlers[h].sent != s.handlers[k].issued
  }

  /** No agent has it. */
  ghost predicate Unstored(s: System, k: HandlerId, a: AgentId) {
    k in s.handlers && UnderWay(s.handlers[k]) && a in s.agents ==>
      var x, st := s.handlers[k].issued, s.agents[a].st;
      st.memory != x && st.configured != x && st.file != Some(x)
  }

  /** A connected agent has not presented its secret yet. */
  ghost predicate Unpresented(s: System, a: AgentId, h: HandlerId) {
    (AgentIn(s, a, Persisting) || AgentIn(s, a, Connected))
    && InPhase(s, h, Arrived) && s.handlers[h].agent == a && s.handlers[h].sent != "" ==>
      s.handlers[h].sent != NodeAgent.Stored(s.agents[a].st)
  }

  ghost predicate Delivery(s: System) {
    && (forall k, h :: IssuedApart(s, k, h) && Unsent(s, k, h))
    && (forall k, a :: Unstored(s, k, a))
    && (forall a, h :: GrantAwaited(s, a, h) && Unpresented(s, a, h))
  }

  lemma UnderWayBefore(s: System, e: Event, k: HandlerId)
    requires Booked(s) && Enabled(s, e) && !Grants(s, e) && k in Step(s, e).handlers && UnderWay(Step(s, e).handlers[k])
    ensures k in s.handlers && UnderWay(s.handlers[k]) && Step(s, e).handlers[k].issued == s.handlers[k].issued
  {
    if k in s.handlers {
      HandlerStep(s, e, k);
    } else {
      NewHandler(s, e, k);
    }
  }

  lemma IssuedApartStep(s: System, e: Event, k: HandlerId, h: HandlerId)
    requires Booked(s) && Enabled(s, e) && IssuedApart(s, k, h)
    ensures IssuedApart(Step(s, e), k, h)
  {
    assert HandlerBooked(s, k) && HandlerBooked(s, h);
    if Grants(s, e) {
      GrantingStep(s, e);
    } else {
      if k in Step(s, e).handlers && h in Step(s, e).handlers {
        KeepsIssued(s, e, k);
        KeepsIssued(s, e, h);
      }
    }
  }

  lemma KeepsIssued(s: System, e: Event, h: HandlerId)
    requires Enabled(s, e) && !Grants(s, e) && h in Step(s, e).handlers
    ensures Step(s, e).handlers[h].issued == if h in s.handlers then s.handlers[h].issued else ""
    ensures h in s.handlers ==> Step(s, e).handlers[h].sent == s.handlers[h].sent
    ensures h in s.handlers ==> Step(s, e).handlers[h].agent == s.handlers[h].agent
    ensures h in s.handlers && Step(s, e).handlers[h].phase.Arrived? ==> s.handlers[h].phase.Arrived?
  {
    if h in s.handlers {
      HandlerStep(s, e, h);
    } else {
      NewHandler(s, e, h);
    }
  }

  lemma UnsentStep(s: System, e: Event, k: HandlerId, h: HandlerId)
    requires Booked(s) && Enabled(s, e) && Delivery(s)
    ensures Unsent(Step(s, e), k, h)
  {
    var s' := Step(s, e);
    assert Unsent(s, k, h) && HandlerBooked(s, h);
    if Grants(s, e) {
      GrantingStep(s, e);
    } else if k in s'.handlers && UnderWay(s'.handlers[k]) && h in s'.handlers {
      UnderWayBefore(s, e, k);
      if h in s.handlers {
        KeepsIssued(s, e, h);
      } else {
        NewHandler(s, e, h);
        assert Unstored(s, k, e.a);
        assert HandlerBooked(s, k);
      }
    }
  }

  lemma UnstoredOwn(s: System, e: Event, k: HandlerId, a: AgentId)
    requires Enabled(s, e) && Own(e, a) && k in s.handlers && UnderWay(s.handlers[k]) && Unstored(s, k, a)
    requires HandlerBooked(s, k) && (IsWaiting(s, a) ==> IssuedApart(s, k, s.agents[a].phase.h))
    requires k in Step(s, e).handlers && UnderWay(Step(s, e).handlers[k])
    requires Step(s, e).handlers[k].issued == s.handlers[k].issued
    ensures Unstored(Step(s, e), k, a)
  {
  }

  lemma UnstoredStep(s: System, e: Event, k: HandlerId, a: AgentId)
    requires Booked(s) && Enabled(s, e) && Delivery(s)
    ensures Unstored(Step(s, e), k, a)
  {
    var s' := Step(s, e);
    LossStays(s, e, a);
    assert Unstored(s, k, a) && AgentBooked(s, a) && HandlerBooked(s, k);
    if Grants(s, e) {
      GrantingStep(s, e);
    } else if k in s'.handlers && UnderWay(s'.handlers[k]) && a in s'.agents {
      UnderWayBefore(s, e, k);
      if Own(e, a) {
        if IsWaiting(s, a) {
          assert IssuedApart(s, k, s.agents[a].phase.h);
        }
        UnstoredOwn(s, e, k, a);
      } else {
        OthersLeaveAgent(s, e, a);
      }
    }
  }

  lemma UnpresentedOwn(s: System, e: Event, a: AgentId, h: HandlerId)
    requires Enabled(s, e) && Own(e, a) && Unpresented(s, a, h) && h in s.handlers
    requires h in Step(s, e).handlers && Step(s, e).handlers[h].sent == s.handlers[h].sent
    requires Step(s, e).handlers[h].phase.Arrived? ==> s.handlers[h].phase.Arrived?
    requires Step(s, e).handlers[h].agent == s.handlers[h].agent
    requires IsWaiting(s, a) ==> Unsent(s, s.agents[a].phase.h, h) && HandlerBooked(s, s.agents[a].phase.h)
    ensures Unpresented(Step(s, e), a, h)
  {
  }

  lemma UnpresentedStep(s: System, e: Event, a: AgentId, h: HandlerId)
    requires Booked(s) && Enabled(s, e) && Delivery(s)
    ensures Unpresented(Step(s, e), a, h)
  {
    var s' := Step(s, e);
    LossStays(s, e, a);
    assert Unpresented(s, a, h);
    if Grants(s, e) {
      GrantingStep(s, e);
    } else if h in s'.handlers && a in s'.agents {
      if h !in s.handlers {
        NewHandler(s, e, h);
      } else {
        KeepsIssued(s, e, h);
        if Own(e, a) {
          if IsWaiting(s, a) {
            assert Unsent(s, s.agents[a].phase.h, h) && HandlerBooked(s, s.agents[a].phase.h);
          }
          UnpresentedOwn(s, e, a, h);
        } else {
          OthersLeaveAgent(s, e, a);
        }
      }
    }
  }

  lemma DeliveryStep(s: System, e: Event)
    requires Booked(s) && Enabled(s, e) && Delivery(s)
    ensures Delivery(Step(s, e))
  {
    var s' := Step(s, e);
    forall k, h
      ensures IssuedApart(s', k, h) && Unsent(s', k, h)
    {
      assert IssuedApart(s, k, h);
      IssuedApartStep(s, e, k, h);
      UnsentStep(s, e, k, h);
    }
    forall k, a
      ensures Unstored(s', k, a)
    {
      UnstoredStep(s, e, k, a);
    }
    forall a, h
      ensures GrantAwaited(s', a, h) && Unpresented(s', a, h)
    {
      assert GrantAwaited(s, a, h);
      GrantAwaitedStep(s, e, a, h);
      UnpresentedStep(s, e, a, h);
    }
  }

  lemma {:induction false} RunKeepsDelivery(s: System, es: seq<Event>)
    requires Booked(s) && Delivery(s) && PossibleRun(s, es)
    ensures Delivery(Run(s, es))
    decreases |es|
  {
    if es != [] {
      StepKeepsBooked(s, es[0]);
      DeliveryStep(s, es[0]);
      RunKeepsDelivery(Step(s, es[0]), es[1..]);
    }
  }

  // ---------- the events that lose an ack ----------

  /** The event loses something of agent a for the first time: a granted handshake is not waited for any
      more, an ack is not sent or not taken, a secret is forgotten before it is written. */
  ghost predicate FirstLoss(s: System, e: Event, a: AgentId) {
    && Enabled(s, e) && a in s.agents && !s.agents[a].lost && a in Step(s, e).agents && Step(s, e).agents[a].lost
  }

  /** An old first handshake, without secret, is granted after its agent went on: it registers one more
      node and leaves the agent's secrets alone. */
  ghost predicate StaleRegistration(s: System, e: Event)
    requires Enabled(s, e)
  {
    Grants(s, e) && s.handlers[e.h].sent == ""
  }

  /** The ack that is lost was the answer to the secret the agent stores. */
  lemma AckLossFacts(s: System, a: AgentId, h: HandlerId)
    requires Booked(s) && AgentIn(s, a, Waiting(h)) && h in s.handlers && s.handlers[h].issued != ""
    ensures s.agents[a].st.file.Some? ==>
              && NodeAgent.Stored(s.agents[a].st) in s.redeemed && s.agents[a].st.file.value in s.redeemed
              && NodeAgent.Stored(s.agents[a].st) != "" && s.agents[a].st.file.value != ""
  {
    assert AgentBooked(s, a) && HandlerBooked(s, h);
  }

  lemma GrantLoss(s: System, e: Event, a: AgentId)
    requires Booked(s) && FirstLoss(s, e, a) && Grants(s, e) && !StaleRegistration(s, e) && AgentInv(s, a)
    requires Delivery(s)
    ensures LockedOut(Step(s, e), a) <==> s.agents[a].st.file.Some?
  {
    var h, sent := e.h, s.handlers[e.h].sent;
    var n := Admitted(s.panel.rows, sent, e.g).value;
    GrantingStep(s, e);
    GrantedToOwner(s, Step(s, e), h, n, e.g);
    assert AgentBooked(s, a) && HandlerBooked(s, h) && RowBooked(s, n);
    assert Owns(s, a, n) && Agrees(s, a, n) && Unpresented(s, a, h);
    if s.agents[a].phase.Waiting? {
      var k := s.agents[a].phase.h;
      assert HandlerBooked(s, k) && Unsent(s, k, h);
    }
  }

  lemma SendLoss(s: System, e: Event, a: AgentId)
    requires Booked(s) && FirstLoss(s, e, a) && e.AckGoesOut? && GrantAwaited(s, a, e.h)
    ensures LockedOut(Step(s, e), a) <==> s.agents[a].st.file.Some?
  {
    assert HandlerBooked(s, e.h);
    AckLossFacts(s, a, e.h);
  }

  lemma PanelRestartLoss(s: System, e: Event, a: AgentId)
    requires Booked(s) && FirstLoss(s, e, a) && e.PanelRestarts?
    ensures LockedOut(Step(s, e), a) <==> s.agents[a].st.file.Some?
  {
    assert AgentBooked(s, a) && HandlerBooked(s, s.agents[a].phase.h);
    AckLossFacts(s, a, s.agents[a].phase.h);
  }

  lemma GivingUpLoss(s: System, e: Event, a: AgentId)
    requires Booked(s) && FirstLoss(s, e, a) && (e.AgentGivesUp? || e.AgentTakesRefusal?)
    ensures LockedOut(Step(s, e), a) <==> s.agents[a].st.file.Some?
  {
    assert AgentBooked(s, a) && HandlerBooked(s, s.agents[a].phase.h);
    AckLossFacts(s, a, s.agents[a].phase.h);
  }

  lemma AgentRestartLoss(s: System, e: Event, a: AgentId)
    requires Booked(s) && FirstLoss(s, e, a) && e.AgentRestarts?
    ensures LockedOut(Step(s, e), a) <==> s.agents[a].st.file.Some?
  {
    assert AgentBooked(s, a);
    RestartReadsFile(s, a);
    if MissesAck(s, a) {
      assert HandlerBooked(s, s.agents[a].phase.h);
      AckLossFacts(s, a, s.agents[a].phase.h);
    }
  }

  lemma LosingEvents(s: System, e: Event, a: AgentId)
    requires FirstLoss(s, e, a)
    ensures Grants(s, e) || e.AckGoesOut? || e.PanelRestarts?
         || ((e.AgentGivesUp? || e.AgentTakesRefusal? || e.AgentRestarts?) && e.a == a)
  {
  }

  lemma LossIsFatalIff(s: System, e: Event, a: AgentId)
    requires Inv(s) && FirstLoss(s, e, a) && !StaleRegistration(s, e) && Delivery(s)
    ensures LockedOut(Step(s, e), a) <==> s.agents[a].st.file.Some?
  {
    LosingEvents(s, e, a);
    assert AgentInv(s, a);
    if Grants(s, e) {
      GrantLoss(s, e, a);
    } else if e.AckGoesOut? {
      assert GrantAwaited(s, s.handlers[e.h].agent, e.h);
      SendLoss(s, e, a);
    } else if e.PanelRestarts? {
      PanelRestartLoss(s, e, a);
    } else if e.AgentRestarts? {
      AgentRestartLoss(s, e, a);
    } else {
      GivingUpLoss(s, e, a);
    }
  }

  lemma StaleRegistrationChangesNothing(s: System, e: Event, a: AgentId)
    requires Booked(s) && FirstLoss(s, e, a) && StaleRegistration(s, e)
    ensures LockedOut(Step(s, e), a) <==> LockedOut(s, a)
  {
    var n := Admitted(s.panel.rows, "", e.g).value;
    GrantingStep(s, e);
    assert AgentBooked(s, a) && SecretBooked(s, NodeAgent.Stored(s.agents[a].st));
    if s.agents[a].st.file.Some? {
      assert SecretBooked(s, s.agents[a].st.file.value);
    }
  }

  /** A lost ack is fatal if and only if the agent has a secret file: for every event that first loses
      something of an agent, whether the panel could not send the ack, either side restarted, the agent
      gave up, or the grant came after that, the agent connects in no continuation exactly when its file
      exists, whatever the file then holds and whether or not the last write to it succeeded. The one
      exception is a late grant of a first handshake: it registers a second node and changes nothing for
      the agent. */
  lemma LostAckIsFatal(s: System, before: seq<Event>, e: Event, a: AgentId)
    requires Initial(s) && PossibleRun(s, before) && FirstLoss(Run(s, before), e, a)
    ensures NeverConnects(Step(Run(s, before), e), a)
       <==> if StaleRegistration(Run(s, before), e) then NeverConnects(Run(s, before), a)
            else Run(s, before).agents[a].st.file.Some?
  {
    InitialInv(s);
    InitialDelivery(s);
    RunKeepsInv(s, before);
    RunKeepsDelivery(s, before);
    if StaleRegistration(Run(s, before), e) {
      StaleRegistrationChangesNothing(Run(s, before), e, a);
      NeverConnectsWhenLockedOut(Run(s, before), a);
    } else {
      LossIsFatalIff(Run(s, before), e, a);
    }
    StepKeepsBooked(Run(s, before), e);
    NeverConnectsWhenLockedOut(Step(Run(s, before), e), a);
  }

  lemma InitialDelivery(s: System)
    requires Initial(s)
    ensures Delivery(s)
  {
  }

  // ---------- every event that locks an agent out ----------

  predicate Resting(s: System, a: AgentId) {
    a in s.agents && (s.agents[a].phase.Idle? || s.agents[a].phase.Waiting?) && !AckComing(s, a)
  }

  /** The secret agent a stores is redeemed by a handshake it does not wait for any more. */
  ghost predicate RedeemedBehind(s: System, e: Event, a: AgentId)
    requires Enabled(s, e) && a in s.agents
  {
    && Grants(s, e) && s.handlers[e.h].agent == a && s.agents[a].phase != Waiting(e.h)
    && s.handlers[e.h].sent == NodeAgent.Stored(s.agents[a].st) != ""
  }

  /** The ack agent a waits for is lost. */
  predicate LosesAwaitedAck(s: System, e: Event, a: AgentId)
    requires Enabled(s, e) && a in s.agents
  {
    || (e.AckGoesOut? && !e.sent && s.agents[a].phase == Waiting(e.h))
    || (e.PanelRestarts? && AckDies(s, a))
    || (e.AgentGivesUp? && e.a == a && MissesAck(s, a))
  }

  /** The agent restarts from a file whose secret is dead, or has been replaced meanwhile. */
  predicate RestartsFromDeadFile(s: System, e: Event, a: AgentId)
    requires Enabled(s, e) && a in s.agents && s.agents[a].st.file.Some?
  {
    && e.AgentRestarts? && e.a == a
    && (s.agents[a].unsaved || s.agents[a].phase.Persisting? || MissesAck(s, a) || Dead(s, s.agents[a].st.file.value))
  }

  /** The agent's node is deleted while it is at rest, or it comes to rest with a deleted node's secret. */
  predicate LosesNode(s: System, e: Event, a: AgentId)
    requires Enabled(s, e) && a in s.agents
  {
    var stored := NodeAgent.Stored(s.agents[a].st);
    || (e.AdminDeletesRow? && Resting(s, a) && stored in s.nodeOf && s.nodeOf[stored] == e.id)
    || (e.AgentDisconnects? && e.a == a && Dead(s, stored))
  }

  /** The events that lock agent a out, all of them fatal only to an agent with a secret file. */
  ghost predicate Locks(s: System, e: Event, a: AgentId)
    requires Enabled(s, e) && a in s.agents
  {
    && s.agents[a].st.file.Some?
    && (RedeemedBehind(s, e, a) || LosesAwaitedAck(s, e, a) || RestartsFromDeadFile(s, e, a) || LosesNode(s, e, a))
  }

  /** What makes a secret dead. */
  lemma DeadOrigin(s: System, e: Event, secret: Secret)
    requires Booked(s) && Enabled(s, e) && secret in s.nodeOf
    ensures Dead(Step(s, e), secret)
       <==> || Dead(s, secret) || (Grants(s, e) && secret == s.handlers[e.h].sent)
            || e == AdminDeletesRow(s.nodeOf[secret])
  {
    assert SecretBooked(s, secret);
    assert "" !in s.holder;
    RedeemedGrows(s, e);
    if Grants(s, e) {
      GrantingStep(s, e);
      GrantKeepsDeleted(s, e, s.nodeOf[secret]);
    } else {
      QuietStep(s, e);
      DeletedOrigin(s, e, s.nodeOf[secret]);
    }
  }

  lemma GrantKeepsDeleted(s: System, e: Event, id: NodeId)
    requires Booked(s) && Enabled(s, e) && Grants(s, e) && id in s.panel.rows
    ensures IsDeleted(Step(s, e), id) <==> IsDeleted(s, id)
  {
  }

  lemma DeletedOrigin(s: System, e: Event, id: NodeId)
    requires Enabled(s, e) && !Grants(s, e) && id in s.panel.rows
    ensures IsDeleted(Step(s, e), id) <==> IsDeleted(s, id) || e == AdminDeletesRow(id)
  {
  }

  /** An agent's secrets, other than its file while that is behind, are one. */
  lemma FileFacts(s: System, a: AgentId)
    requires Booked(s) && a in s.agents && s.agents[a].st.file.Some?
    ensures var ag := s.agents[a];
            && NodeAgent.Stored(ag.st) in s.nodeOf && ag.st.file.value in s.nodeOf
            && NodeAgent.Stored(ag.st) != "" && ag.st.file.value != ""
            && (ag.st.file.value == NodeAgent.Stored(ag.st) || Dead(s, ag.st.file.value))
            && (ag.unsaved || ag.phase.Persisting? ==> Dead(s, ag.st.file.value))
  {
    assert AgentBooked(s, a);
  }

  lemma NoFileNotLocked(s: System, e: Event, a: AgentId)
    requires Enabled(s, e) && a in s.agents && s.agents[a].st.file.None?
    ensures !LockedOut(s, a)
    ensures a in Step(s, e).agents && !LockedOut(Step(s, e), a)
  {
    LossStays(s, e, a);
    if !Own(e, a) {
      OthersLeaveAgent(s, e, a);
    }
  }

  /** With a file, being locked out is to rest with a dead secret. */
  lemma LockedOutShort(s: System, a: AgentId)
    requires Booked(s) && a in s.agents && s.agents[a].st.file.Some?
    ensures LockedOut(s, a) <==> Resting(s, a) && Dead(s, NodeAgent.Stored(s.agents[a].st))
  {
    FileFacts(s, a);
  }

  lemma GrantedNotDead(s: System, e: Event)
    requires Booked(s) && Enabled(s, e) && Grants(s, e)
    ensures !Dead(s, s.handlers[e.h].sent)
  {
    if Dead(s, s.handlers[e.h].sent) {
      DeadSecretRefused(s, s.handlers[e.h].sent, e.g);
    }
  }

  lemma GrantResting(s: System, e: Event, a: AgentId)
    requires Booked(s) && Enabled(s, e) && Grants(s, e) && a in s.agents
    ensures a in Step(s, e).agents && Step(s, e).agents[a].st == s.agents[a].st
    ensures Resting(Step(s, e), a) <==> Resting(s, a) && s.agents[a].phase != Waiting(e.h)
  {
    GrantingStep(s, e);
    assert AgentBooked(s, a);
  }

  /** An agent whose secret is granted rests, or waits for that grant. */
  lemma GrantedSecretRests(s: System, e: Event, a: AgentId)
    requires Booked(s) && Delivery(s) && Enabled(s, e) && Grants(s, e) && a in s.agents
    requires s.handlers[e.h].sent == NodeAgent.Stored(s.agents[a].st) != ""
    ensures s.handlers[e.h].agent == a && Resting(s, a) && !Dead(s, NodeAgent.Stored(s.agents[a].st))
  {
    assert AgentBooked(s, a) && HandlerBooked(s, e.h);
    assert s.handlers[e.h].agent == a;
    assert Unpresented(s, a, e.h);
    GrantedNotDead(s, e);
    if s.agents[a].phase.Waiting? {
      assert HandlerBooked(s, s.agents[a].phase.h);
    }
  }

  lemma LockByGrant(s: System, e: Event, a: AgentId)
    requires Booked(s) && Delivery(s) && Enabled(s, e) && Grants(s, e) && a in s.agents && s.agents[a].st.file.Some?
    ensures LockedOut(Step(s, e), a) <==> LockedOut(s, a) || RedeemedBehind(s, e, a)
  {
    var stored := NodeAgent.Stored(s.agents[a].st);
    StepKeepsBooked(s, e);
    GrantResting(s, e, a);
    LockedOutShort(s, a);
    LockedOutShort(Step(s, e), a);
    FileFacts(s, a);
    DeadOrigin(s, e, stored);
    if s.handlers[e.h].sent == stored {
      GrantedSecretRests(s, e, a);
    } else if LockedOut(s, a) {
      LockedOutStep(s, e, a);
    }
  }

  lemma OtherResting(s: System, e: Event, a: AgentId)
    requires Booked(s) && Enabled(s, e) && !Grants(s, e) && !Own(e, a) && a in s.agents
    ensures a in Step(s, e).agents && Step(s, e).agents[a].st == s.agents[a].st
    ensures Resting(Step(s, e), a) <==> Resting(s, a) || LosesAwaitedAck(s, e, a)
  {
    OthersLeaveAgent(s, e, a);
    assert AgentBooked(s, a);
    if s.agents[a].phase.Waiting? {
      OtherComing(s, e, a, s.agents[a].phase.h);
    }
  }

  /** What others do to the ack an agent waits for. */
  lemma OtherComing(s: System, e: Event, a: AgentId, h: HandlerId)
    requires Booked(s) && Enabled(s, e) && !Grants(s, e) && !Own(e, a) && AgentIn(s, a, Waiting(h)) && h in s.handlers
    ensures h in Step(s, e).handlers
    ensures UnderWay(Step(s, e).handlers[h]) <==> UnderWay(s.handlers[h]) && !LosesAwaitedAck(s, e, a)
  {
    assert AgentBooked(s, a) && HandlerBooked(s, h);
    HandlerStep(s, e, h);
    if AgentSide(e) {
      OtherMail(s, e, a, h);
    } else if Opening(e) {
      OpeningComing(s, e, a, h);
    } else {
      LaterComing(s, e, a, h);
    }
  }

  /** An agent takes only the mail of the handler it waits on. */
  lemma OtherMail(s: System, e: Event, a: AgentId, h: HandlerId)
    requires Enabled(s, e) && AgentSide(e) && !Own(e, a) && AgentIn(s, a, Waiting(h)) && h in s.handlers
    requires s.handlers[h].agent == a && forall b :: AgentBooked(s, b)
    ensures h in Step(s, e).handlers && Step(s, e).handlers[h] == s.handlers[h]
  {
    assert AgentBooked(s, e.a);
  }

  lemma OpeningComing(s: System, e: Event, a: AgentId, h: HandlerId)
    requires Enabled(s, e) && Opening(e) && !Grants(s, e) && AgentIn(s, a, Waiting(h)) && h in s.handlers
    requires HandlerBooked(s, h)
    ensures h in Step(s, e).handlers
    ensures UnderWay(Step(s, e).handlers[h]) <==> UnderWay(s.handlers[h]) && !LosesAwaitedAck(s, e, a)
  {
  }

  lemma LaterComing(s: System, e: Event, a: AgentId, h: HandlerId)
    requires Enabled(s, e) && !AgentSide(e) && !Opening(e) && AgentIn(s, a, Waiting(h)) && h in s.handlers
    requires HandlerBooked(s, h)
    ensures h in Step(s, e).handlers
    ensures UnderWay(Step(s, e).handlers[h]) <==> UnderWay(s.handlers[h]) && !LosesAwaitedAck(s, e, a)
  {
  }

  lemma AwaitedAckLossFacts(s: System, e: Event, a: AgentId)
    requires Booked(s) && Enabled(s, e) && a in s.agents && s.agents[a].st.file.Some?
    requires LosesAwaitedAck(s, e, a) || MissesAck(s, a)
    ensures Dead(s, NodeAgent.Stored(s.agents[a].st)) && Dead(s, s.agents[a].st.file.value) && !Resting(s, a)
  {
    assert AgentBooked(s, a);
    var h := s.agents[a].phase.h;
    assert HandlerBooked(s, h);
    AckLossFacts(s, a, h);
  }

  lemma LockByOthers(s: System, e: Event, a: AgentId)
    requires Booked(s) && Enabled(s, e) && !Grants(s, e) && !Own(e, a) && a in s.agents && s.agents[a].st.file.Some?
    ensures LockedOut(Step(s, e), a) <==> LockedOut(s, a) || LosesAwaitedAck(s, e, a) || LosesNode(s, e, a)
  {
    StepKeepsBooked(s, e);
    OtherResting(s, e, a);
    LockedOutShort(s, a);
    LockedOutShort(Step(s, e), a);
    FileFacts(s, a);
    DeadOrigin(s, e, NodeAgent.Stored(s.agents[a].st));
    if LosesAwaitedAck(s, e, a) {
      AwaitedAckLossFacts(s, e, a);
    }
  }

  /** Its own events, except for a restart, leave the secrets of an agent that has a file and comes to rest. */
  lemma OwnResting(s: System, e: Event, a: AgentId)
    requires Booked(s) && Enabled(s, e) && Own(e, a) && !e.AgentRestarts? && a in s.agents && s.agents[a].st.file.Some?
    ensures a in Step(s, e).agents && Step(s, e).agents[a].st.file.Some?
    ensures Resting(Step(s, e), a)
       <==> e.AgentConnects? || e.AgentTakesRefusal? || e.AgentGivesUp? || e.AgentDisconnects?
    ensures Resting(Step(s, e), a) ==> Step(s, e).agents[a].st == s.agents[a].st
  {
  }

  lemma OwnRestingBefore(s: System, e: Event, a: AgentId)
    requires Booked(s) && Enabled(s, e) && Own(e, a) && a in s.agents
    ensures e.AgentConnects? || e.AgentTakesRefusal? ==> Resting(s, a)
    ensures e.AgentDisconnects? || e.AgentTakesAck? || e.AgentPersists? ==> !Resting(s, a)
    ensures e.AgentGivesUp? ==> (Resting(s, a) <==> !MissesAck(s, a))
  {
    assert AgentBooked(s, a);
    if s.agents[a].phase.Waiting? {
      assert HandlerBooked(s, s.agents[a].phase.h);
    }
  }

  lemma LockByOwn(s: System, e: Event, a: AgentId)
    requires Booked(s) && Enabled(s, e) && Own(e, a) && a in s.agents && s.agents[a].st.file.Some?
    requires !e.AgentRestarts?
    ensures LockedOut(Step(s, e), a) <==> LockedOut(s, a) || LosesAwaitedAck(s, e, a) || LosesNode(s, e, a)
  {
    StepKeepsBooked(s, e);
    OwnResting(s, e, a);
    OwnRestingBefore(s, e, a);
    LockedOutShort(s, a);
    LockedOutShort(Step(s, e), a);
    FileFacts(s, a);
    DeadOrigin(s, e, NodeAgent.Stored(s.agents[a].st));
    if LosesAwaitedAck(s, e, a) {
      AwaitedAckLossFacts(s, e, a);
    }
  }

  lemma LockByRestart(s: System, e: Event, a: AgentId)
    requires Booked(s) && Enabled(s, e) && e == AgentRestarts(a) && a in s.agents && s.agents[a].st.file.Some?
    ensures LockedOut(Step(s, e), a) <==> LockedOut(s, a) || RestartsFromDeadFile(s, e, a)
  {
    assert AgentBooked(s, a);
    StepKeepsBooked(s, e);
    RestartReadsFile(s, a);
    LockedOutShort(Step(s, e), a);
    FileFacts(s, a);
    DeadOrigin(s, e, s.agents[a].st.file.value);
    if MissesAck(s, a) {
      AwaitedAckLossFacts(s, e, a);
    }
  }

  lemma LocksByCase(s: System, e: Event, a: AgentId)
    requires Enabled(s, e) && a in s.agents
    ensures s.agents[a].st.file.None? ==> !Locks(s, e, a)
    ensures s.agents[a].st.file.Some? ==>
              (Locks(s, e, a)
               <==> if Grants(s, e) then RedeemedBehind(s, e, a)
                    else if e == AgentRestarts(a) then RestartsFromDeadFile(s, e, a)
                    else LosesAwaitedAck(s, e, a) || LosesNode(s, e, a))
  {
  }

  lemma LockStepIff(s: System, e: Event, a: AgentId)
    requires Booked(s) && Delivery(s) && Enabled(s, e) && a in s.agents
    ensures LockedOut(Step(s, e), a) <==> LockedOut(s, a) || Locks(s, e, a)
  {
    LocksByCase(s, e, a);
    if s.agents[a].st.file.None? {
      NoFileNotLocked(s, e, a);
    } else if Grants(s, e) {
      LockByGrant(s, e, a);
    } else if e == AgentRestarts(a) {
      LockByRestart(s, e, a);
    } else if Own(e, a) {
      LockByOwn(s, e, a);
    } else {
      LockByOthers(s, e, a);
    }
  }

  /** In every reachable state and for every event, losing or not, first or later: an agent that could still
      connect never connects again after the event if and only if the agent has a secret file and the event
      redeems the secret it stores behind its back, loses the ack it waits for, restarts it from a file whose
      secret is dead or replaced, or leaves it at rest with the secret of a deleted node. */
  lemma LockingEventsIff(s: System, before: seq<Event>, e: Event, a: AgentId)
    requires Initial(s) && PossibleRun(s, before) && Enabled(Run(s, before), e) && a in Run(s, before).agents
    ensures NeverConnects(Step(Run(s, before), e), a)
       <==> NeverConnects(Run(s, before), a) || Locks(Run(s, before), e, a)
  {
    InitialInv(s);
    InitialDelivery(s);
    RunKeepsInv(s, before);
    RunKeepsDelivery(s, before);
    LockStepIff(Run(s, before), e, a);
    LossStays(Run(s, before), e, a);
    StepKeepsBooked(Run(s, before), e);
    NeverConnectsWhenLockedOut(Run(s, before), a);
    NeverConnectsWhenLockedOut(Step(Run(s, before), e), a);
  }

  /** The other half: without a file a restarted agent has no secret, and its next handshake registers it a
      second time, as a new node. */
  lemma WithoutFileRegistersAnew(s: System, a: AgentId, g: Grant)
    requires Booked(s) && a in s.agents && s.agents[a].st.file.None?
    requires g.stored && Fresh(s, g)
    ensures var s' := Step(s, AgentRestarts(a));
            && NodeAgent.Stored(s'.agents[a].st) == ""
            && Admitted(s'.panel.rows, NodeAgent.Stored(s'.agents[a].st), g) == Ok(g.newId)
  {
    RestartReadsFile(s, a);
  }
}
