/** The dashboard's WebSocket reconnect loop (panel/panel-backend/web/static/js/dashboard.js):
    one token, held either by a socket or by a reconnect timer, goes round for ever. */
module LiveSocket {
  import opened Prelude

  type SocketId = nat

  /** A socket leaves `sockets` when its close event has been delivered. */
  datatype ReadyState = Connecting | Open | Closing

  const MIN_DELAY := 1000.0
  const MAX_DELAY := 30000.0

  /** `timers` holds the waits of the reconnect timers that have not fired. */
  datatype State = State(sockets: map<SocketId, ReadyState>, created: nat, ws: Option<SocketId>,
                         timers: seq<real>, wsRetryDelay: real, polling: bool)

  function Min(a: real, b: real): real {
    if a < b then a else b
  }

  // ---------- specification of the handlers ----------

  predicate Busy(s: State) {
    s.ws.Some? && s.ws.value in s.sockets && s.sockets[s.ws.value] != Closing
  }

  function Scheduled(s: State): State {
    s.(timers := s.timers + [s.wsRetryDelay], wsRetryDelay := Min(s.wsRetryDelay * 1.5, MAX_DELAY))
  }

  /** `connectWS`; `throws` tells whether the WebSocket constructor throws. */
  function Connected(s: State, throws: bool): State {
    if Busy(s) then s
    else if throws then Scheduled(s)
    else s.(ws := Some(s.created), sockets := s.sockets[s.created := Connecting], created := s.created + 1)
  }

  datatype Event =
    | TimerFires(k: nat, throws: bool)
    | Opens(id: SocketId)
    | StartsClosing(id: SocketId)
    | Closes(id: SocketId)

  predicate Enabled(s: State, e: Event) {
    match e
    case TimerFires(k, _) => k < |s.timers|
    case Opens(id) => id in s.sockets && s.sockets[id] == Connecting
    case StartsClosing(id) => id in s.sockets && s.sockets[id] != Closing
    case Closes(id) => id in s.sockets
  }

  function Step(s: State, e: Event): State
    requires Enabled(s, e)
  {
    match e
    case TimerFires(k, throws) => Connected(s.(timers := s.timers[..k] + s.timers[k + 1..]), throws)
    case Opens(id) => s.(sockets := s.sockets[id := Open], wsRetryDelay := MIN_DELAY, polling := false)
    case StartsClosing(id) => s.(sockets := s.sockets[id := Closing])
    case Closes(id) => Scheduled(s.(sockets := s.sockets - {id}, ws := None, polling := true))
  }

  const Loaded := State(map[], 0, None, [], MIN_DELAY, false)

  // ---------- the page ----------

  class Dashboard {
    var sockets: map<SocketId, ReadyState>
    var created: nat
    var ws: Option<SocketId>
    var timers: seq<real>
    var wsRetryDelay: real
    var polling: bool

    ghost function Abstract(): State
      reads this
    {
      State(sockets, created, ws, timers, wsRetryDelay, polling)
    }

    /** Loading the page ends with a call of `connectWS`. */
    constructor Boot(throws: bool)
      ensures Abstract() == Connected(Loaded, throws)
    {
      sockets, created, ws := map[], 0, None;
      timers, wsRetryDelay, polling := [], MIN_DELAY, false;
      new;
      ConnectWS(throws);
    }

    method ConnectWS(throws: bool)
      modifies this
      ensures Abstract() == Connected(old(Abstract()), throws)
    {
      if ws.Some? && ws.value in sockets && (sockets[ws.value] == Connecting || sockets[ws.value] == Open) {
        return;
      }
      if throws {
        ScheduleWSReconnect();
        return;
      }
      ws := Some(created);
      sockets := sockets[created := Connecting];
      created := created + 1;
    }

    method ScheduleWSReconnect()
      modifies `timers, `wsRetryDelay
      ensures Abstract() == Scheduled(old(Abstract()))
    {
      timers := timers + [wsRetryDelay];
      wsRetryDelay := Min(wsRetryDelay * 1.5, MAX_DELAY);
    }

    method StartFallbackPolling()
      modifies `polling
      ensures polling
    {
      if polling {
        return;
      }
      polling := true;
    }

    method StopFallbackPolling()
      modifies `polling
      ensures !polling
    {
      if polling {
        polling := false;
      }
    }

    method OnTimer(k: nat, throws: bool)
      requires k < |timers|
      modifies this
      ensures Abstract() == Step(old(Abstract()), TimerFires(k, throws))
    {
      timers := timers[..k] + timers[k + 1..];
      ConnectWS(throws);
    }

    method OnOpen(id: SocketId)
      requires id in sockets && sockets[id] == Connecting
      modifies this
      ensures Abstract() == Step(old(Abstract()), Opens(id))
    {
      sockets := sockets[id := Open];
      wsRetryDelay := MIN_DELAY;
      StopFallbackPolling();
    }

    method OnClose(id: SocketId)
      requires id in sockets
      modifies this
      ensures Abstract() == Step(old(Abstract()), Closes(id))
    {
      sockets := sockets - {id};
      ws := None;
      StartFallbackPolling();
      ScheduleWSReconnect();
    }
  }

  // ---------- every run ----------

  ghost predicate ValidRun(s: State, es: seq<Event>)
    decreases |es|
  {
    es != [] ==> Enabled(s, es[0]) && ValidRun(Step(s, es[0]), es[1..])
  }

  function Run(s: State, es: seq<Event>): State
    requires ValidRun(s, es)
    decreases |es|
  {
    if es == [] then s else Run(Step(s, es[0]), es[1..])
  }

  predicate InRange(delay: real) {
    MIN_DELAY <= delay <= MAX_DELAY
  }

  /** Exactly one of: one live socket, which `ws` refers to; one pending reconnect timer. */
  ghost predicate OneToken(s: State) {
    || (s.timers == [] && s.ws.Some? && s.sockets.Keys == {s.ws.value})
    || (|s.timers| == 1 && s.ws.None? && s.sockets == map[])
  }

  ghost predicate Inv(s: State) {
    && OneToken(s)
    && (forall id | id in s.sockets :: id < s.created)
    && (forall id | id in s.sockets && s.sockets[id] == Open :: !s.polling)
    && InRange(s.wsRetryDelay)
    && forall w | w in s.timers :: InRange(w)
  }

  lemma StepKeepsInv(s: State, e: Event)
    requires Inv(s) && Enabled(s, e)
    ensures Inv(Step(s, e))
    ensures e.Opens? || s.wsRetryDelay <= Step(s, e).wsRetryDelay
  {
    var s' := Step(s, e);
    match e
    case TimerFires(k, throws) =>
      assert k == 0 && s.timers[..k] + s.timers[k + 1..] == [];
    case Opens(id) =>
    case StartsClosing(id) =>
    case Closes(id) =>
      assert s.sockets.Keys == {id};
      assert s'.sockets == map[];
  }

  /** After boot, in every run, exactly one live socket or one pending timer exists, an open socket
      excludes fallback polling, and every wait lies between one and thirty seconds. */
  lemma {:induction false} RunKeepsInv(s: State, es: seq<Event>)
    requires Inv(s) && ValidRun(s, es)
    ensures Inv(Run(s, es))
    ensures (forall e | e in es :: !e.Opens?) ==> s.wsRetryDelay <= Run(s, es).wsRetryDelay
    decreases |es|
  {
    if es != [] {
      StepKeepsInv(s, es[0]);
      RunKeepsInv(Step(s, es[0]), es[1..]);
    }
  }

  lemma BootEstablishesInv(throws: bool)
    ensures Inv(Connected(Loaded, throws))
  {
  }

  /** The page starts with one attempt: a socket that is connecting, or, when creating it throws, a retry
      after a second and a delay of one and a half. */
  lemma BootState(throws: bool)
    ensures var s := Connected(Loaded, throws);
            && !s.polling
            && (throws ==> s.timers == [1000.0] && s.wsRetryDelay == 1500.0 && s.ws == None && s.sockets == map[])
            && (!throws ==> && s.timers == [] && s.wsRetryDelay == 1000.0
                            && s.ws == Some(0) && s.sockets == map[0 := Connecting])
  {
  }

  // ---------- polling as a function of the history ----------

  /** Polling is on from a close to the next open. */
  function PollingAfter(es: seq<Event>, before: bool): bool {
    if es == [] then before
    else
      var last := es[|es| - 1];
      if last.Closes? then true else if last.Opens? then false else PollingAfter(es[..|es| - 1], before)
  }

  lemma {:induction false} RunSnoc(s: State, es: seq<Event>, e: Event)
    requires ValidRun(s, es + [e])
    ensures ValidRun(s, es) && Enabled(Run(s, es), e) && Run(s, es + [e]) == Step(Run(s, es), e)
    decreases |es|
  {
    if es == [] {
      assert ([] + [e])[1..] == [];
    } else {
      assert (es + [e])[1..] == es[1..] + [e];
      RunSnoc(Step(s, es[0]), es[1..], e);
    }
  }

  /** The page polls if and only if the last close or open it has seen was a close. */
  lemma {:induction false} PollingIsHistory(s: State, es: seq<Event>)
    requires ValidRun(s, es)
    ensures Run(s, es).polling == PollingAfter(es, s.polling)
    decreases |es|
  {
    if es != [] {
      var n := |es| - 1;
      assert es == es[..n] + [es[n]];
      RunSnoc(s, es[..n], es[n]);
      PollingIsHistory(s, es[..n]);
      PollingStep(Run(s, es[..n]), es[n]);
    }
  }

  lemma PollingStep(s: State, e: Event)
    requires Enabled(s, e)
    ensures Step(s, e).polling == if e.Closes? then true else if e.Opens? then false else s.polling
  {
  }

  /** The loop cannot stall: in every reachable state some event is enabled, and the guard of
      `connectWS` never swallows a timer, so every firing timer tries a new socket. */
  lemma NeverStalls(s: State)
    requires Inv(s)
    ensures exists e :: Enabled(s, e)
    ensures forall k: nat, throws | Enabled(s, TimerFires(k, throws)) ::
              var s' := Step(s, TimerFires(k, throws));
              if throws then s'.timers == [s.wsRetryDelay] else s'.sockets == map[s.created := Connecting]
  {
    if s.timers == [] {
      assert s.ws.value in s.sockets;
      assert Enabled(s, Closes(s.ws.value));
    } else {
      assert Enabled(s, TimerFires(0, true));
    }
    forall k: nat, throws | Enabled(s, TimerFires(k, throws))
      ensures var s' := Step(s, TimerFires(k, throws));
              if throws then s'.timers == [s.wsRetryDelay] else s'.sockets == map[s.created := Connecting]
    {
      assert s.timers[..k] + s.timers[k + 1..] == [];
    }
  }

  // ---------- the delay as a function of the history ----------

  /** The delay after n failed attempts in a row. */
  function Backoff(n: nat): real {
    if n == 0 then MIN_DELAY else Min(Backoff(n - 1) * 1.5, MAX_DELAY)
  }

  function Power(b: real, n: nat): real {
    if n == 0 then 1.0 else b * Power(b, n - 1)
  }

  lemma {:induction false} BackoffClosedForm(n: nat)
    ensures Backoff(n) == Min(1000.0 * Power(1.5, n), 30000.0)
  {
    if n > 0 {
      BackoffClosedForm(n - 1);
    }
  }

  function FailuresAfter(e: Event, before: nat): nat {
    match e
    case TimerFires(_, throws) => if throws then before + 1 else before
    case Opens(_) => 0
    case StartsClosing(_) => before
    case Closes(_) => before + 1
  }

  /** Attempts that failed since the last open, counting `before` ones. */
  function Failures(es: seq<Event>, before: nat): nat
    decreases |es|
  {
    if es == [] then before else Failures(es[1..], FailuresAfter(es[0], before))
  }

  lemma DelayStep(s: State, e: Event, before: nat)
    requires Inv(s) && Enabled(s, e) && s.wsRetryDelay == Backoff(before)
    ensures Step(s, e).wsRetryDelay == Backoff(FailuresAfter(e, before))
  {
    match e
    case TimerFires(k, throws) => assert !Busy(s);
    case Opens(_) =>
    case StartsClosing(_) =>
    case Closes(_) =>
  }

  /** The retry delay is determined by the failures since the last open alone. */
  lemma {:induction false} DelayIsBackoff(s: State, es: seq<Event>, before: nat)
    requires Inv(s) && ValidRun(s, es) && s.wsRetryDelay == Backoff(before)
    ensures Run(s, es).wsRetryDelay == Backoff(Failures(es, before))
    decreases |es|
  {
    if es != [] {
      StepKeepsInv(s, es[0]);
      DelayStep(s, es[0], before);
      DelayIsBackoff(Step(s, es[0]), es[1..], FailuresAfter(es[0], before));
    }
  }
}
