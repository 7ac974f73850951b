/** The push of configurations to the nodes (panel/panel-backend/internal/web/app.go) and its effect on
    the nodes' configuration files: per-node FIFO streams between the panel and Xray's config file. */
module ConfigPush {
  import opened Prelude
  import opened Json
  import XrayManager
  import Inbounds

  type NodeId = string

  /** What `nodeSvc.List` reports of a node. */
  datatype NodeStatus = NodeStatus(id: NodeId, online: bool)

  /** The configurations sent over a node's stream and not received yet; a node without entry has no stream. */
  type Queues = map<NodeId, seq<Fields>>

  // ---------- one pass over the nodes ----------

  /** The push to n works: it has a stream, and neither building nor sending fails for it. */
  predicate Reachable(queues: Queues, failing: set<NodeId>, n: NodeId) {
    n in queues && n !in failing
  }

  function Sent(queues: Queues, n: NodeId, cfg: Fields): Queues
    requires n in queues
  {
    queues[n := queues[n] + [cfg]]
  }

  function Pushed(table: Inbounds.State, nodes: seq<NodeStatus>, queues: Queues, failing: set<NodeId>): Queues {
    if nodes == [] then queues
    else
      var before := Pushed(table, nodes[..|nodes| - 1], queues, failing);
      var info := nodes[|nodes| - 1];
      if info.online && Reachable(before, failing, info.id)
      then Sent(before, info.id, Inbounds.Build(table, info.id))
      else before
  }

  /** The nodes a pass reaches. */
  function Reached(nodes: seq<NodeStatus>, queues: Queues, failing: set<NodeId>): set<NodeId> {
    set info | info in nodes && info.online && Reachable(queues, failing, info.id) :: info.id
  }

  class App {
    var queues: Queues

    constructor (queues: Queues)
      ensures this.queues == queues
    {
      this.queues := queues;
    }

    method SendToNode(n: NodeId, cfg: Fields, sendFails: bool) returns (ok: bool)
      modifies this
      ensures ok <==> n in old(queues) && !sendFails
      ensures queues == if ok then Sent(old(queues), n, cfg) else old(queues)
    {
      if n !in queues {
        return false;
      }
      if sendFails {
        return false;
      }
      queues := queues[n := queues[n] + [cfg]];
      return true;
    }

    /** The `OnChange` closure and the forced push run the same loop; the latter reports the count. A list
        that cannot be read ends the pass before it starts. */
    method PushAll(table: Inbounds.State, nodes: Option<seq<NodeStatus>>, failing: set<NodeId>) returns (pushed: nat)
      modifies this
      ensures nodes.None? ==> queues == old(queues) && pushed == 0
      ensures nodes.Some? ==> queues == Pushed(table, nodes.value, old(queues), failing)
      ensures nodes.Some? && UniqueIds(nodes.value) ==> pushed == |Reached(nodes.value, old(queues), failing)|
    {
      pushed := 0;
      if nodes.None? {
        return;
      }
      var list := nodes.value;
      assert list[..0] == [];
      for i := 0 to |list|
        invariant queues == Pushed(table, list[..i], old(queues), failing)
        invariant UniqueIds(list) ==> pushed == |Reached(list[..i], old(queues), failing)|
      {
        PushedNext(table, list, i, old(queues), failing);
        ReachedStep(list, i, old(queues), failing);
        if !list[i].online {
          continue;
        }
        var cfg := Inbounds.Build(table, list[i].id);
        var ok := SendToNode(list[i].id, cfg, list[i].id in failing);
        if !ok {
          continue;
        }
        pushed := pushed + 1;
      }
      assert list[..|list|] == list;
    }
  }

  ghost predicate UniqueIds(nodes: seq<NodeStatus>) {
    forall i, j | 0 <= i < j < |nodes| :: nodes[i].id != nodes[j].id
  }

  lemma {:induction false} PushedKeys(table: Inbounds.State, nodes: seq<NodeStatus>, queues: Queues,
                                      failing: set<NodeId>)
    ensures Pushed(table, nodes, queues, failing).Keys == queues.Keys
  {
    if nodes != [] {
      PushedKeys(table, nodes[..|nodes| - 1], queues, failing);
    }
  }

  lemma PushedNext(table: Inbounds.State, nodes: seq<NodeStatus>, i: nat, queues: Queues, failing: set<NodeId>)
    requires i < |nodes|
    ensures var before, info := Pushed(table, nodes[..i], queues, failing), nodes[i];
            && before.Keys == queues.Keys
            && Pushed(table, nodes[..i + 1], queues, failing)
               == if info.online && Reachable(before, failing, info.id)
                  then Sent(before, info.id, Inbounds.Build(table, info.id)) else before
  {
    assert nodes[..i + 1][..i] == nodes[..i];
    PushedKeys(table, nodes[..i], queues, failing);
  }

  lemma ReachedStep(nodes: seq<NodeStatus>, i: nat, queues: Queues, failing: set<NodeId>)
    requires i < |nodes|
    ensures var before, after := Reached(nodes[..i], queues, failing), Reached(nodes[..i + 1], queues, failing);
            if nodes[i].online && Reachable(queues, failing, nodes[i].id)
            then && after == before + {nodes[i].id}
                 && (UniqueIds(nodes) ==> nodes[i].id !in before && |after| == |before| + 1)
            else after == before
  {
    assert nodes[..i + 1] == nodes[..i] + [nodes[i]];
    assert forall info :: info in nodes[..i + 1] <==> info in nodes[..i] || info == nodes[i];
  }

  /** A pass queues exactly one configuration, the one built from the table for that node, behind
      everything queued before, for every node it reaches, and nothing for the others. */
  lemma {:induction false} PushedQueues(table: Inbounds.State, nodes: seq<NodeStatus>, queues: Queues,
                                        failing: set<NodeId>)
    requires UniqueIds(nodes)
    ensures var after := Pushed(table, nodes, queues, failing);
            && after.Keys == queues.Keys
            && forall n | n in queues ::
                 after[n]
                 == if n in Reached(nodes, queues, failing) then queues[n] + [Inbounds.Build(table, n)] else queues[n]
  {
    PushedKeys(table, nodes, queues, failing);
    if nodes != [] {
      var k := |nodes| - 1;
      PushedQueues(table, nodes[..k], queues, failing);
      PushedKeys(table, nodes[..k], queues, failing);
      ReachedStep(nodes, k, queues, failing);
      assert nodes[..k + 1] == nodes;
    }
  }

  // ---------- panel, streams and nodes together ----------

  /** `files` holds each node's configuration file, `apiAddrs` its stats API address. */
  datatype System = System(table: Inbounds.State, queues: Queues, files: map<NodeId, Fields>,
                           apiAddrs: map<NodeId, string>)

  /** Admin operations run one after the other, each with its OnChange pass. */
  datatype Event =
    | Admin(c: Inbounds.Command, nodes: seq<NodeStatus>, failing: set<NodeId>)
    | ForcedPush(nodes: seq<NodeStatus>, failing: set<NodeId>)
    | Connects(n: NodeId)
    | Disconnects(n: NodeId)
    | Receives(n: NodeId, applied: bool)

  function ApiAddr(s: System, n: NodeId): string {
    if n in s.apiAddrs then s.apiAddrs[n] else ""
  }

  function Written(s: System, n: NodeId, cfg: Fields): Fields {
    XrayManager.InjectedAt(cfg, ApiAddr(s, n))
  }

  ghost predicate Possible(s: System, e: Event) {
    match e
    case Admin(_, nodes, _) => UniqueIds(nodes)
    case ForcedPush(nodes, _) => UniqueIds(nodes)
    case Receives(n, _) => n in s.queues && s.queues[n] != []
    case _ => true
  }

  function Step(s: System, e: Event): System {
    match e
    case Admin(c, nodes, failing) =>
      var table := Inbounds.Apply(s.table, c);
      if Inbounds.Answer(s.table, c).Ok?
      then s.(table := table, queues := Pushed(table, nodes, s.queues, failing))
      else s
    case ForcedPush(nodes, failing) => s.(queues := Pushed(s.table, nodes, s.queues, failing))
    case Connects(n) => s.(queues := s.queues[n := []])
    case Disconnects(n) => s.(queues := s.queues - {n})
    case Receives(n, applied) =>
      if n in s.queues && s.queues[n] != []
      then s.(queues := s.queues[n := s.queues[n][1..]],
              files := if applied then s.files[n := Written(s, n, s.queues[n][0])] else s.files)
      else s
  }

  /** The pass of this event reaches n. */
  predicate Reaches(s: System, e: Event, n: NodeId) {
    match e
    case Admin(c, nodes, failing) => Inbounds.Answer(s.table, c).Ok? && n in Reached(nodes, s.queues, failing)
    case ForcedPush(nodes, failing) => n in Reached(nodes, s.queues, failing)
    case _ => false
  }

  /** The event leaves n's stream, table and applied configurations alone: it is not an admin operation
      that takes effect, not a stream change of n, not a failed application on n. */
  predicate Harmless(s: System, e: Event, n: NodeId) {
    match e
    case Admin(c, _, _) => Inbounds.Answer(s.table, c).Err?
    case ForcedPush(_, _) => true
    case Connects(m) => m != n
    case Disconnects(m) => m != n
    case Receives(m, applied) => m != n || applied
  }

  /** What is still to come, or else what the file holds, is the configuration of the current table. */
  ghost predicate Converging(s: System, n: NodeId) {
    && n in s.queues
    && (s.queues[n] != [] ==> s.queues[n][|s.queues[n]| - 1] == Inbounds.Build(s.table, n))
    && (s.queues[n] == [] ==> n in s.files && s.files[n] == Written(s, n, Inbounds.Build(s.table, n)))
  }

  lemma ReachedConverges(s: System, e: Event, n: NodeId)
    requires Possible(s, e) && Reaches(s, e, n)
    ensures Converging(Step(s, e), n)
  {
    PushedQueues(Step(s, e).table, e.nodes, s.queues, e.failing);
  }

  /** What is left of the queue, or the file, stands for cfg. */
  ghost predicate StandsFor(queue: seq<Fields>, file: Option<Fields>, cfg: Fields, apiAddr: string) {
    if queue != [] then queue[|queue| - 1] == cfg else file == Some(XrayManager.InjectedAt(cfg, apiAddr))
  }

  function FileOf(s: System, n: NodeId): Option<Fields> {
    if n in s.files then Some(s.files[n]) else None
  }

  lemma ConvergingStandsFor(s: System, n: NodeId)
    ensures Converging(s, n)
       <==> n in s.queues && StandsFor(s.queues[n], FileOf(s, n), Inbounds.Build(s.table, n), ApiAddr(s, n))
  {
  }

  lemma ReceiveStandsFor(queue: seq<Fields>, file: Option<Fields>, cfg: Fields, apiAddr: string)
    requires queue != [] && StandsFor(queue, file, cfg, apiAddr)
    ensures StandsFor(queue[1..], Some(XrayManager.InjectedAt(queue[0], apiAddr)), cfg, apiAddr)
  {
  }

  lemma ReceiveConverges(s: System, n: NodeId)
    requires Converging(s, n) && s.queues[n] != []
    ensures Converging(Step(s, Receives(n, true)), n)
  {
    var s' := Step(s, Receives(n, true));
    ReceiveStandsFor(s.queues[n], FileOf(s, n), Inbounds.Build(s.table, n), ApiAddr(s, n));
    ConvergingStandsFor(s', n);
  }

  lemma ForcedPushConverges(s: System, nodes: seq<NodeStatus>, failing: set<NodeId>, n: NodeId)
    requires UniqueIds(nodes) && Converging(s, n)
    ensures Converging(Step(s, ForcedPush(nodes, failing)), n)
  {
    var s' := Step(s, ForcedPush(nodes, failing));
    PushedQueues(s.table, nodes, s.queues, failing);
    ConvergingStandsFor(s, n);
    ConvergingStandsFor(s', n);
    assert s'.queues[n] == s.queues[n] || s'.queues[n] == s.queues[n] + [Inbounds.Build(s.table, n)];
  }

  /** What convergence of n depends on is the same in both systems. */
  ghost predicate SameFor(s: System, s': System, n: NodeId) {
    && (n in s'.queues <==> n in s.queues) && (n in s.queues ==> s'.queues[n] == s.queues[n])
    && FileOf(s', n) == FileOf(s, n) && s'.table == s.table && s'.apiAddrs == s.apiAddrs
  }

  lemma OtherReceiptSame(s: System, m: NodeId, applied: bool, n: NodeId)
    requires m != n
    ensures SameFor(s, Step(s, Receives(m, applied)), n)
  {
  }

  lemma OtherStreamSame(s: System, m: NodeId, n: NodeId)
    requires m != n
    ensures SameFor(s, Step(s, Connects(m)), n) && SameFor(s, Step(s, Disconnects(m)), n)
  {
  }

  lemma SameConverges(s: System, s': System, n: NodeId)
    requires SameFor(s, s', n) && Converging(s, n)
    ensures Converging(s', n)
  {
    ConvergingStandsFor(s, n);
    ConvergingStandsFor(s', n);
  }

  /** The event leaves n's queue, file and configuration as they are. */
  lemma OtherEventConverges(s: System, e: Event, n: NodeId)
    requires Possible(s, e) && Converging(s, n) && Harmless(s, e, n)
    requires !e.ForcedPush? && !(e.Receives? && e.n == n)
    ensures Converging(Step(s, e), n)
  {
    match e
    case Receives(m, applied) => OtherReceiptSame(s, m, applied, n);
    case Connects(m) => OtherStreamSame(s, m, n);
    case Disconnects(m) => OtherStreamSame(s, m, n);
    case _ =>
    SameConverges(s, Step(s, e), n);
  }

  lemma HarmlessConverges(s: System, e: Event, n: NodeId)
    requires Possible(s, e) && Converging(s, n) && Harmless(s, e, n)
    ensures Converging(Step(s, e), n)
  {
    if e.ForcedPush? {
      ForcedPushConverges(s, e.nodes, e.failing, n);
    } else if e.Receives? && e.n == n {
      ReceiveConverges(s, n);
    } else {
      OtherEventConverges(s, e, n);
    }
  }

  /** Every event that may happen; a run can be cut anywhere. */
  ghost predicate PossibleRun(s: System, es: seq<Event>)
    decreases |es|
  {
    es != [] ==> Possible(s, es[0]) && PossibleRun(Step(s, es[0]), es[1..])
  }

  function Run(s: System, es: seq<Event>): System
    decreases |es|
  {
    if es == [] then s else Run(Step(s, es[0]), es[1..])
  }

  /** n was reached by a pass, and every event after the last one that reached it was harmless. */
  predicate UpToDate(s: System, es: seq<Event>, n: NodeId, before: bool)
    decreases |es|
  {
    if es == [] then before
    else UpToDate(Step(s, es[0]), es[1..], n, Reaches(s, es[0], n) || (before && Harmless(s, es[0], n)))
  }

  lemma {:induction false} UpToDateConverges(s: System, es: seq<Event>, n: NodeId, before: bool)
    requires PossibleRun(s, es) && (before ==> Converging(s, n)) && UpToDate(s, es, n, before)
    ensures Converging(Run(s, es), n)
    decreases |es|
  {
    if es != [] {
      var e := es[0];
      var now := Reaches(s, e, n) || (before && Harmless(s, e, n));
      if Reaches(s, e, n) {
        ReachedConverges(s, e, n);
      } else if now {
        HarmlessConverges(s, e, n);
      }
      UpToDateConverges(Step(s, e), es[1..], n, now);
    }
  }

  /** Convergence. In every run from any starting point, for every node that the last effective change
      reached and whose stream has stayed up since: the last configuration queued for it is the one built
      from the current table, and once the queue is drained the node's file is the injection of that
      configuration, whose inbounds are the stats API followed by the node's enabled inbounds. */
  lemma Convergence(s: System, es: seq<Event>, n: NodeId)
    requires PossibleRun(s, es) && UpToDate(s, es, n, false)
    ensures var s' := Run(s, es);
            && n in s'.queues
            && (s'.queues[n] != [] ==> s'.queues[n][|s'.queues[n]| - 1] == Inbounds.Build(s'.table, n))
            && (s'.queues[n] == [] ==>
                  && n in s'.files && s'.files[n] == Written(s', n, Inbounds.Build(s'.table, n))
                  && XrayManager.InboundsOf(s'.files[n])
                     == [XrayManager.ApiInbound(XrayManager.SplitAddr(ApiAddr(s', n)).0,
                                                XrayManager.SplitAddr(ApiAddr(s', n)).1)]
                        + Inbounds.XrayInbounds(Inbounds.WithoutApi(Inbounds.ForNode(s'.table, n))))
  {
    UpToDateConverges(s, es, n, false);
    var s' := Run(s, es);
    var (host, port) := XrayManager.SplitAddr(ApiAddr(s', n));
    Inbounds.InjectedInboundsOfBuild(s'.table, n, host, port);
  }

  /** Item by item: behind the API inbound, the file of an up-to-date node whose queue is drained holds the
      node's inbounds, each with its settings and the other sections that decode. */
  lemma ConvergedFileItem(s: System, n: NodeId, i: nat)
    requires Converging(s, n) && s.queues[n] == [] && i < |Inbounds.WithoutApi(Inbounds.ForNode(s.table, n))|
    ensures n in s.files && i + 1 < |XrayManager.InboundsOf(s.files[n])|
    ensures var item := XrayManager.InboundsOf(s.files[n])[i + 1];
            var ib := Inbounds.WithoutApi(Inbounds.ForNode(s.table, n))[i];
            && item.Obj? && var f := item.fields;
            && "tag" in f && f["tag"] == Str(ib.tag)
            && "port" in f && f["port"] == Num(ib.port as real)
            && "protocol" in f && f["protocol"] == Str(ib.protocol)
            && (ib.settings.json.Some? ==> "settings" in f && f["settings"] == ib.settings.json.value)
            && (ib.stream.raw != "" && ib.stream.raw != "{}" && ib.stream.json.Some? ==>
                  "streamSettings" in f && f["streamSettings"] == ib.stream.json.value)
            && (ib.sniffing.raw != "" && ib.sniffing.raw != "{}" && ib.sniffing.json.Some? ==>
                  "sniffing" in f && f["sniffing"] == ib.sniffing.json.value)
  {
    var (host, port) := XrayManager.SplitAddr(ApiAddr(s, n));
    Inbounds.InjectedInboundsOfBuild(s.table, n, host, port);
    Inbounds.DeployedItem(s.table, n, i);
    var ib := Inbounds.WithoutApi(Inbounds.ForNode(s.table, n))[i];
    Inbounds.XraySections(ib);
    Inbounds.XrayInboundKeepsFields(ib);
  }

  // ---------- draining ----------

  function Drain(n: NodeId, k: nat): seq<Event> {
    if k == 0 then [] else [Receives(n, true)] + Drain(n, k - 1)
  }

  lemma ReceivedFacts(s: System, n: NodeId)
    requires n in s.queues && s.queues[n] != []
    ensures var s' := Step(s, Receives(n, true));
            && n in s'.queues && s'.queues[n] == s.queues[n][1..] && s'.table == s.table && s'.apiAddrs == s.apiAddrs
  {
  }

  lemma EmptyQueueConverging(s: System, n: NodeId)
    requires n in s.queues && s.queues[n] == []
    ensures Converging(s, n) <==> FileOf(s, n) == Some(Written(s, n, Inbounds.Build(s.table, n)))
  {
  }

  lemma DrainUnfolded(s: System, n: NodeId, k: nat)
    requires k > 0 && Possible(s, Receives(n, true))
    ensures var s' := Step(s, Receives(n, true));
            && (PossibleRun(s', Drain(n, k - 1)) ==> PossibleRun(s, Drain(n, k)))
            && Run(s, Drain(n, k)) == Run(s', Drain(n, k - 1))
  {
    assert Drain(n, k)[1..] == Drain(n, k - 1);
  }

  /** Receiving everything queued, with every application succeeding, is possible and empties the queue,
      so an up-to-date node always gets there. */
  lemma {:induction false} DrainReaches(s: System, n: NodeId)
    requires Converging(s, n)
    ensures var es := Drain(n, |s.queues[n]|);
            && PossibleRun(s, es)
            && FileOf(Run(s, es), n) == Some(Written(s, n, Inbounds.Build(s.table, n)))
            && Run(s, es).table == s.table
    decreases |s.queues[n]|
  {
    if s.queues[n] == [] {
      EmptyQueueConverging(s, n);
    } else {
      ReceiveConverges(s, n);
      ReceivedFacts(s, n);
      DrainReaches(Step(s, Receives(n, true)), n);
      DrainUnfolded(s, n, |s.queues[n]|);
    }
  }

  // ---------- stale files ----------

  /** The tables behind the configurations queued for a node (None without stream), and the table behind
      the last one its Xray took (None while that is unknown). */
  datatype Origin = Origin(pending: Option<seq<Inbounds.State>>, applied: Option<Inbounds.State>)

  const Unknown := Origin(None, None)

  /** How one event moves them. */
  function Traced(s: System, e: Event, n: NodeId, o: Origin): Origin {
    match e
    case Connects(m) => if m == n then o.(pending := Some([])) else o
    case Disconnects(m) => if m == n then o.(pending := None) else o
    case Receives(m, applied) =>
      if m == n && o.pending.Some? && o.pending.value != []
      then Origin(Some(o.pending.value[1..]), if applied then Some(o.pending.value[0]) else o.applied)
      else o
    case _ =>
      if Reaches(s, e, n) && o.pending.Some? then o.(pending := Some(o.pending.value + [Step(s, e).table])) else o
  }

  function TracedAll(s: System, es: seq<Event>, n: NodeId, o: Origin): Origin
    decreases |es|
  {
    if es == [] then o else TracedAll(Step(s, es[0]), es[1..], n, Traced(s, es[0], n, o))
  }

  function Builds(tables: seq<Inbounds.State>, n: NodeId): (r: seq<Fields>)
    ensures |r| == |tables| && forall i | 0 <= i < |r| :: r[i] == Inbounds.Build(tables[i], n)
  {
    seq(|tables|, i requires 0 <= i < |tables| => Inbounds.Build(tables[i], n))
  }

  /** Queue and file are what the tables say. */
  ghost predicate Explains(s: System, n: NodeId, o: Origin) {
    && (n in s.queues <==> o.pending.Some?)
    && (o.pending.Some? ==> s.queues[n] == Builds(o.pending.value, n))
    && (o.applied.Some? ==> FileOf(s, n) == Some(Written(s, n, Inbounds.Build(o.applied.value, n))))
  }

  lemma PassQueues(s: System, e: Event, n: NodeId)
    requires Possible(s, e) && (e.Admin? || e.ForcedPush?)
    ensures var s' := Step(s, e);
            && s'.files == s.files && s'.apiAddrs == s.apiAddrs && s'.queues.Keys == s.queues.Keys
            && (n in s.queues ==>
                  s'.queues[n] == if Reaches(s, e, n) then s.queues[n] + [Inbounds.Build(s'.table, n)] else s.queues[n])
            && (Reaches(s, e, n) ==> n in s.queues)
  {
    PushedQueues(Step(s, e).table, e.nodes, s.queues, e.failing);
  }

  lemma BuildsAppend(tables: seq<Inbounds.State>, t: Inbounds.State, n: NodeId)
    ensures Builds(tables + [t], n) == Builds(tables, n) + [Inbounds.Build(t, n)]
  {
  }

  lemma PassExplained(s: System, e: Event, n: NodeId, o: Origin)
    requires Possible(s, e) && Explains(s, n, o) && (e.Admin? || e.ForcedPush?)
    ensures Explains(Step(s, e), n, Traced(s, e, n, o))
  {
    PassQueues(s, e, n);
    if n in s.queues {
      BuildsAppend(o.pending.value, Step(s, e).table, n);
    }
  }

  lemma ReceiptExplained(s: System, n: NodeId, applied: bool, o: Origin)
    requires Explains(s, n, o) && n in s.queues && s.queues[n] != []
    ensures Explains(Step(s, Receives(n, applied)), n, Traced(s, Receives(n, applied), n, o))
  {
    assert Builds(o.pending.value[1..], n) == Builds(o.pending.value, n)[1..];
  }

  lemma StreamEventExplained(s: System, e: Event, n: NodeId, o: Origin)
    requires Possible(s, e) && Explains(s, n, o)
    requires e.Connects? || e.Disconnects? || (e.Receives? && e.n != n)
    ensures Explains(Step(s, e), n, Traced(s, e, n, o))
  {
    assert Builds([], n) == [];
  }

  lemma {:induction false} RunExplained(s: System, es: seq<Event>, n: NodeId, o: Origin)
    requires PossibleRun(s, es) && Explains(s, n, o)
    ensures Explains(Run(s, es), n, TracedAll(s, es, n, o))
    ensures Run(s, es).apiAddrs == s.apiAddrs
    decreases |es|
  {
    if es != [] {
      var e := es[0];
      if e.Admin? || e.ForcedPush? {
        PassExplained(s, e, n, o);
      } else if e.Receives? && e.n == n {
        ReceiptExplained(s, n, e.applied, o);
      } else {
        StreamEventExplained(s, e, n, o);
      }
      RunExplained(Step(s, e), es[1..], n, Traced(s, e, n, o));
    }
  }

  lemma WrittenAlikeIff(s: System, n: NodeId, t: Inbounds.State, t': Inbounds.State)
    ensures Written(s, n, Inbounds.Build(t, n)) == Written(s, n, Inbounds.Build(t', n))
       <==> Inbounds.Deployed(t, n) == Inbounds.Deployed(t', n)
  {
    var (host, port) := XrayManager.SplitAddr(ApiAddr(s, n));
    Inbounds.InjectedAlikeIff(t, t', n, host, port);
  }

  /** In every run, a file is the injection of the configuration of the table at the last pass the node has
      applied. It is up to date if and only if the node is to run the same inbounds under that table and
      the present one. */
  lemma FileCurrentIff(s: System, es: seq<Event>, n: NodeId)
    requires PossibleRun(s, es) && n !in s.queues && TracedAll(s, es, n, Unknown).applied.Some?
    ensures var s', at := Run(s, es), TracedAll(s, es, n, Unknown).applied.value;
            && FileOf(s', n) == Some(Written(s', n, Inbounds.Build(at, n)))
            && (FileOf(s', n) == Some(Written(s', n, Inbounds.Build(s'.table, n)))
                <==> Inbounds.Deployed(at, n) == Inbounds.Deployed(s'.table, n))
  {
    RunExplained(s, es, n, Unknown);
    ExplainedFileIff(Run(s, es), n, TracedAll(s, es, n, Unknown));
  }

  lemma ExplainedFileIff(s: System, n: NodeId, o: Origin)
    requires Explains(s, n, o) && o.applied.Some?
    ensures FileOf(s, n) == Some(Written(s, n, Inbounds.Build(o.applied.value, n)))
    ensures FileOf(s, n) == Some(Written(s, n, Inbounds.Build(s.table, n)))
       <==> Inbounds.Deployed(o.applied.value, n) == Inbounds.Deployed(s.table, n)
  {
    WrittenAlikeIff(s, n, o.applied.value, s.table);
  }

  /** Connecting does not push. After any run, a node that connects has its file up to date if and only if
      the inbounds it is to run are those of the table at the last pass it applied, however many changes
      came while it was away. */
  lemma ReconnectKeepsStaleFile(s: System, es: seq<Event>, n: NodeId)
    requires PossibleRun(s, es) && n !in s.queues && TracedAll(s, es, n, Unknown).applied.Some?
    ensures var s', at := Step(Run(s, es), Connects(n)), TracedAll(s, es, n, Unknown).applied.value;
            && s'.queues[n] == [] && s'.files == Run(s, es).files
            && (Converging(s', n) <==> Inbounds.Deployed(at, n) == Inbounds.Deployed(s'.table, n))
  {
    FileCurrentIff(s, es, n);
    ConnectedAgain(Run(s, es), n);
    EmptyQueueConverging(Step(Run(s, es), Connects(n)), n);
  }

  lemma {:induction false} RunSnoc(s: System, es: seq<Event>, e: Event)
    requires PossibleRun(s, es) && Possible(Run(s, es), e)
    ensures PossibleRun(s, es + [e]) && Run(s, es + [e]) == Step(Run(s, es), e)
    decreases |es|
  {
    if es == [] {
      assert (es + [e])[1..] == [];
    } else {
      assert (es + [e])[1..] == es[1..] + [e];
      RunSnoc(Step(s, es[0]), es[1..], e);
    }
  }

  lemma PushedOne(table: Inbounds.State, info: NodeStatus, queues: Queues)
    ensures Pushed(table, [info], queues, {})
         == if info.online && info.id in queues then Sent(queues, info.id, Inbounds.Build(table, info.id)) else queues
  {
    var nodes := [info];
    assert nodes[..|nodes| - 1] == [];
    assert Pushed(table, nodes[..|nodes| - 1], queues, {}) == queues;
  }

  /** The node connects, takes what a forced push sends, and is gone again. */
  function OneVisit(n: NodeId): seq<Event> {
    PushVisit(n) + [Receives(n, true)] + [Disconnects(n)]
  }

  function PushVisit(n: NodeId): seq<Event> {
    [Connects(n)] + [ForcedPush([NodeStatus(n, true)], {})]
  }

  /** The system with another queue and file for n. */
  function With(s: System, n: NodeId, queue: seq<Fields>, file: Option<Fields>): System {
    s.(queues := s.queues[n := queue], files := if file.Some? then s.files[n := file.value] else s.files)
  }

  lemma ForcedPushOne(s: System, n: NodeId)
    ensures Step(With(s, n, [], None), ForcedPush([NodeStatus(n, true)], {}))
         == With(s, n, [Inbounds.Build(s.table, n)], None)
  {
    var q, cfg := s.queues[n := []], Inbounds.Build(s.table, n);
    PushedOne(s.table, NodeStatus(n, true), q);
    assert [] + [cfg] == [cfg];
    assert q[n := [cfg]] == s.queues[n := [cfg]];
  }

  lemma ReceiveOne(s: System, n: NodeId, cfg: Fields)
    ensures Step(With(s, n, [cfg], None), Receives(n, true)) == With(s, n, [], Some(Written(s, n, cfg)))
  {
    assert s.queues[n := [cfg]][n := []] == s.queues[n := []];
  }

  lemma LeaveOne(s: System, n: NodeId, file: Fields)
    requires n !in s.queues
    ensures Step(With(s, n, [], Some(file)), Disconnects(n)) == s.(files := s.files[n := file])
  {
    assert s.queues[n := []] - {n} == s.queues;
  }

  lemma PushVisitQueues(s: System, n: NodeId)
    requires n !in s.queues
    ensures PossibleRun(s, PushVisit(n)) && Run(s, PushVisit(n)) == With(s, n, [Inbounds.Build(s.table, n)], None)
  {
    RunSnoc(s, [], Connects(n));
    assert [] + [Connects(n)] == [Connects(n)];
    ForcedPushOne(s, n);
    RunSnoc(s, [Connects(n)], ForcedPush([NodeStatus(n, true)], {}));
  }

  lemma VisitWritesFile(s: System, n: NodeId)
    requires n !in s.queues
    ensures PossibleRun(s, OneVisit(n))
    ensures Run(s, OneVisit(n)) == s.(files := s.files[n := Written(s, n, Inbounds.Build(s.table, n))])
  {
    var cfg := Inbounds.Build(s.table, n);
    PushVisitQueues(s, n);
    assert Possible(With(s, n, [cfg], None), Receives(n, true));
    RunSnoc(s, PushVisit(n), Receives(n, true));
    ReceiveOne(s, n, cfg);
    RunSnoc(s, PushVisit(n) + [Receives(n, true)], Disconnects(n));
    LeaveOne(s, n, Written(s, n, cfg));
  }

  lemma OfflinePass(s: System, n: NodeId, c: Inbounds.Command)
    requires Inbounds.Answer(s.table, c).Ok?
    ensures Step(s, Admin(c, [NodeStatus(n, false)], {})) == s.(table := Inbounds.Apply(s.table, c))
  {
    PushedOne(Inbounds.Apply(s.table, c), NodeStatus(n, false), s.queues);
  }

  lemma CreatedIsDeployed(ib: Inbounds.Inbound, n: NodeId)
    requires Inbounds.Validated(ib) == Ok(ib) && ib.enable && ib.tag != "api" && Inbounds.Targets(ib, n)
    ensures Inbounds.Answer(Inbounds.Empty, Inbounds.Create(ib)).Ok?
    ensures Inbounds.Deployed(Inbounds.Empty, n) == []
    ensures Inbounds.Deployed(Inbounds.Apply(Inbounds.Empty, Inbounds.Create(ib)), n) != []
  {
    var made := ib.(id := 1);
    var row := Inbounds.Row(made, false);
    assert [] + [row] == [row];
    assert Inbounds.Apply(Inbounds.Empty, Inbounds.Create(ib)) == Inbounds.State([row], 2);
    Inbounds.ForNodeOfOne(made, 2, n);
    Inbounds.WithoutApiOfOne(made);
    Inbounds.XrayInboundsLength([made]);
  }

  /** A stale file, reached: the node takes the configuration of the empty table and is away while an
      inbound for it is created. Connected again, it has a file that is not up to date, and nothing is on
      its way. */
  lemma StaleFileReached(s: System, n: NodeId, ib: Inbounds.Inbound)
    requires s.table == Inbounds.Empty && n !in s.queues
    requires Inbounds.Validated(ib) == Ok(ib) && ib.enable && ib.tag != "api" && Inbounds.Targets(ib, n)
    ensures var es := OneVisit(n) + [Admin(Inbounds.Create(ib), [NodeStatus(n, false)], {})] + [Connects(n)];
            PossibleRun(s, es) && n in Run(s, es).queues && Run(s, es).queues[n] == [] && !Converging(Run(s, es), n)
  {
    var create := Admin(Inbounds.Create(ib), [NodeStatus(n, false)], {});
    VisitWritesFile(s, n);
    CreatedIsDeployed(ib, n);
    var s1 := Run(s, OneVisit(n));
    OfflinePass(s1, n, Inbounds.Create(ib));
    RunSnoc(s, OneVisit(n), create);
    var s2 := s1.(table := Inbounds.Apply(Inbounds.Empty, Inbounds.Create(ib)));
    RunSnoc(s, OneVisit(n) + [create], Connects(n));
    NewTableIsStale(s, s2, n);
  }

  lemma ConnectedAgain(s: System, n: NodeId)
    ensures var s' := Step(s, Connects(n));
            s'.queues == s.queues[n := []] && s'.files == s.files && s'.table == s.table && s'.apiAddrs == s.apiAddrs
  {
  }

  lemma NewTableIsStale(s: System, s2: System, n: NodeId)
    requires Inbounds.Deployed(s.table, n) != Inbounds.Deployed(s2.table, n)
    requires s2.apiAddrs == s.apiAddrs && FileOf(s2, n) == Some(Written(s, n, Inbounds.Build(s.table, n)))
    ensures !Converging(Step(s2, Connects(n)), n)
  {
    WrittenAlikeIff(s, n, s.table, s2.table);
    ConnectedAgain(s2, n);
    EmptyQueueConverging(Step(s2, Connects(n)), n);
  }
}
