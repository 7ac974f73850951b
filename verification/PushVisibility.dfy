/** Which connected nodes a configuration pass reaches: the pass goes by the status shown, not by the
    streams. */
module PushVisibility {
  import opened NodeService
  import opened NodeProtocol
  import opened NodePresence
  import opened NodeVisibility
  import ConfigPush

  /** The list a pass works through. */
  function Statuses(list: seq<NodeInfo>): (r: seq<ConfigPush.NodeStatus>)
    ensures |r| == |list|
    ensures forall i | 0 <= i < |r| :: r[i] == ConfigPush.NodeStatus(list[i].id, list[i].row.status == Online)
  {
    seq(|list|, i requires 0 <= i < |list| => ConfigPush.NodeStatus(list[i].id, list[i].row.status == Online))
  }

  ghost predicate CreatedOnce(s: System, created: seq<NodeId>) {
    && (forall id :: id in s.panel.rows <==> id in created)
    && forall i, j | 0 <= i < j < |created| :: created[i] != created[j]
  }

  /** A pass reaches a node if and only if the node has a stream, is not deleted, is not connected and shown
      offline, and nothing fails for it. */
  lemma PassReachesIff(s: System, created: seq<NodeId>, queues: ConfigPush.Queues, failing: set<NodeId>, id: NodeId)
    requires CreatedOnce(s, created) && queues.Keys == s.panel.streams.Keys
    ensures var nodes := Statuses(Listing(s.panel.rows, created, s.panel.snapshots));
            && ConfigPush.UniqueIds(nodes)
            && (id in ConfigPush.Reached(nodes, queues, failing)
                <==> id in s.panel.streams && Live(s.panel.rows, id) && !Dark(s, id) && id !in failing)
  {
    var list := Listing(s.panel.rows, created, s.panel.snapshots);
    var nodes := Statuses(list);
    ListingFacts(s.panel.rows, created, s.panel.snapshots);
    if Live(s.panel.rows, id) {
      var info :| info in list && info.id == id;
      var i :| 0 <= i < |list| && list[i] == info;
      assert nodes[i] in nodes;
    }
    forall status | status in nodes && status.id == id
      ensures Live(s.panel.rows, id) && (status.online <==> ShownOnline(s, id))
    {
      var i :| 0 <= i < |nodes| && nodes[i] == status;
      assert list[i] in list;
    }
  }
}
