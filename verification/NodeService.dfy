/** Nodes on the panel (panel/panel-backend/internal/node: model.go, repository.go, service.go): the node
    table with soft deletion, rotating reconnect secrets, and the snapshots kept in memory. */
module NodeService {
  import opened Prelude

  type NodeId = string
  type Secret = string
  type Time = int

  /** The metrics of a status report. */
  type Snapshot = string

  datatype Status = Online | Offline

  datatype HostInfo = HostInfo(hostname: string, os: string, arch: string, version: string, publicIp: string,
                               remoteAddr: string)

  datatype Row = Row(secret: Secret, status: Status, info: HostInfo, connectedAt: Time, lastSeenAt: Time, deleted: bool)

  /** Soft-deleted rows stay in the table and are invisible to every query. */
  type Table = map<NodeId, Row>

  datatype NodeInfo = NodeInfo(id: NodeId, row: Row, snapshot: Option<Snapshot>)

  datatype NodeError = InvalidSecret | StorageError

  predicate Live(rows: Table, id: NodeId) {
    id in rows && !rows[id].deleted
  }

  predicate Holds(rows: Table, id: NodeId, secret: Secret) {
    Live(rows, id) && rows[id].secret == secret
  }

  ghost predicate LiveSecretsDistinct(rows: Table) {
    forall i, j | Live(rows, i) && Live(rows, j) && rows[i].secret == rows[j].secret :: i == j
  }

  // ---------- specification of the table operations ----------

  function Registered(rows: Table, id: NodeId, secret: Secret, info: HostInfo, now: Time): Table {
    rows[id := Row(secret, Online, info, now, now, false)]
  }

  function Reconnected(rows: Table, id: NodeId, secret: Secret, info: HostInfo, now: Time): Table
    requires Live(rows, id)
  {
    rows[id := Row(secret, Online, info, now, now, false)]
  }

  function SeenOnline(rows: Table, id: NodeId, now: Time): Table {
    if Live(rows, id) then rows[id := rows[id].(status := Online, lastSeenAt := now)] else rows
  }

  function WithStatus(rows: Table, id: NodeId, status: Status): Table {
    if Live(rows, id) then rows[id := rows[id].(status := status)] else rows
  }

  function AllOffline(rows: Table): Table {
    map id | id in rows :: if rows[id].deleted then rows[id] else rows[id].(status := Offline)
  }

  function Deleted(rows: Table, id: NodeId): Table {
    if Live(rows, id) then rows[id := rows[id].(deleted := true)] else rows
  }

  /** What the environment contributes to one handshake: fresh values, the host's data, the clock, and
      whether the database takes the row. */
  datatype Grant = Grant(newId: NodeId, newSecret: Secret, info: HostInfo, now: Time, stored: bool)

  ghost function FindBySecret(rows: Table, secret: Secret): (r: Option<NodeId>)
    ensures r.Some? ==> Holds(rows, r.value, secret)
    ensures r.None? ==> forall i :: !Holds(rows, i, secret)
  {
    if exists i :: Holds(rows, i, secret) then var i :| Holds(rows, i, secret); Some(i) else None
  }

  /** The node a handshake carrying a secret (or none) is admitted as. */
  ghost function Admitted(rows: Table, sent: Secret, g: Grant): Result<NodeId, NodeError> {
    if sent != "" then
      match FindBySecret(rows, sent)
      case None => Err(InvalidSecret)
      case Some(id) => if g.stored then Ok(id) else Err(StorageError)
    else if g.stored && g.newId !in rows then Ok(g.newId)
    else Err(StorageError)
  }

  /** Registering and reconnecting leave the same kind of row behind. */
  ghost function AfterHandshake(rows: Table, sent: Secret, g: Grant): Table {
    var r := Admitted(rows, sent, g);
    if r.Ok? then rows[r.value := Row(g.newSecret, Online, g.info, g.now, g.now, false)] else rows
  }

  // ---------- the service ----------

  class Service {
    var rows: Table
    /** Node ids in creation order. */
    var created: seq<NodeId>
    var snapshots: map<NodeId, Snapshot>

    ghost predicate Valid()
      reads this
    {
      && LiveSecretsDistinct(rows)
      && (forall id :: id in rows <==> id in created)
      && forall i, j | 0 <= i < j < |created| :: created[i] != created[j]
    }

    /** A panel start: every node is offline until it reconnects. */
    constructor NewService(rows: Table, created: seq<NodeId>)
      requires LiveSecretsDistinct(rows)
      requires forall id :: id in rows <==> id in created
      requires forall i, j | 0 <= i < j < |created| :: created[i] != created[j]
      ensures Valid() && this.rows == AllOffline(rows) && snapshots == map[] && this.created == created
      ensures this.rows.Keys == rows.Keys
      ensures forall id | id in rows ::
                && (rows[id].deleted ==> this.rows[id] == rows[id])
                && (!rows[id].deleted ==> this.rows[id] == rows[id].(status := Offline))
    {
      this.rows := AllOffline(rows);
      this.created := created;
      snapshots := map[];
    }

    method GetByReconnectSecret(secret: Secret) returns (id: Option<NodeId>)
      ensures id.Some? ==> Holds(rows, id.value, secret)
      ensures id.None? ==> forall i :: !Holds(rows, i, secret)
    {
      var todo := rows.Keys;
      while todo != {}
        invariant todo <= rows.Keys
        invariant forall i | Holds(rows, i, secret) :: i in todo
        decreases todo
      {
        var i :| i in todo;
        if Holds(rows, i, secret) {
          return Some(i);
        }
        todo := todo - {i};
      }
      return None;
    }

    /** `stored` tells whether the database takes the row; a node id in use is refused by it. */
    method Register(newId: NodeId, newSecret: Secret, info: HostInfo, now: Time, stored: bool)
      returns (r: Result<(NodeId, Secret), NodeError>)
      requires Valid()
      requires forall i :: !Holds(rows, i, newSecret)
      modifies this
      ensures Valid() && snapshots == old(snapshots)
      ensures r == if stored && newId !in old(rows) then Ok((newId, newSecret)) else Err(StorageError)
      ensures rows == if r.Ok? then Registered(old(rows), newId, newSecret, info, now) else old(rows)
      ensures created == if r.Ok? then old(created) + [newId] else old(created)
      ensures r.Ok? ==> rows == old(rows)[newId := Row(newSecret, Online, info, now, now, false)]
    {
      if !stored || newId in rows {
        return Err(StorageError);
      }
      NewSecretStaysDistinct(rows, newId, Row(newSecret, Online, info, now, now, false));
      rows := Registered(rows, newId, newSecret, info, now);
      created := created + [newId];
      return Ok((newId, newSecret));
    }

    /** The lookup and the save are taken as one step. */
    method Reconnect(secret: Secret, newSecret: Secret, info: HostInfo, now: Time, stored: bool)
      returns (r: Result<(NodeId, Secret), NodeError>)
      requires Valid()
      requires forall i :: !Holds(rows, i, newSecret)
      modifies this
      ensures Valid() && snapshots == old(snapshots) && created == old(created)
      ensures r == Err(InvalidSecret) <==> forall i :: !old(Holds(rows, i, secret))
      ensures forall i | old(Holds(rows, i, secret)) :: r == if stored then Ok((i, newSecret)) else Err(StorageError)
      ensures r.Ok? ==>
                old(Holds(rows, r.value.0, secret)) && rows == Reconnected(old(rows), r.value.0, newSecret, info, now)
      ensures r.Ok? ==> rows == old(rows)[r.value.0 := Row(newSecret, Online, info, now, now, false)]
      ensures r.Err? ==> rows == old(rows)
    {
      var n := GetByReconnectSecret(secret);
      if n.None? {
        return Err(InvalidSecret);
      }
      if !stored {
        return Err(StorageError);
      }
      NewSecretStaysDistinct(rows, n.value, Row(newSecret, Online, info, now, now, false));
      rows := Reconnected(rows, n.value, newSecret, info, now);
      return Ok((n.value, newSecret));
    }

    method MarkOnline(id: NodeId, now: Time)
      requires Valid()
      modifies `rows
      ensures Valid() && rows == SeenOnline(old(rows), id, now)
      ensures id !in old(rows) ==> rows == old(rows)
      ensures id in old(rows) ==>
                var was := old(rows)[id];
                rows == old(rows)[id := if was.deleted then was else was.(status := Online, lastSeenAt := now)]
    {
      if Live(rows, id) {
        rows := rows[id := rows[id].(status := Online, lastSeenAt := now)];
      }
    }

    method MarkOffline(id: NodeId)
      requires Valid()
      modifies `rows, `snapshots
      ensures Valid() && rows == WithStatus(old(rows), id, Offline) && snapshots == old(snapshots) - {id}
      ensures id !in old(rows) ==> rows == old(rows)
      ensures id in old(rows) ==>
                var was := old(rows)[id];
                rows == old(rows)[id := if was.deleted then was else was.(status := Offline)]
    {
      if Live(rows, id) {
        rows := rows[id := rows[id].(status := Offline)];
      }
      snapshots := snapshots - {id};
    }

    method UpdateSnapshot(id: NodeId, snap: Snapshot)
      modifies `snapshots
      ensures snapshots == old(snapshots)[id := snap]
    {
      snapshots := snapshots[id := snap];
    }

    method Delete(id: NodeId)
      requires Valid()
      modifies `rows, `snapshots
      ensures Valid() && rows == Deleted(old(rows), id) && snapshots == old(snapshots) - {id}
      ensures id !in old(rows) ==> rows == old(rows)
      ensures id in old(rows) ==> rows == old(rows)[id := old(rows)[id].(deleted := true)]
    {
      snapshots := snapshots - {id};
      if Live(rows, id) {
        rows := rows[id := rows[id].(deleted := true)];
      }
    }

    method List() returns (result: seq<NodeInfo>)
      ensures result == Listing(rows, created, snapshots)
    {
      result := [];
      var k := |created|;
      assert created[..k] == created;
      while k > 0
        invariant 0 <= k <= |created|
        invariant result + Listing(rows, created[..k], snapshots) == Listing(rows, created, snapshots)
      {
        k := k - 1;
        assert created[..k + 1][..k] == created[..k];
        var id := created[k];
        if Live(rows, id) {
          var info := NodeInfo(id, rows[id], if id in snapshots then Some(snapshots[id]) else None);
          ghost var rest := Listing(rows, created[..k], snapshots);
          assert result + ([info] + rest) == result + [info] + rest;
          result := result + [info];
        }
      }
    }
  }

  /** The answer of `List`, newest node first. */
  function Listing(rows: Table, created: seq<NodeId>, snapshots: map<NodeId, Snapshot>): seq<NodeInfo> {
    if created == [] then []
    else
      var n := |created| - 1;
      var id := created[n];
      (if Live(rows, id) then [NodeInfo(id, rows[id], if id in snapshots then Some(snapshots[id]) else None)] else [])
      + Listing(rows, created[..n], snapshots)
  }

  /** Every live node is listed exactly once, and nothing else. */
  lemma {:induction false} ListingFacts(rows: Table, created: seq<NodeId>, snapshots: map<NodeId, Snapshot>)
    requires forall i, j | 0 <= i < j < |created| :: created[i] != created[j]
    ensures var l := Listing(rows, created, snapshots);
            && (forall info | info in l :: info.id in created && Live(rows, info.id) && info.row == rows[info.id]
                 && info.snapshot == (if info.id in snapshots then Some(snapshots[info.id]) else None))
            && (forall id | id in created && Live(rows, id) :: exists info :: info in l && info.id == id)
            && (forall i, j | 0 <= i < j < |l| :: l[i].id != l[j].id)
  {
    if created != [] {
      var n := |created| - 1;
      ListingFacts(rows, created[..n], snapshots);
      var rest := Listing(rows, created[..n], snapshots);
      assert created == created[..n] + [created[n]];
      assert created[n] !in created[..n];
      forall i | 0 <= i < |rest|
        ensures rest[i].id != created[n]
      {
        assert rest[i] in rest;
      }
      if Live(rows, created[n]) {
        var l := Listing(rows, created, snapshots);
        assert l[0].id == created[n] && l[0] in l;
        assert forall info | info in rest :: info in l;
      }
    }
  }

  /** Newer nodes are listed before older ones. */
  lemma {:induction false} ListingOrder(rows: Table, created: seq<NodeId>, snapshots: map<NodeId, Snapshot>, i: nat,
                                        j: nat)
    returns (p: nat, q: nat)
    requires i < j < |Listing(rows, created, snapshots)|
    ensures q < p < |created|
    ensures created[p] == Listing(rows, created, snapshots)[i].id
    ensures created[q] == Listing(rows, created, snapshots)[j].id
  {
    var n := |created| - 1;
    var rest := Listing(rows, created[..n], snapshots);
    if !Live(rows, created[n]) {
      p, q := ListingOrder(rows, created[..n], snapshots, i, j);
    } else if i > 0 {
      p, q := ListingOrder(rows, created[..n], snapshots, i - 1, j - 1);
    } else {
      p := n;
      q := ListedPosition(rows, created[..n], snapshots, j - 1);
    }
  }

  lemma {:induction false} ListedPosition(rows: Table, created: seq<NodeId>, snapshots: map<NodeId, Snapshot>, i: nat)
    returns (p: nat)
    requires i < |Listing(rows, created, snapshots)|
    ensures p < |created| && created[p] == Listing(rows, created, snapshots)[i].id
  {
    var n := |created| - 1;
    if !Live(rows, created[n]) {
      p := ListedPosition(rows, created[..n], snapshots, i);
    } else if i > 0 {
      p := ListedPosition(rows, created[..n], snapshots, i - 1);
    } else {
      p := n;
    }
  }

  lemma NewSecretStaysDistinct(rows: Table, id: NodeId, row: Row)
    requires LiveSecretsDistinct(rows) && forall i :: !Holds(rows, i, row.secret)
    ensures LiveSecretsDistinct(rows[id := row])
  {
    var after := rows[id := row];
    forall i, j | Live(after, i) && Live(after, j) && after[i].secret == after[j].secret
      ensures i == j
    {
      assert i != id ==> !Holds(rows, i, row.secret);
      assert j != id ==> !Holds(rows, j, row.secret);
    }
  }
}
