/** The panel's inbounds (panel/panel-backend/internal/inbound: model.go, repository.go, service.go):
    CRUD on a table with soft deletion, and the Xray configuration built from it for a node. */
module Inbounds {
  import opened Prelude
  import opened Json
  import Decimal
  import opened XrayManager

  type NodeId = string

  /** A text column holding JSON: the raw text and what it decodes to, None when it is malformed. */
  datatype Text = Text(raw: string, json: Option<Json>)

  /** `nodeIds` is what the node_ids column decodes to. */
  datatype Inbound = Inbound(id: nat, remark: string, enable: bool, protocol: string, listen: string, port: int,
                             settings: Text, stream: Text, sniffing: Text, tag: string, nodeIds: seq<NodeId>)

  datatype Row = Row(ib: Inbound, deleted: bool)

  /** Rows are in creation order; deletion only marks them. */
  datatype State = State(rows: seq<Row>, nextId: nat)

  datatype ServiceError = RemarkRequired | BadPort | UnsupportedProtocol | SettingsRequired
                        | TagTaken | StorageError | NotFound

  // ---------- the model ----------

  const Protocols := {"vless", "vmess", "trojan", "shadowsocks"}

  function DefaultTag(ib: Inbound): string
    requires ib.port >= 0
  {
    "inbound-" + ib.protocol + "-" + Decimal.Print(ib.port)
  }

  /** `Validate`, which fills in a missing tag on the way. */
  function Validated(ib: Inbound): (r: Result<Inbound, ServiceError>)
    ensures r.Ok? ==> r.value.tag != "" && r.value.id == ib.id && r.value == ib.(tag := r.value.tag)
    ensures r.Ok? <==> ib.remark != "" && 1 <= ib.port <= 65535 && ib.protocol in Protocols && ib.settings.raw != ""
    ensures r.Ok? && ib.tag != "" ==> r.value == ib
    ensures r.Ok? && ib.tag == "" ==> r.value.tag == "inbound-" + ib.protocol + "-" + Decimal.Print(ib.port)
    ensures r.Ok? ==> ib.protocol in ["vless", "vmess", "trojan", "shadowsocks"]
    ensures ib.remark == "" ==> r == Err(RemarkRequired)
    ensures ib.remark != "" && !(1 <= ib.port <= 65535) ==> r == Err(BadPort)
    ensures ib.remark != "" && 1 <= ib.port <= 65535 ==>
              (r == Err(UnsupportedProtocol) <==> ib.protocol !in ["vless", "vmess", "trojan", "shadowsocks"])
  {
    if ib.remark == "" then Err(RemarkRequired)
    else if ib.port < 1 || ib.port > 65535 then Err(BadPort)
    else if ib.protocol !in Protocols then Err(UnsupportedProtocol)
    else
      var tagged := if ib.tag == "" then ib.(tag := DefaultTag(ib)) else ib;
      if tagged.settings.raw == "" then Err(SettingsRequired) else Ok(tagged)
  }

  /** An optional section is written when its text is neither empty nor "{}" and decodes. */
  predicate SectionWritten(t: Text) {
    t.raw != "" && t.raw != "{}" && t.json.Some?
  }

  function WithSection(obj: Fields, key: string, written: bool, t: Text): Fields {
    if written && t.json.Some? then obj[key := t.json.value] else obj
  }

  function XrayFields(ib: Inbound): Fields {
    var base: Fields := map["listen" := Str(if ib.listen == "" then "0.0.0.0" else ib.listen),
                            "port" := Num(ib.port as real),
                            "protocol" := Str(ib.protocol), "tag" := Str(ib.tag)];
    WithSection(WithSection(WithSection(base, "settings", true, ib.settings),
                            "streamSettings", SectionWritten(ib.stream), ib.stream),
                "sniffing", SectionWritten(ib.sniffing), ib.sniffing)
  }

  function XrayInbound(ib: Inbound): Json {
    Obj(XrayFields(ib))
  }

  /** `ToXrayInbound`: the object is filled step by step. */
  method ToXrayInbound(ib: Inbound) returns (obj: Fields)
    ensures obj == XrayFields(ib)
  {
    var listen := ib.listen;
    if listen == "" {
      listen := "0.0.0.0";
    }
    obj := map["listen" := Str(listen), "port" := Num(ib.port as real),
               "protocol" := Str(ib.protocol), "tag" := Str(ib.tag)];
    if ib.settings.json.Some? {
      obj := obj["settings" := ib.settings.json.value];
    }
    if ib.stream.raw != "" && ib.stream.raw != "{}" {
      if ib.stream.json.Some? {
        obj := obj["streamSettings" := ib.stream.json.value];
      }
    }
    if ib.sniffing.raw != "" && ib.sniffing.raw != "{}" {
      if ib.sniffing.json.Some? {
        obj := obj["sniffing" := ib.sniffing.json.value];
      }
    }
  }

  // ---------- the repository ----------

  predicate IsLive(st: State, i: int) {
    0 <= i < |st.rows| && !st.rows[i].deleted
  }

  /** The position of the live row with an id, |rows| without one. */
  function Find(st: State, id: nat): (i: nat)
    ensures i <= |st.rows|
    ensures i < |st.rows| ==> IsLive(st, i) && st.rows[i].ib.id == id
    ensures i == |st.rows| ==> forall j | IsLive(st, j) :: st.rows[j].ib.id != id
  {
    FindFrom(st, id, 0)
  }

  function FindFrom(st: State, id: nat, from: nat): (i: nat)
    requires from <= |st.rows|
    ensures from <= i <= |st.rows|
    ensures i < |st.rows| ==> IsLive(st, i) && st.rows[i].ib.id == id
    ensures i == |st.rows| ==> forall j | from <= j && IsLive(st, j) :: st.rows[j].ib.id != id
    decreases |st.rows| - from
  {
    if from == |st.rows| then from
    else if IsLive(st, from) && st.rows[from].ib.id == id then from
    else FindFrom(st, id, from + 1)
  }

  /** `TagExists` looks at live rows only, except the one with the excluded id (0 excludes none). */
  predicate TagExists(st: State, tag: string, excludeId: nat) {
    exists i :: && 0 <= i < |st.rows| && IsLive(st, i) && st.rows[i].ib.tag == tag
                && !(excludeId > 0 && st.rows[i].ib.id == excludeId)
  }

  /** The unique index on tags covers deleted rows as well. */
  predicate TagIndexed(st: State, tag: string, except: int) {
    exists i :: 0 <= i < |st.rows| && i != except && st.rows[i].ib.tag == tag
  }

  predicate Targets(ib: Inbound, node: NodeId) {
    |ib.nodeIds| == 0 || node in ib.nodeIds
  }

  /** `ListEnabled`. */
  function Enabled(rows: seq<Row>): seq<Inbound> {
    if rows == [] then []
    else Enabled(rows[..|rows| - 1]) +
         (var r := rows[|rows| - 1]; if r.ib.enable && !r.deleted then [r.ib] else [])
  }

  function TargetedBy(all: seq<Inbound>, node: NodeId): seq<Inbound> {
    if all == [] then []
    else TargetedBy(all[..|all| - 1], node) + (if Targets(all[|all| - 1], node) then [all[|all| - 1]] else [])
  }

  function ForNode(st: State, node: NodeId): seq<Inbound> {
    TargetedBy(Enabled(st.rows), node)
  }

  method ListForNode(st: State, node: NodeId) returns (result: seq<Inbound>)
    ensures result == ForNode(st, node)
  {
    var all := Enabled(st.rows);
    result := [];
    for i := 0 to |all|
      invariant result == TargetedBy(all[..i], node)
    {
      assert all[..i + 1][..i] == all[..i];
      var ids := all[i].nodeIds;
      if |ids| == 0 {
        result := result + [all[i]];
        continue;
      }
      var found := false;
      for j := 0 to |ids|
        invariant !found && node !in ids[..j]
        invariant result == TargetedBy(all[..i], node)
      {
        if ids[j] == node {
          result := result + [all[i]];
          found := true;
          break;
        }
      }
      assert found || ids[..|ids|] == ids;
    }
    assert all[..|all|] == all;
  }

  // ---------- specification of the operations ----------

  datatype Command =
    | Create(ib: Inbound)
    | Update(id: nat, ib: Inbound)
    | Delete(id: nat)
    | Toggle(id: nat)

  /** The service's answer and the new table. */
  function CreateResult(st: State, ib: Inbound): Result<State, ServiceError> {
    var v := Validated(ib);
    if v.Err? then Err(v.error)
    else if TagExists(st, v.value.tag, 0) then Err(TagTaken)
    else if TagIndexed(st, v.value.tag, -1) then Err(StorageError)
    else Ok(State(st.rows + [Row(v.value.(id := st.nextId), false)], st.nextId + 1))
  }

  /** The handler looks the row up and keeps its id and creation time. */
  function UpdateResult(st: State, id: nat, ib: Inbound): Result<State, ServiceError> {
    var i := Find(st, id);
    if i == |st.rows| then Err(NotFound)
    else
      var v := Validated(ib.(id := id));
      if v.Err? then Err(v.error)
      else if TagExists(st, v.value.tag, id) then Err(TagTaken)
      else if TagIndexed(st, v.value.tag, i) then Err(StorageError)
      else Ok(st.(rows := st.rows[i := Row(v.value, false)]))
  }

  /** Deleting what is not there succeeds as well. */
  function DeleteResult(st: State, id: nat): Result<State, ServiceError> {
    var i := Find(st, id);
    Ok(if i == |st.rows| then st else st.(rows := st.rows[i := st.rows[i].(deleted := true)]))
  }

  function ToggleResult(st: State, id: nat): Result<State, ServiceError> {
    var i := Find(st, id);
    if i == |st.rows| then Err(NotFound)
    else Ok(st.(rows := st.rows[i := st.rows[i].(ib := st.rows[i].ib.(enable := !st.rows[i].ib.enable))]))
  }

  function Answer(st: State, c: Command): Result<State, ServiceError> {
    match c
    case Create(ib) => CreateResult(st, ib)
    case Update(id, ib) => UpdateResult(st, id, ib)
    case Delete(id) => DeleteResult(st, id)
    case Toggle(id) => ToggleResult(st, id)
  }

  function Apply(st: State, c: Command): State {
    var r := Answer(st, c);
    if r.Ok? then r.value else st
  }

  // ---------- the service ----------

  class Service {
    var rows: seq<Row>
    var nextId: nat
    /** How often `OnChange` was called. */
    var changes: nat

    ghost function Abstract(): State
      reads this
    {
      State(rows, nextId)
    }

    /** What every operation does: it changes the table as specified, and notifies exactly on success. */
    twostate predicate Did(c: Command, ok: bool)
      reads this
    {
      var r := Answer(old(Abstract()), c);
      Abstract() == Apply(old(Abstract()), c) && ok == r.Ok? && changes == old(changes) + (if ok then 1 else 0)
    }

    constructor ()
      ensures Abstract() == State([], 1)
    {
      rows, nextId, changes := [], 1, 0;
    }

    method CreateInbound(ib: Inbound) returns (r: Result<Inbound, ServiceError>)
      modifies this
      ensures Did(Create(ib), r.Ok?)
      ensures r.Err? ==> Answer(old(Abstract()), Create(ib)) == Err(r.error)
      ensures r.Ok? ==> r.value.id == old(nextId) && rows == old(rows) + [Row(r.value, false)]
      ensures r.Ok? ==> r.value == ib.(id := old(nextId), tag := r.value.tag)
      ensures r.Ok? && ib.tag != "" ==> r.value.tag == ib.tag
      ensures r.Err? ==> rows == old(rows)
    {
      var v := Validated(ib);
      if v.Err? {
        return Err(v.error);
      }
      var st := State(rows, nextId);
      if TagExists(st, v.value.tag, 0) {
        return Err(TagTaken);
      }
      if TagIndexed(st, v.value.tag, -1) {
        return Err(StorageError);
      }
      var created := v.value.(id := nextId);
      rows := rows + [Row(created, false)];
      nextId := nextId + 1;
      changes := changes + 1;
      return Ok(created);
    }

    method UpdateInbound(id: nat, ib: Inbound) returns (r: Result<Inbound, ServiceError>)
      modifies this
      ensures Did(Update(id, ib), r.Ok?)
      ensures r.Err? ==> Answer(old(Abstract()), Update(id, ib)) == Err(r.error)
      ensures r.Ok? ==> r.value == ib.(id := id, tag := r.value.tag) && (ib.tag != "" ==> r.value.tag == ib.tag)
      ensures r.Ok? ==> exists i :: && 0 <= i < |old(rows)| && !old(rows)[i].deleted && old(rows)[i].ib.id == id
                                    && rows == old(rows)[i := Row(r.value, false)]
      ensures r.Err? ==> rows == old(rows)
      ensures r == Err(NotFound) <==>
                forall i | 0 <= i < |old(rows)| && !old(rows)[i].deleted :: old(rows)[i].ib.id != id
    {
      var st := State(rows, nextId);
      var i := Find(st, id);
      if i == |rows| {
        return Err(NotFound);
      }
      var v := Validated(ib.(id := id));
      if v.Err? {
        return Err(v.error);
      }
      if TagExists(st, v.value.tag, id) {
        return Err(TagTaken);
      }
      if TagIndexed(st, v.value.tag, i) {
        return Err(StorageError);
      }
      rows := rows[i := Row(v.value, false)];
      changes := changes + 1;
      return Ok(v.value);
    }

    method DeleteInbound(id: nat)
      modifies this
      ensures Did(Delete(id), true)
      ensures forall i | 0 <= i < |rows| && !rows[i].deleted :: i < |old(rows)| && rows[i] == old(rows)[i]
      ensures |rows| == |old(rows)| && forall i | 0 <= i < |rows| :: rows[i].ib == old(rows)[i].ib
    {
      var i := Find(State(rows, nextId), id);
      if i < |rows| {
        rows := rows[i := rows[i].(deleted := true)];
      }
      changes := changes + 1;
    }

    method ToggleInbound(id: nat) returns (r: Result<Inbound, ServiceError>)
      modifies this
      ensures Did(Toggle(id), r.Ok?)
      ensures r.Err? ==> r.error == NotFound
      ensures r.Ok? ==> exists i :: && 0 <= i < |old(rows)| && !old(rows)[i].deleted && old(rows)[i].ib.id == id
                                    && r.value == old(rows)[i].ib.(enable := !old(rows)[i].ib.enable)
                                    && rows == old(rows)[i := Row(r.value, false)]
    {
      var i := Find(State(rows, nextId), id);
      if i == |rows| {
        return Err(NotFound);
      }
      var ib := rows[i].ib;
      ib := ib.(enable := !ib.enable);
      rows := rows[i := rows[i].(ib := ib)];
      changes := changes + 1;
      return Ok(ib);
    }

    method BuildXrayConfig(node: NodeId) returns (cfg: Fields)
      ensures cfg == Build(Abstract(), node)
    {
      var inbounds := ListForNode(State(rows, nextId), node);
      var xrayInbounds := [ApiInbound(DEFAULT_HOST, DEFAULT_PORT)];
      for i := 0 to |inbounds|
        invariant xrayInbounds == [ApiInbound(DEFAULT_HOST, DEFAULT_PORT)] + XrayInbounds(inbounds[..i])
      {
        assert inbounds[..i + 1][..i] == inbounds[..i];
        var obj := ToXrayInbound(inbounds[i]);
        xrayInbounds := xrayInbounds + [Obj(obj)];
      }
      assert inbounds[..|inbounds|] == inbounds;
      cfg := ConfigWith(xrayInbounds);
    }
  }

  // ---------- the built configuration ----------

  function XrayInbounds(ibs: seq<Inbound>): seq<Json> {
    if ibs == [] then [] else XrayInbounds(ibs[..|ibs| - 1]) + [XrayInbound(ibs[|ibs| - 1])]
  }

  function ConfigWith(inbounds: seq<Json>): Fields {
    map["log" := Obj(map["loglevel" := Str("warning")]),
        "api" := ApiSection,
        "stats" := Obj(map[]),
        "policy" := Obj(map["system" := SystemStats]),
        "inbounds" := Arr(inbounds),
        "outbounds" := Arr([Obj(map["protocol" := Str("freedom"), "tag" := Str("direct")]),
                            Obj(map["protocol" := Str("blackhole"), "tag" := Str("blocked")])]),
        "routing" := Obj(map["rules" := Arr([ApiRule])])]
  }

  function Build(st: State, node: NodeId): Fields {
    ConfigWith([ApiInbound(DEFAULT_HOST, DEFAULT_PORT)] + XrayInbounds(ForNode(st, node)))
  }

  /** Every section of an inbound, literally: the settings are written whenever their text decodes, the other
      two when their text moreover is neither empty nor "{}", and nothing else is written. */
  lemma XraySections(ib: Inbound)
    ensures var f := XrayFields(ib);
            && ("settings" in f <==> ib.settings.json.Some?)
            && (ib.settings.json.Some? ==> f["settings"] == ib.settings.json.value)
            && ("streamSettings" in f <==> ib.stream.raw != "" && ib.stream.raw != "{}" && ib.stream.json.Some?)
            && ("streamSettings" in f ==> f["streamSettings"] == ib.stream.json.value)
            && ("sniffing" in f <==> ib.sniffing.raw != "" && ib.sniffing.raw != "{}" && ib.sniffing.json.Some?)
            && ("sniffing" in f ==> f["sniffing"] == ib.sniffing.json.value)
            && f.Keys <= {"listen", "port", "protocol", "tag", "settings", "streamSettings", "sniffing"}
  {
  }

  /** Everything around the inbounds in a built configuration, literally. */
  lemma BuiltSections(st: State, node: NodeId)
    ensures var cfg := Build(st, node);
            && cfg.Keys == {"log", "api", "stats", "policy", "inbounds", "outbounds", "routing"}
            && cfg["log"] == Obj(map["loglevel" := Str("warning")])
            && cfg["outbounds"] == Arr([Obj(map["protocol" := Str("freedom"), "tag" := Str("direct")]),
                                        Obj(map["protocol" := Str("blackhole"), "tag" := Str("blocked")])])
  {
  }

  /** The optional sections never disturb the fixed fields. */
  lemma XrayInboundKeepsFields(ib: Inbound)
    ensures var f := XrayFields(ib);
            && "tag" in f && f["tag"] == Str(ib.tag)
            && "port" in f && f["port"] == Num(ib.port as real)
            && "protocol" in f && f["protocol"] == Str(ib.protocol)
            && "listen" in f && f["listen"] == Str(if ib.listen == "" then "0.0.0.0" else ib.listen)
  {
  }

  // ---------- every run ----------

  ghost predicate TagsDistinct(rows: seq<Row>) {
    forall i, j | 0 <= i < j < |rows| :: rows[i].ib.tag != rows[j].ib.tag
  }

  ghost predicate IdsAscend(rows: seq<Row>, nextId: nat) {
    && (forall i | 0 <= i < |rows| :: 0 < rows[i].ib.id < nextId)
    && (forall i, j | 0 <= i < j < |rows| :: rows[i].ib.id < rows[j].ib.id)
  }

  ghost predicate Inv(st: State) {
    st.nextId > 0 && TagsDistinct(st.rows) && IdsAscend(st.rows, st.nextId)
  }

  lemma CreateKeepsInv(st: State, ib: Inbound)
    requires Inv(st) && CreateResult(st, ib).Ok?
    ensures Inv(CreateResult(st, ib).value)
  {
    var v := Validated(ib).value;
    forall i | 0 <= i < |st.rows|
      ensures st.rows[i].ib.tag != v.tag
    {
      assert !TagIndexed(st, v.tag, -1);
    }
  }

  lemma UpdateKeepsInv(st: State, id: nat, ib: Inbound)
    requires Inv(st) && UpdateResult(st, id, ib).Ok?
    ensures Inv(UpdateResult(st, id, ib).value)
  {
    var k, v := Find(st, id), Validated(ib.(id := id)).value;
    forall i | 0 <= i < |st.rows| && i != k
      ensures st.rows[i].ib.tag != v.tag
    {
      assert !TagIndexed(st, v.tag, k);
    }
  }

  lemma StepKeepsInv(st: State, c: Command)
    requires Inv(st)
    ensures Inv(Apply(st, c))
  {
    if Answer(st, c).Ok? {
      match c
      case Create(ib) => CreateKeepsInv(st, ib);
      case Update(id, ib) => UpdateKeepsInv(st, id, ib);
      case Delete(_) =>
      case Toggle(_) =>
    }
  }

  function Run(st: State, cs: seq<Command>): State
    decreases |cs|
  {
    if cs == [] then st else Run(Apply(st, cs[0]), cs[1..])
  }

  lemma {:induction false} RunKeepsInv(st: State, cs: seq<Command>)
    requires Inv(st)
    ensures Inv(Run(st, cs))
    decreases |cs|
  {
    if cs != [] {
      StepKeepsInv(st, cs[0]);
      RunKeepsInv(Apply(st, cs[0]), cs[1..]);
    }
  }

  const Empty := State([], 1)

  // ---------- retired tags ----------

  ghost predicate Retired(st: State, tag: string) {
    exists i :: 0 <= i < |st.rows| && st.rows[i].deleted && st.rows[i].ib.tag == tag
  }

  /** A valid inbound is accepted exactly when no row, deleted ones included, carries its tag. The service
      itself checks live rows only; for a deleted one the failure comes from the unique index. */
  lemma CreateAcceptedIff(st: State, ib: Inbound)
    requires Validated(ib).Ok?
    ensures CreateResult(st, ib).Ok? <==> forall i | 0 <= i < |st.rows| :: st.rows[i].ib.tag != Validated(ib).value.tag
    ensures CreateResult(st, ib) == Err(StorageError) ==> Retired(st, Validated(ib).value.tag)
  {
    var tag := Validated(ib).value.tag;
    if i :| 0 <= i < |st.rows| && st.rows[i].ib.tag == tag {
      assert TagIndexed(st, tag, -1);
      assert !st.rows[i].deleted ==> IsLive(st, i);
    }
  }

  /** Why a valid inbound is refused: a live row has its tag, or only deleted ones do. */
  lemma RefusalKinds(st: State, ib: Inbound)
    requires Validated(ib).Ok?
    ensures CreateResult(st, ib) == Err(TagTaken)
       <==> exists i :: 0 <= i < |st.rows| && !st.rows[i].deleted && st.rows[i].ib.tag == Validated(ib).value.tag
    ensures CreateResult(st, ib).Err? ==> CreateResult(st, ib).error in [TagTaken, StorageError]
  {
    var tag := Validated(ib).value.tag;
    if i :| 0 <= i < |st.rows| && !st.rows[i].deleted && st.rows[i].ib.tag == tag {
      assert IsLive(st, i);
    }
  }

  /** An update of a live row is accepted exactly when no other row carries the tag, its own tag being free to
      stay; it is refused as taken when another live row carries it. The row keeps its place and its id;
      ids start at 1. */
  lemma UpdateAnswer(st: State, i: nat, ib: Inbound)
    requires Inv(st) && IsLive(st, i) && st.rows[i].ib.id > 0 && Validated(ib).Ok?
    ensures var id, tag := st.rows[i].ib.id, Validated(ib).value.tag;
            var r := UpdateResult(st, id, ib);
            && (r.Ok? <==> forall j | 0 <= j < |st.rows| && j != i :: st.rows[j].ib.tag != tag)
            && (r == Err(TagTaken)
                <==> exists j :: 0 <= j < |st.rows| && j != i && !st.rows[j].deleted && st.rows[j].ib.tag == tag)
            && (r.Err? ==> r.error in [TagTaken, StorageError])
            && (r.Ok? ==> r.value == State(st.rows[i := Row(ib.(id := id, tag := tag), false)], st.nextId))
  {
    var id, tag := st.rows[i].ib.id, Validated(ib).value.tag;
    var k := Find(st, id);
    assert k < |st.rows|;
    assert k == i;
    assert Validated(ib.(id := id)) == Ok(ib.(id := id, tag := tag));
    if j :| 0 <= j < |st.rows| && j != i && !st.rows[j].deleted && st.rows[j].ib.tag == tag {
      assert IsLive(st, j) && st.rows[j].ib.id != id;
    }
  }

  lemma StepKeepsRetired(st: State, c: Command, tag: string)
    requires Retired(st, tag)
    ensures Retired(Apply(st, c), tag)
  {
    var i :| 0 <= i < |st.rows| && st.rows[i].deleted && st.rows[i].ib.tag == tag;
    assert Apply(st, c).rows[i] == st.rows[i];
  }

  /** No update gives a row a retired tag either. */
  lemma RetiredRefusedByUpdate(st: State, id: nat, ib: Inbound)
    requires Validated(ib).Ok? && Retired(st, Validated(ib).value.tag)
    ensures UpdateResult(st, id, ib).Err?
  {
    var tag, k := Validated(ib).value.tag, Find(st, id);
    var i :| 0 <= i < |st.rows| && st.rows[i].deleted && st.rows[i].ib.tag == tag;
    assert Validated(ib.(id := id)).value.tag == tag;
    if k < |st.rows| {
      assert i != k;
      assert TagIndexed(st, tag, k);
    }
  }

  /** The tag of a deleted inbound can never be used again, by creating or by updating, whatever
      operations follow. */
  lemma {:induction false} RetiredForEver(st: State, cs: seq<Command>, id: nat, ib: Inbound)
    requires Validated(ib).Ok? && Retired(st, Validated(ib).value.tag)
    ensures CreateResult(Run(st, cs), ib).Err? && UpdateResult(Run(st, cs), id, ib).Err?
    decreases |cs|
  {
    if cs == [] {
      CreateAcceptedIff(st, ib);
      RetiredRefusedByUpdate(st, id, ib);
    } else {
      StepKeepsRetired(st, cs[0], Validated(ib).value.tag);
      RetiredForEver(Apply(st, cs[0]), cs[1..], id, ib);
    }
  }

  // ---------- what is listed for a node ----------

  ghost predicate Ascending(ibs: seq<Inbound>) {
    forall i, j | 0 <= i < j < |ibs| :: ibs[i].id < ibs[j].id && ibs[i].tag != ibs[j].tag
  }

  ghost predicate Listed(rows: seq<Row>, ib: Inbound) {
    exists i :: 0 <= i < |rows| && !rows[i].deleted && rows[i].ib == ib && ib.enable
  }

  lemma {:induction false} EnabledFacts(rows: seq<Row>, nextId: nat)
    requires TagsDistinct(rows) && IdsAscend(rows, nextId)
    ensures forall ib :: ib in Enabled(rows) <==> Listed(rows, ib)
    ensures Ascending(Enabled(rows))
  {
    if rows != [] {
      var n := |rows| - 1;
      EnabledFacts(rows[..n], nextId);
      var before, last := Enabled(rows[..n]), rows[n];
      forall k | 0 <= k < |before|
        ensures before[k].id < last.ib.id && before[k].tag != last.ib.tag
      {
        assert before[k] in before;
        var i :| 0 <= i < n && rows[..n][i].ib == before[k];
        assert rows[i].ib == before[k];
      }
      forall ib
        ensures ib in Enabled(rows) <==> Listed(rows, ib)
      {
        ListedStep(rows, ib);
      }
    }
  }

  lemma ListedStep(rows: seq<Row>, ib: Inbound)
    requires rows != []
    ensures var n := |rows| - 1;
            Listed(rows, ib) <==> Listed(rows[..n], ib) || (!rows[n].deleted && rows[n].ib == ib && ib.enable)
  {
    var n := |rows| - 1;
    if Listed(rows, ib) {
      var i :| 0 <= i < |rows| && !rows[i].deleted && rows[i].ib == ib && ib.enable;
      if i < n { assert rows[..n][i] == rows[i]; }
    }
    if Listed(rows[..n], ib) {
      var i :| 0 <= i < n && !rows[..n][i].deleted && rows[..n][i].ib == ib && ib.enable;
      assert rows[i] == rows[..n][i];
    }
  }

  lemma {:induction false} TargetedFacts(all: seq<Inbound>, node: NodeId)
    requires Ascending(all)
    ensures forall ib :: ib in TargetedBy(all, node) <==> ib in all && Targets(ib, node)
    ensures Ascending(TargetedBy(all, node))
  {
    if all != [] {
      var n := |all| - 1;
      TargetedFacts(all[..n], node);
      var before := TargetedBy(all[..n], node);
      assert all == all[..n] + [all[n]];
      forall k | 0 <= k < |before|
        ensures before[k].id < all[n].id && before[k].tag != all[n].tag
      {
        assert before[k] in before;
        var i :| 0 <= i < n && all[..n][i] == before[k];
      }
    }
  }

  /** A node is given exactly the live enabled inbounds that name it or name no node, in creation order,
      under pairwise distinct tags. */
  lemma ForNodeFacts(st: State, node: NodeId)
    requires Inv(st)
    ensures forall ib :: ib in ForNode(st, node)
                    <==> Listed(st.rows, ib) && (ib.nodeIds == [] || node in ib.nodeIds)
    ensures Ascending(ForNode(st, node))
  {
    EnabledFacts(st.rows, st.nextId);
    TargetedFacts(Enabled(st.rows), node);
  }

  lemma WithoutApiOfOne(ib: Inbound)
    requires ib.tag != "api"
    ensures WithoutApi([ib]) == [ib]
  {
    assert [ib][..0] == [];
  }

  lemma ForNodeOfOne(ib: Inbound, nextId: nat, node: NodeId)
    requires ib.enable && Targets(ib, node)
    ensures ForNode(State([Row(ib, false)], nextId), node) == [ib]
  {
    var rows, ibs := [Row(ib, false)], [ib];
    assert rows[..0] == [] && ibs[..0] == [];
    assert Enabled(rows) == ibs;
    assert TargetedBy(ibs, node) == TargetedBy(ibs[..0], node) + ibs;
  }

  // ---------- undoing and deleting ----------

  /** Toggling twice restores the table. */
  lemma ToggleUndone(st: State, id: nat)
    ensures Apply(Apply(st, Toggle(id)), Toggle(id)) == st
  {
    var i := Find(st, id);
    if i < |st.rows| {
      var st' := Apply(st, Toggle(id));
      ToggledFirst(st, st', id, i, 0);
      assert st'.rows[i].ib.(enable := !st'.rows[i].ib.enable) == st.rows[i].ib;
    }
  }

  /** A toggle does not change which row is found. */
  lemma {:induction false} ToggledFirst(st: State, st': State, id: nat, i: nat, from: nat)
    requires from <= i < |st.rows| && FindFrom(st, id, from) == i
    requires st' == st.(rows := st.rows[i := st.rows[i].(ib := st.rows[i].ib.(enable := !st.rows[i].ib.enable))])
    ensures FindFrom(st', id, from) == i
    decreases i - from
  {
    if from < i {
      ToggledFirst(st, st', id, i, from + 1);
    }
  }

  /** No live row has the id, and no new one will get it. */
  ghost predicate Gone(st: State, id: nat) {
    id < st.nextId && forall i | IsLive(st, i) :: st.rows[i].ib.id != id
  }

  lemma StepKeepsGone(st: State, c: Command, id: nat)
    requires Gone(st, id)
    ensures Gone(Apply(st, c), id)
  {
    forall i | IsLive(Apply(st, c), i)
      ensures Apply(st, c).rows[i].ib.id != id
    {
      if i < |st.rows| && Apply(st, c).rows[i] == st.rows[i] {
        assert IsLive(st, i);
      }
    }
  }

  lemma {:induction false} GoneForEver(st: State, cs: seq<Command>, id: nat)
    requires Gone(st, id)
    ensures Gone(Run(st, cs), id)
    decreases |cs|
  {
    if cs != [] {
      StepKeepsGone(st, cs[0], id);
      GoneForEver(Apply(st, cs[0]), cs[1..], id);
    }
  }

  /** A deleted inbound is never given to any node again, whatever operations follow. */
  lemma DeletedNeverServed(st: State, id: nat, cs: seq<Command>, node: NodeId)
    requires Inv(st) && id < st.nextId
    ensures forall ib | ib in ForNode(Run(Apply(st, Delete(id)), cs), node) :: ib.id != id
  {
    var deleted := Apply(st, Delete(id));
    StepKeepsInv(st, Delete(id));
    GoneForEver(deleted, cs, id);
    RunKeepsInv(deleted, cs);
    var st' := Run(deleted, cs);
    ForNodeFacts(st', node);
    forall ib | ib in ForNode(st', node)
      ensures ib.id != id
    {
      var i :| 0 <= i < |st'.rows| && !st'.rows[i].deleted && st'.rows[i].ib == ib;
      assert IsLive(st', i);
    }
  }

  // ---------- end to end ----------

  function WithoutApi(ibs: seq<Inbound>): seq<Inbound> {
    if ibs == [] then []
    else WithoutApi(ibs[..|ibs| - 1]) + (if ibs[|ibs| - 1].tag == "api" then [] else [ibs[|ibs| - 1]])
  }

  lemma XrayInboundTag(ib: Inbound, tag: string)
    ensures HasString(XrayInbound(ib), "tag", tag) <==> ib.tag == tag
  {
    XrayInboundKeepsFields(ib);
  }

  lemma {:induction false} NotApiInbounds(ibs: seq<Inbound>)
    ensures NotApi(XrayInbounds(ibs), "tag") == XrayInbounds(WithoutApi(ibs))
  {
    if ibs != [] {
      var n := |ibs| - 1;
      NotApiInbounds(ibs[..n]);
      XrayInboundTag(ibs[n], "api");
      var before, kept := XrayInbounds(ibs[..n]), WithoutApi(ibs[..n]);
      NotApiConcat(before, [XrayInbound(ibs[n])], "tag");
      assert [XrayInbound(ibs[n])][..0] == [];
      assert (kept + [ibs[n]])[..|kept|] == kept;
      assert WithoutApi(ibs) == if ibs[n].tag == "api" then kept else kept + [ibs[n]];
    }
  }

  lemma {:induction false} WithoutApiFacts(ibs: seq<Inbound>)
    requires Ascending(ibs)
    ensures Ascending(WithoutApi(ibs))
    ensures forall ib :: ib in WithoutApi(ibs) <==> ib in ibs && ib.tag != "api"
  {
    if ibs != [] {
      var n := |ibs| - 1;
      WithoutApiFacts(ibs[..n]);
      var before := WithoutApi(ibs[..n]);
      assert ibs == ibs[..n] + [ibs[n]];
      forall k | 0 <= k < |before|
        ensures before[k].id < ibs[n].id && before[k].tag != ibs[n].tag
      {
        assert before[k] in before;
        var i :| 0 <= i < n && ibs[..n][i] == before[k];
      }
    }
  }

  lemma {:induction false} XrayInboundsAt(ibs: seq<Inbound>, i: nat)
    requires i < |ibs|
    ensures |XrayInbounds(ibs)| == |ibs| && XrayInbounds(ibs)[i] == XrayInbound(ibs[i])
  {
    XrayInboundsLength(ibs);
    if i < |ibs| - 1 {
      XrayInboundsLength(ibs[..|ibs| - 1]);
      XrayInboundsAt(ibs[..|ibs| - 1], i);
    } else {
      XrayInboundsLength(ibs[..|ibs| - 1]);
    }
  }

  lemma {:induction false} XrayInboundsLength(ibs: seq<Inbound>)
    ensures |XrayInbounds(ibs)| == |ibs|
  {
    if ibs != [] {
      XrayInboundsLength(ibs[..|ibs| - 1]);
    }
  }

  lemma BuildLists(st: State, node: NodeId)
    ensures InboundsOf(Build(st, node)) == [ApiInbound(DEFAULT_HOST, DEFAULT_PORT)] + XrayInbounds(ForNode(st, node))
    ensures RulesOf(Build(st, node)) == [ApiRule]
  {
  }

  lemma FilteredBuild(ibs: seq<Inbound>, host: string, port: int)
    ensures NotApi([ApiInbound(host, port)] + XrayInbounds(ibs), "tag") == XrayInbounds(WithoutApi(ibs))
  {
    var first := ApiInbound(host, port);
    NotApiConcat([first], XrayInbounds(ibs), "tag");
    assert NotApi([first], "tag") == [] by {
      assert [first][..0] == [];
    }
    NotApiInbounds(ibs);
  }

  /** The inbounds a node ends up with: the stats API, then its inbounds that do not use the reserved tag. */
  lemma InjectedInboundsOfBuild(st: State, node: NodeId, host: string, port: int)
    ensures InboundsOf(Injected(Build(st, node), host, port))
         == [ApiInbound(host, port)] + XrayInbounds(WithoutApi(ForNode(st, node)))
  {
    BuildLists(st, node);
    FilteredBuild(ForNode(st, node), DEFAULT_HOST, DEFAULT_PORT);
    InjectedInboundList(Build(st, node), host, port);
  }

  /** The inbounds a node runs beside the stats API. */
  function Deployed(st: State, node: NodeId): seq<Json> {
    XrayInbounds(WithoutApi(ForNode(st, node)))
  }

  /** What a node runs, item by item: the inbounds listed for it, except for the reserved tag, each with its
      own sections. */
  lemma DeployedItem(st: State, node: NodeId, i: nat)
    requires i < |WithoutApi(ForNode(st, node))|
    ensures i < |Deployed(st, node)| && Deployed(st, node)[i] == Obj(XrayFields(WithoutApi(ForNode(st, node))[i]))
  {
    XrayInboundsAt(WithoutApi(ForNode(st, node)), i);
  }

  lemma InjectedConfigWith(items: seq<Json>, host: string, port: int)
    ensures Injected(ConfigWith(items), host, port) == ConfigWith([ApiInbound(host, port)] + NotApi(items, "tag"))
  {
    var cfg := ConfigWith(items);
    ConfigLists(items);
    SingletonHeads(ApiRule, "outboundTag");
    PolicyPresent(cfg);
    RoutingPresent(cfg);
    ConfigWithSections(items, [ApiInbound(host, port)] + NotApi(items, "tag"));
  }

  lemma ConfigLists(items: seq<Json>)
    ensures InboundsOf(ConfigWith(items)) == items && RulesOf(ConfigWith(items)) == [ApiRule]
  {
  }

  lemma ConfigWithSections(items: seq<Json>, items': seq<Json>)
    ensures var cfg := ConfigWith(items);
            WithSections(cfg, cfg["policy"], Arr(items'), cfg["routing"]) == ConfigWith(items')
  {
  }

  /** Two tables give a node the same file if and only if it runs the same inbounds under both; rows
      that use the reserved tag do not matter. */
  lemma InjectedAlikeIff(st: State, st': State, node: NodeId, host: string, port: int)
    ensures Injected(Build(st, node), host, port) == Injected(Build(st', node), host, port)
       <==> Deployed(st, node) == Deployed(st', node)
  {
    var first := ApiInbound(host, port);
    InjectedInboundsOfBuild(st, node, host, port);
    InjectedInboundsOfBuild(st', node, host, port);
    assert ([first] + Deployed(st, node))[1..] == Deployed(st, node);
    assert ([first] + Deployed(st', node))[1..] == Deployed(st', node);
    if Deployed(st, node) == Deployed(st', node) {
      InjectedBuild(st, node, host, port);
      InjectedBuild(st', node, host, port);
    }
  }

  lemma InjectedBuild(st: State, node: NodeId, host: string, port: int)
    ensures Injected(Build(st, node), host, port) == ConfigWith([ApiInbound(host, port)] + Deployed(st, node))
  {
    var items := [ApiInbound(DEFAULT_HOST, DEFAULT_PORT)] + XrayInbounds(ForNode(st, node));
    InjectedConfigWith(items, host, port);
    FilteredBuild(ForNode(st, node), DEFAULT_HOST, DEFAULT_PORT);
  }

  /** The object carries the tag t. */
  ghost predicate Tagged(v: Json, t: string) {
    HasString(v, "tag", t)
  }

  ghost predicate ApiFirstThenDistinct(items: seq<Json>, tags: seq<string>) {
    && |items| == |tags| > 0 && tags[0] == "api"
    && (forall i | 0 <= i < |items| :: Tagged(items[i], tags[i]))
    && forall i, j | 0 <= i < j < |tags| :: tags[i] != tags[j]
  }

  lemma TagsOfInjected(ibs: seq<Inbound>, host: string, port: int)
    requires Ascending(ibs) && forall ib | ib in ibs :: ib.tag != "api"
    ensures ApiFirstThenDistinct([ApiInbound(host, port)] + XrayInbounds(ibs), ["api"] + Tags(ibs))
  {
    var items, tags := [ApiInbound(host, port)] + XrayInbounds(ibs), ["api"] + Tags(ibs);
    XrayInboundsLength(ibs);
    forall i | 0 <= i < |items|
      ensures Tagged(items[i], tags[i])
    {
      if i > 0 {
        TaggedAt(ibs, i - 1);
      }
    }
    ApiFirstDistinct(ibs);
  }

  /** End to end: after any sequence of operations, the configuration a node obtains by injecting the stats
      API into what the panel built has "api" as its first inbound tag, pairwise distinct tags, and "api"
      nowhere else, even when some inbound was tagged "api"; the other tags are those of the node's
      inbounds in creation order. */
  lemma EndToEndTags(cs: seq<Command>, node: NodeId, host: string, port: int)
    ensures ApiFirstThenDistinct(InboundsOf(Injected(Build(Run(Empty, cs), node), host, port)),
                                 ["api"] + Tags(WithoutApi(ForNode(Run(Empty, cs), node))))
  {
    var st := Run(Empty, cs);
    RunKeepsInv(Empty, cs);
    ForNodeFacts(st, node);
    WithoutApiFacts(ForNode(st, node));
    InjectedInboundsOfBuild(st, node, host, port);
    TagsOfInjected(WithoutApi(ForNode(st, node)), host, port);
  }

  lemma TaggedAt(ibs: seq<Inbound>, i: nat)
    requires i < |ibs|
    ensures i < |XrayInbounds(ibs)| && Tagged(XrayInbounds(ibs)[i], ibs[i].tag)
  {
    XrayInboundsAt(ibs, i);
    XrayInboundTag(ibs[i], ibs[i].tag);
  }

  lemma ApiFirstDistinct(ibs: seq<Inbound>)
    requires Ascending(ibs) && forall ib | ib in ibs :: ib.tag != "api"
    ensures var tags := ["api"] + Tags(ibs); forall i, j | 0 <= i < j < |tags| :: tags[i] != tags[j]
  {
    forall i | 0 <= i < |ibs|
      ensures Tags(ibs)[i] != "api"
    {
      assert ibs[i] in ibs;
    }
  }

  function Tags(ibs: seq<Inbound>): (r: seq<string>)
    ensures |r| == |ibs| && forall i | 0 <= i < |ibs| :: r[i] == ibs[i].tag
  {
    seq(|ibs|, i requires 0 <= i < |ibs| => ibs[i].tag)
  }

  lemma ApiInboundInjective(host: string, port: int, host': string, port': int)
    requires ApiInbound(host, port) == ApiInbound(host', port')
    ensures host == host' && port == port'
  {
    assert ApiInbound(host, port).fields["listen"] == ApiInbound(host', port').fields["listen"];
    assert ApiInbound(host, port).fields["port"] == ApiInbound(host', port').fields["port"];
  }

  lemma BuildHasStatsAPI(st: State, node: NodeId, host: string, port: int)
    ensures HasStatsAPI(Build(st, node), host, port)
       <==> HeadsApiFree(InboundsOf(Build(st, node)), ApiInbound(host, port), "tag")
  {
    BuildLists(st, node);
    SingletonHeads(ApiRule, "outboundTag");
  }

  lemma BuildHeadsApiFree(ibs: seq<Inbound>, host: string, port: int, host': string, port': int)
    ensures HeadsApiFree([ApiInbound(host', port')] + XrayInbounds(ibs), ApiInbound(host, port), "tag")
       <==> host == host' && port == port' && forall ib | ib in ibs :: ib.tag != "api"
  {
    var items := [ApiInbound(host', port')] + XrayInbounds(ibs);
    assert items[1..] == XrayInbounds(ibs);
    XrayInboundsApiFree(ibs);
    if items[0] == ApiInbound(host, port) {
      ApiInboundInjective(host, port, host', port');
    }
  }

  /** Injection leaves the built configuration alone exactly when the node's API address is the default
      one and no inbound of the node uses the reserved tag. */
  lemma BuildIsFixpointIff(st: State, node: NodeId, host: string, port: int)
    ensures Injected(Build(st, node), host, port) == Build(st, node)
       <==> host == DEFAULT_HOST && port == DEFAULT_PORT && forall ib | ib in ForNode(st, node) :: ib.tag != "api"
  {
    FixpointIff(Build(st, node), host, port);
    BuildHasStatsAPI(st, node, host, port);
    BuildLists(st, node);
    BuildHeadsApiFree(ForNode(st, node), host, port, DEFAULT_HOST, DEFAULT_PORT);
  }

  lemma XrayInboundsApiFree(ibs: seq<Inbound>)
    ensures NoneApi(XrayInbounds(ibs), "tag") <==> forall ib | ib in ibs :: ib.tag != "api"
  {
    XrayInboundsLength(ibs);
    forall i | 0 <= i < |ibs|
      ensures XrayInbounds(ibs)[i] in XrayInbounds(ibs)
      ensures HasString(XrayInbounds(ibs)[i], "tag", "api") <==> ibs[i].tag == "api"
    {
      XrayInboundsAt(ibs, i);
      XrayInboundTag(ibs[i], "api");
    }
  }
}
