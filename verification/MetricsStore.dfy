/** The metrics store of the panel (panel/panel-backend/internal/metrics/store.go): the sample table,
    the write throttle kept in memory, retention. Times are nanoseconds, stamps unix seconds. */
module MetricsStore {
  import opened Prelude

  type NodeId = string
  type Nanos = int

  const SECOND: Nanos := 1000000000
  const HOUR: Nanos := 3600 * SECOND
  const MIN_WRITE_INTERVAL := 25
  const DEFAULT_RETENTION_HOURS := 24

  /** The stored gauges; counters are integers, percentages and load are floats. */
  datatype Metrics = Metrics(cpu: real, mem: real, disk: real, load1: real, netUp: int, netDown: int,
                             tcp: int, udp: int, xrayRunning: bool, xrayUptime: int, xrayGoroutines: int,
                             xrayMem: int, xrayUp: int, xrayDown: int)

  datatype Sample = Sample(id: nat, node: NodeId, ts: int, metrics: Metrics)

  /** `Time.Unix`: whole seconds, rounding down. */
  function Unix(t: Nanos): int {
    t / SECOND
  }

  /** Rows are in insertion order; nextId is the table's auto-increment counter. */
  datatype State = State(rows: seq<Sample>, nextId: nat, lastWrite: map<NodeId, int>, retention: Nanos)

  datatype Command =
    | Record(node: NodeId, metrics: Metrics, now: Nanos, inserted: bool)
    | DeleteNode(node: NodeId)
    | SetRetention(hours: int)
    | Cleanup(now: Nanos)
    | Restart(retentionHours: int)

  predicate Throttled(st: State, node: NodeId, now: Nanos) {
    node in st.lastWrite && Unix(now) - st.lastWrite[node] < MIN_WRITE_INTERVAL
  }

  function RetentionOf(hours: int): Nanos {
    (if hours < 1 then DEFAULT_RETENTION_HOURS else hours) * HOUR
  }

  function OfOtherNodes(rows: seq<Sample>, node: NodeId): seq<Sample> {
    if rows == [] then []
    else (if rows[0].node == node then [] else [rows[0]]) + OfOtherNodes(rows[1..], node)
  }

  function NotBefore(rows: seq<Sample>, cutoff: int): seq<Sample> {
    if rows == [] then []
    else (if rows[0].ts < cutoff then [] else [rows[0]]) + NotBefore(rows[1..], cutoff)
  }

  /** `inserted` tells whether the database took the row; the throttle is set before that. */
  function Apply(st: State, c: Command): State {
    match c
    case Record(node, metrics, now, inserted) =>
      if Throttled(st, node, now) then st
      else
        var throttled := st.(lastWrite := st.lastWrite[node := Unix(now)]);
        if inserted
        then throttled.(rows := st.rows + [Sample(st.nextId, node, Unix(now), metrics)], nextId := st.nextId + 1)
        else throttled
    case DeleteNode(node) => st.(lastWrite := st.lastWrite - {node}, rows := OfOtherNodes(st.rows, node))
    case SetRetention(hours) => st.(retention := RetentionOf(hours))
    case Cleanup(now) => st.(rows := NotBefore(st.rows, Unix(now - st.retention)))
    case Restart(hours) => st.(lastWrite := map[], retention := RetentionOf(hours))
  }

  class Store {
    var rows: seq<Sample>
    var nextId: nat
    var lastWrite: map<NodeId, int>
    var retention: Nanos

    ghost function Abstract(): State
      reads this
    {
      State(rows, nextId, lastWrite, retention)
    }

    /** A process start: the table persists, the throttle is empty. */
    constructor Open(rows: seq<Sample>, nextId: nat, retentionHours: int)
      ensures forall before: State | before.rows == rows && before.nextId == nextId ::
                Abstract() == Apply(before, Restart(retentionHours))
      ensures this.rows == rows && this.nextId == nextId && lastWrite == map[]
      ensures retention == (if retentionHours > 0 then retentionHours else 24) * 3600000000000
    {
      this.rows, this.nextId, lastWrite := rows, nextId, map[];
      retention := if retentionHours > 0 then retentionHours * HOUR else DEFAULT_RETENTION_HOURS * HOUR;
    }

    method RecordSample(node: NodeId, metrics: Metrics, clock: Nanos, inserted: bool)
      modifies this
      ensures Abstract() == Apply(old(Abstract()), Record(node, metrics, clock, inserted))
      ensures var early := node in old(lastWrite) && Unix(clock) - old(lastWrite)[node] < 25;
              && (early ==> lastWrite == old(lastWrite) && rows == old(rows))
              && (!early ==> && lastWrite == old(lastWrite)[node := Unix(clock)]
                             && rows == old(rows)
                                     + if inserted then [Sample(old(nextId), node, Unix(clock), metrics)] else [])
    {
      var now := Unix(clock);
      if node in lastWrite && now - lastWrite[node] < MIN_WRITE_INTERVAL {
        return;
      }
      lastWrite := lastWrite[node := now];
      if inserted {
        rows := rows + [Sample(nextId, node, now, metrics)];
        nextId := nextId + 1;
      }
    }

    method DropNode(node: NodeId)
      modifies this
      ensures Abstract() == Apply(old(Abstract()), DeleteNode(node))
      ensures node !in lastWrite && forall r :: r in rows <==> r in old(rows) && r.node != node
    {
      OfOtherNodesFacts(rows, node, {});
      lastWrite := lastWrite - {node};
      rows := OfOtherNodes(rows, node);
    }

    method UpdateRetention(hours: int)
      modifies `retention
      ensures Abstract() == Apply(old(Abstract()), SetRetention(hours))
      ensures retention == (if hours < 1 then 24 else hours) * 3600000000000
    {
      retention := (if hours < 1 then 24 else hours) * HOUR;
    }

    method RemoveOld(now: Nanos)
      modifies `rows
      ensures Abstract() == Apply(old(Abstract()), Cleanup(now))
      ensures forall r :: r in rows <==> r in old(rows) && Unix(now - retention) <= r.ts
    {
      NotBeforeFacts(rows, Unix(now - retention), {});
      var cutoff := Unix(now - retention);
      rows := NotBefore(rows, cutoff);
    }
  }

  // ---------- spacing over whole runs ----------

  /** Process lifetimes are told apart by the id counter at each start: `boots` holds the first id every
      start could hand out. Two rows are of one lifetime when both come from a recorded one and no start
      lies between them. */
  predicate SameLifetime(boots: set<nat>, i: nat, j: nat) {
    (exists b :: b in boots && b <= i) && forall b | b in boots :: b <= i <==> b <= j
  }

  /** The later insertion is the later stamp, by 25 seconds at least. */
  predicate Apart(a: Sample, b: Sample) {
    a.ts + MIN_WRITE_INTERVAL <= b.ts
  }

  predicate SpacedPair(a: Sample, b: Sample, boots: set<nat>) {
    a.node == b.node && SameLifetime(boots, a.id, b.id) ==> Apart(a, b)
  }

  ghost predicate Spaced(rows: seq<Sample>, boots: set<nat>) {
    forall i, j | 0 <= i < j < |rows| :: SpacedPair(rows[i], rows[j], boots)
  }

  /** The row was written by the running process. */
  predicate Recent(boots: set<nat>, id: nat) {
    boots != {} && forall b | b in boots :: b <= id
  }

  ghost predicate Throttles(rows: seq<Sample>, lastWrite: map<NodeId, int>, boots: set<nat>) {
    forall r | r in rows && Recent(boots, r.id) :: r.node in lastWrite && r.ts <= lastWrite[r.node]
  }

  ghost predicate Inv(st: State, boots: set<nat>) {
    && (forall b | b in boots :: b <= st.nextId)
    && (forall r | r in st.rows :: r.id < st.nextId)
    && Spaced(st.rows, boots)
    && Throttles(st.rows, st.lastWrite, boots)
  }

  lemma {:induction false} OfOtherNodesFacts(rows: seq<Sample>, node: NodeId, boots: set<nat>)
    ensures forall r :: r in OfOtherNodes(rows, node) <==> r in rows && r.node != node
    ensures Spaced(rows, boots) ==> Spaced(OfOtherNodes(rows, node), boots)
  {
    if rows != [] {
      OfOtherNodesFacts(rows[1..], node, boots);
      ConsFacts(rows, OfOtherNodes(rows[1..], node), boots);
    }
  }

  lemma {:induction false} NotBeforeFacts(rows: seq<Sample>, cutoff: int, boots: set<nat>)
    ensures forall r :: r in NotBefore(rows, cutoff) <==> r in rows && r.ts >= cutoff
    ensures Spaced(rows, boots) ==> Spaced(NotBefore(rows, cutoff), boots)
  {
    if rows != [] {
      NotBeforeFacts(rows[1..], cutoff, boots);
      ConsFacts(rows, NotBefore(rows[1..], cutoff), boots);
    }
  }

  lemma ConsFacts(rows: seq<Sample>, rest: seq<Sample>, boots: set<nat>)
    requires rows != [] && forall r | r in rest :: r in rows[1..]
    ensures forall r :: r in rows <==> r == rows[0] || r in rows[1..]
    ensures Spaced(rows, boots) ==> Spaced(rows[1..], boots)
    ensures Spaced(rows, boots) && Spaced(rest, boots) ==> Spaced([rows[0]] + rest, boots)
  {
    assert rows == [rows[0]] + rows[1..];
    if Spaced(rows, boots) && Spaced(rest, boots) {
      var all := [rows[0]] + rest;
      forall i, j | 0 <= i < j < |all|
        ensures SpacedPair(all[i], all[j], boots)
      {
        assert all[j] in rows[1..];
        if i == 0 {
          var k :| 0 <= k < |rows[1..]| && rows[1..][k] == all[j];
          assert SpacedPair(rows[0], rows[k + 1], boots);
        }
      }
    }
  }

  /** The starts a run adds to those before it. */
  function BootsAfter(st: State, c: Command, boots: set<nat>): set<nat> {
    if c.Restart? then boots + {st.nextId} else boots
  }

  lemma RecordKeepsInv(st: State, c: Command, boots: set<nat>)
    requires Inv(st, boots) && c.Record?
    ensures Inv(Apply(st, c), boots)
  {
    if !Throttled(st, c.node, c.now) && c.inserted {
      var added := Sample(st.nextId, c.node, Unix(c.now), c.metrics);
      forall i | 0 <= i < |st.rows|
        ensures SpacedPair(st.rows[i], added, boots)
      {
        assert st.rows[i] in st.rows;
        if SameLifetime(boots, st.rows[i].id, added.id) {
          assert Recent(boots, st.rows[i].id);
        }
      }
    }
  }

  /** A start: no row is of the new lifetime yet, and the earlier lifetimes stay what they were. */
  lemma RestartKeepsInv(st: State, hours: int, boots: set<nat>)
    requires Inv(st, boots)
    ensures Inv(Apply(st, Restart(hours)), boots + {st.nextId})
  {
    var boots' := boots + {st.nextId};
    assert st.nextId in boots';
    forall i, j | 0 <= i < j < |st.rows|
      ensures SpacedPair(st.rows[i], st.rows[j], boots')
    {
      var a, b := st.rows[i], st.rows[j];
      assert a in st.rows && b in st.rows;
      if SameLifetime(boots', a.id, b.id) {
        assert forall x | x in boots :: x in boots';
        assert SameLifetime(boots, a.id, b.id);
      }
      assert SpacedPair(a, b, boots);
    }
  }

  lemma StepKeepsInv(st: State, c: Command, boots: set<nat>)
    requires Inv(st, boots)
    ensures Inv(Apply(st, c), BootsAfter(st, c, boots))
  {
    match c
    case Record(_, _, _, _) => RecordKeepsInv(st, c, boots);
    case DeleteNode(node) => OfOtherNodesFacts(st.rows, node, boots);
    case SetRetention(_) =>
    case Cleanup(now) => NotBeforeFacts(st.rows, Unix(now - st.retention), boots);
    case Restart(hours) => RestartKeepsInv(st, hours, boots);
  }

  function Run(st: State, cs: seq<Command>): State
    decreases |cs|
  {
    if cs == [] then st else Run(Apply(st, cs[0]), cs[1..])
  }

  function Boots(st: State, cs: seq<Command>, boots: set<nat>): set<nat>
    decreases |cs|
  {
    if cs == [] then boots else Boots(Apply(st, cs[0]), cs[1..], BootsAfter(st, cs[0], boots))
  }

  lemma {:induction false} RunKeepsInv(st: State, cs: seq<Command>, boots: set<nat>)
    requires Inv(st, boots)
    ensures Inv(Run(st, cs), Boots(st, cs, boots))
    decreases |cs|
  {
    if cs != [] {
      StepKeepsInv(st, cs[0], boots);
      RunKeepsInv(Apply(st, cs[0]), cs[1..], BootsAfter(st, cs[0], boots));
    }
  }

  lemma StartHasSpacing(rows: seq<Sample>, nextId: nat, retention: Nanos)
    requires forall r | r in rows :: r.id < nextId
    ensures Inv(State(rows, nextId, map[], retention), {nextId})
  {
  }

  /** Over every run with any number of restarts, from any table, and whatever the clock does, going
      backwards included: stored samples of one node written in one process lifetime are at least 25
      seconds apart, in every lifetime. */
  lemma RunKeepsSpacing(st: State, cs: seq<Command>)
    requires forall r | r in st.rows :: r.id < st.nextId
    ensures Inv(Run(st, cs), Boots(st, cs, {}))
    ensures var rows, boots := Run(st, cs).rows, Boots(st, cs, {});
            forall i, j | && 0 <= i < j < |rows| && rows[i].node == rows[j].node
                          && SameLifetime(boots, rows[i].id, rows[j].id) ::
              Apart(rows[i], rows[j])
  {
    RunKeepsInv(st, cs, {});
    var rows, boots := Run(st, cs).rows, Boots(st, cs, {});
    forall i, j | 0 <= i < j < |rows| && rows[i].node == rows[j].node && SameLifetime(boots, rows[i].id, rows[j].id)
      ensures Apart(rows[i], rows[j])
    {
      assert SpacedPair(rows[i], rows[j], boots);
    }
  }

  // ---------- what is stored ----------

  /** Whole seconds, rounded down. */
  lemma UnixSeconds(t: Nanos)
    ensures Unix(t) * 1000000000 <= t < (Unix(t) + 1) * 1000000000
  {
  }

  /** The throttle opens again: a record is stored, exactly as reported, if and only if the node has no last
      write or the clock is at least 25 seconds after it. */
  lemma RecordStoredIff(st: State, node: NodeId, m: Metrics, now: Nanos)
    ensures var after := Apply(st, Record(node, m, now, true)).rows;
            if node !in st.lastWrite || st.lastWrite[node] + 25 <= Unix(now)
            then after == st.rows + [Sample(st.nextId, node, Unix(now), m)]
            else after == st.rows
  {
  }

  /** Records the database takes, those of one node at least 25 seconds apart. */
  ghost predicate Unhurried(st: State, cs: seq<Command>) {
    && (forall i | 0 <= i < |cs| :: cs[i].Record? && cs[i].inserted)
    && (forall i | 0 <= i < |cs| && cs[i].node in st.lastWrite :: st.lastWrite[cs[i].node] + 25 <= Unix(cs[i].now))
    && forall i, j | 0 <= i < j < |cs| && cs[i].node == cs[j].node :: Unix(cs[i].now) + 25 <= Unix(cs[j].now)
  }

  /** Nothing is lost by the throttle: records of one node at least 25 seconds apart are all stored, in
      order, whatever other nodes report in between. */
  lemma {:induction false} UnhurriedRecordsStored(st: State, cs: seq<Command>)
    requires Unhurried(st, cs)
    ensures var rows := Run(st, cs).rows;
            && |rows| == |st.rows| + |cs| && rows[..|st.rows|] == st.rows
            && forall i | 0 <= i < |cs| ::
                 rows[|st.rows| + i] == Sample(st.nextId + i, cs[i].node, Unix(cs[i].now), cs[i].metrics)
    decreases |cs|
  {
    if cs != [] {
      var c := cs[0];
      var next := Apply(st, c);
      RecordStoredIff(st, c.node, c.metrics, c.now);
      UnhurriedTail(st, cs);
      UnhurriedRecordsStored(next, cs[1..]);
      var rows := Run(next, cs[1..]).rows;
      assert rows[..|st.rows|] == next.rows[..|st.rows|] == st.rows;
      forall i | 0 <= i < |cs|
        ensures rows[|st.rows| + i] == Sample(st.nextId + i, cs[i].node, Unix(cs[i].now), cs[i].metrics)
      {
        if i == 0 {
          assert rows[..|next.rows|][|st.rows|] == next.rows[|st.rows|];
        } else {
          assert cs[1..][i - 1] == cs[i];
          assert rows[|next.rows| + (i - 1)] == rows[|st.rows| + i];
        }
      }
    }
  }

  lemma UnhurriedTail(st: State, cs: seq<Command>)
    requires Unhurried(st, cs) && cs != []
    ensures Unhurried(Apply(st, cs[0]), cs[1..]) && Apply(st, cs[0]).nextId == st.nextId + 1
  {
  }

  // ---------- spacing across restarts ----------

  /** The latest stamp stored for a node. */
  function LatestStamp(rows: seq<Sample>, node: NodeId): Option<int> {
    if rows == [] then None
    else
      var rest, r := LatestStamp(rows[1..], node), rows[0];
      if r.node != node then rest
      else if rest.Some? && rest.value > r.ts then rest
      else Some(r.ts)
  }

  lemma {:induction false} LatestStampFacts(rows: seq<Sample>, node: NodeId)
    ensures LatestStamp(rows, node).None? <==> forall r | r in rows :: r.node != node
    ensures LatestStamp(rows, node).Some? ==>
              && (exists r :: r in rows && r.node == node && r.ts == LatestStamp(rows, node).value)
              && forall r | r in rows && r.node == node :: r.ts <= LatestStamp(rows, node).value
  {
    if rows != [] {
      LatestStampFacts(rows[1..], node);
      assert rows == [rows[0]] + rows[1..];
      assert rows[0] in rows;
    }
  }

  /** The clock is at least 25 seconds after everything stored for the node. */
  predicate ClockAfterStored(st: State, node: NodeId, now: Nanos) {
    var latest := LatestStamp(st.rows, node);
    latest.None? || latest.value + MIN_WRITE_INTERVAL <= Unix(now)
  }

  ghost predicate AllSpaced(rows: seq<Sample>) {
    forall i, j | 0 <= i < j < |rows| && rows[i].node == rows[j].node :: Apart(rows[i], rows[j])
  }

  /** The first record of a node after a start is always taken. Over a table whose samples are all spaced,
      lifetimes aside, they stay so if and only if its clock is at least 25 seconds after the latest stamp
      stored for the node. */
  lemma FirstRecordSpacedIff(st: State, hours: int, node: NodeId, m: Metrics, now: Nanos)
    requires AllSpaced(st.rows)
    ensures var st' := Run(st, [Restart(hours), Record(node, m, now, true)]);
            && st'.rows == st.rows + [Sample(st.nextId, node, Unix(now), m)]
            && (AllSpaced(st'.rows) <==> ClockAfterStored(st, node, now))
  {
    var started, added := Apply(st, Restart(hours)), Sample(st.nextId, node, Unix(now), m);
    var record := Record(node, m, now, true);
    assert [Restart(hours), record][1..] == [record] && [record][1..] == [];
    assert Run(started, [record]) == Apply(started, record);
    AppendSpacedIff(st.rows, added);
    LatestStampFacts(st.rows, node);
  }

  lemma AppendSpacedIff(rows: seq<Sample>, added: Sample)
    requires AllSpaced(rows)
    ensures AllSpaced(rows + [added]) <==> forall r | r in rows && r.node == added.node :: Apart(r, added)
  {
    var all := rows + [added];
    if AllSpaced(all) {
      forall r | r in rows && r.node == added.node
        ensures Apart(r, added)
      {
        var i :| 0 <= i < |rows| && rows[i] == r;
        assert all[i] == r && all[|rows|] == added;
      }
    } else {
      var i, j :| 0 <= i < j < |all| && all[i].node == all[j].node && !Apart(all[i], all[j]);
      assert j == |rows| && all[i] in rows;
    }
  }

  /** The first record of every node after every start comes 25 seconds after what is stored for it. */
  predicate StartsLate(st: State, cs: seq<Command>)
    decreases |cs|
  {
    if cs == [] then true
    else
      var c := cs[0];
      && (c.Record? && c.node !in st.lastWrite ==> ClockAfterStored(st, c.node, c.now))
      && StartsLate(Apply(st, c), cs[1..])
  }

  /** The throttle, where it is set, covers everything stored. */
  ghost predicate Covered(st: State) {
    && AllSpaced(st.rows)
    && forall r | r in st.rows && r.node in st.lastWrite :: r.ts <= st.lastWrite[r.node]
  }

  lemma RecordKeepsCovered(st: State, c: Command)
    requires Covered(st) && c.Record? && (c.node !in st.lastWrite ==> ClockAfterStored(st, c.node, c.now))
    ensures Covered(Apply(st, c))
  {
    if !Throttled(st, c.node, c.now) {
      var added := Sample(st.nextId, c.node, Unix(c.now), c.metrics);
      LatestStampFacts(st.rows, c.node);
      AppendSpacedIff(st.rows, added);
    }
  }

  lemma {:induction false} AllSpacedKept(rows: seq<Sample>, node: NodeId, cutoff: int)
    requires AllSpaced(rows)
    ensures AllSpaced(OfOtherNodes(rows, node)) && AllSpaced(NotBefore(rows, cutoff))
  {
    if rows != [] {
      AllSpacedKept(rows[1..], node, cutoff);
      OfOtherNodesFacts(rows[1..], node, {});
      NotBeforeFacts(rows[1..], cutoff, {});
      AllSpacedCons(rows, OfOtherNodes(rows[1..], node));
      AllSpacedCons(rows, NotBefore(rows[1..], cutoff));
    }
  }

  lemma AllSpacedCons(rows: seq<Sample>, rest: seq<Sample>)
    requires rows != [] && AllSpaced(rows) && AllSpaced(rest) && forall r | r in rest :: r in rows[1..]
    ensures AllSpaced([rows[0]] + rest)
  {
    forall j | 0 <= j < |rest| && rest[j].node == rows[0].node
      ensures Apart(rows[0], rest[j])
    {
      assert rest[j] in rows[1..];
      var k :| 0 <= k < |rows[1..]| && rows[1..][k] == rest[j];
      assert rows[k + 1] == rest[j];
    }
  }

  lemma StepKeepsCovered(st: State, c: Command)
    requires Covered(st) && (c.Record? && c.node !in st.lastWrite ==> ClockAfterStored(st, c.node, c.now))
    ensures Covered(Apply(st, c))
  {
    match c
    case Record(_, _, _, _) => RecordKeepsCovered(st, c);
    case DeleteNode(node) =>
      AllSpacedKept(st.rows, node, 0);
      OfOtherNodesFacts(st.rows, node, {});
    case SetRetention(_) =>
    case Cleanup(now) =>
      AllSpacedKept(st.rows, "", Unix(now - st.retention));
      NotBeforeFacts(st.rows, Unix(now - st.retention), {});
    case Restart(_) =>
  }

  /** If the first record of every node after every start is late enough, restarts do not matter: all
      samples of a node are at least 25 seconds apart over the whole run. By `FirstRecordSpacedIff` the
      condition cannot be dropped for any start. */
  lemma {:induction false} LateStartsKeepSpacing(st: State, cs: seq<Command>)
    requires Covered(st) && StartsLate(st, cs)
    ensures AllSpaced(Run(st, cs).rows)
    decreases |cs|
  {
    if cs != [] {
      StepKeepsCovered(st, cs[0]);
      LateStartsKeepSpacing(Apply(st, cs[0]), cs[1..]);
    }
  }

  /** A restart within the interval: two samples of one node in one second. */
  lemma RestartForgetsThrottle(node: NodeId, m: Metrics)
    ensures var r := Record(node, m, 100 * SECOND, true);
            var rows := Run(State([], 0, map[], HOUR), [r, Restart(1), r]).rows;
            |rows| == 2 && rows[0].node == rows[1].node == node && rows[0].ts == rows[1].ts
  {
    var r := Record(node, m, 100 * SECOND, true);
    var st := Apply(State([], 0, map[], HOUR), r);
    assert [r, Restart(1), r][1..] == [Restart(1), r];
    assert st.rows == [Sample(0, node, 100, m)];
    assert AllSpaced(st.rows);
    FirstRecordSpacedIff(st, 1, node, m, 100 * SECOND);
  }
}
