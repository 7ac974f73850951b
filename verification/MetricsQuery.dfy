/** `Query` of the metrics store (panel/panel-backend/internal/metrics/store.go): raw samples for
    windows up to an hour, one averaged row per time bucket for longer ones. Reals stand for the
    floats of AVG. */
module MetricsQuery {
  import opened MetricsStore

  const DEFAULT_QUERY_LIMIT := 1000

  // ---------- rows of the window ----------

  predicate InWindow(r: Sample, node: NodeId, from: int, to: int) {
    r.node == node && from <= r.ts <= to
  }

  function Matching(rows: seq<Sample>, node: NodeId, from: int, to: int): seq<Sample> {
    if rows == [] then []
    else (if InWindow(rows[0], node, from, to) then [rows[0]] else []) + Matching(rows[1..], node, from, to)
  }

  /** ORDER BY timestamp, ties in insertion order. */
  function Inserted(r: Sample, sorted: seq<Sample>): seq<Sample> {
    if sorted == [] || r.ts <= sorted[0].ts then [r] + sorted
    else [sorted[0]] + Inserted(r, sorted[1..])
  }

  function SortedByTime(rows: seq<Sample>): seq<Sample> {
    if rows == [] then [] else Inserted(rows[0], SortedByTime(rows[1..]))
  }

  function Limited<T>(rows: seq<T>, limit: int): (r: seq<T>)
    requires limit > 0
    ensures r <= rows && |r| == if |rows| <= limit then |rows| else limit
  {
    if |rows| <= limit then rows else rows[..limit]
  }

  // ---------- buckets ----------

  /** SQL integer division truncates towards zero. */
  function TruncDiv(x: int, b: int): int
    requires b > 0
  {
    if x >= 0 then x / b else -((-x) / b)
  }

  function BucketWidth(span: Nanos): (b: int)
    ensures b >= 30
  {
    var b := span / SECOND / 300;
    if b < 30 then 30 else b
  }

  function BucketRows(rows: seq<Sample>, b: int, k: int): seq<Sample>
    requires b > 0
  {
    if rows == [] then []
    else (if TruncDiv(rows[0].ts, b) == k then [rows[0]] else []) + BucketRows(rows[1..], b, k)
  }

  function WithKey(keys: seq<int>, k: int): seq<int> {
    if keys == [] || k < keys[0] then [k] + keys
    else if k == keys[0] then keys
    else [keys[0]] + WithKey(keys[1..], k)
  }

  /** The groups of the query, in ascending order. */
  function Keys(rows: seq<Sample>, b: int): seq<int>
    requires b > 0
  {
    if rows == [] then [] else WithKey(Keys(rows[1..], b), TruncDiv(rows[0].ts, b))
  }

  // ---------- aggregates ----------

  /** The averaged columns; `One` counts rows. */
  datatype Column = One | Cpu | Mem | Disk | Load1 | NetUp | NetDown | Tcp | Udp
                  | XrayUptime | XrayGoroutines | XrayMem | XrayUp | XrayDown

  function ColumnOf(m: Metrics, c: Column): real {
    match c
    case One => 1.0
    case Cpu => m.cpu
    case Mem => m.mem
    case Disk => m.disk
    case Load1 => m.load1
    case NetUp => m.netUp as real
    case NetDown => m.netDown as real
    case Tcp => m.tcp as real
    case Udp => m.udp as real
    case XrayUptime => m.xrayUptime as real
    case XrayGoroutines => m.xrayGoroutines as real
    case XrayMem => m.xrayMem as real
    case XrayUp => m.xrayUp as real
    case XrayDown => m.xrayDown as real
  }

  function SumOf(rows: seq<Sample>, c: Column): real {
    if rows == [] then 0.0 else ColumnOf(rows[0].metrics, c) + SumOf(rows[1..], c)
  }

  function Avg(rows: seq<Sample>, c: Column): real
    requires rows != []
  {
    SumOf(rows, c) / |rows| as real
  }

  /** CAST(... AS INTEGER): towards zero. */
  function Trunc(x: real): int {
    if x >= 0.0 then x.Floor else -((-x).Floor)
  }

  /** ROUND(..., 2): half away from zero. */
  function Round2(x: real): real {
    (if x >= 0.0 then (x * 100.0 + 0.5).Floor else -((-x * 100.0 + 0.5).Floor)) as real / 100.0
  }

  predicate AnyRunning(rows: seq<Sample>) {
    exists i :: 0 <= i < |rows| && rows[i].metrics.xrayRunning
  }

  function Aggregate(rows: seq<Sample>): Metrics
    requires rows != []
  {
    Metrics(Round2(Avg(rows, Cpu)), Round2(Avg(rows, Mem)), Round2(Avg(rows, Disk)), Round2(Avg(rows, Load1)),
            Trunc(Avg(rows, NetUp)), Trunc(Avg(rows, NetDown)), Trunc(Avg(rows, Tcp)), Trunc(Avg(rows, Udp)),
            AnyRunning(rows), Trunc(Avg(rows, XrayUptime)), Trunc(Avg(rows, XrayGoroutines)),
            Trunc(Avg(rows, XrayMem)), Trunc(Avg(rows, XrayUp)), Trunc(Avg(rows, XrayDown)))
  }

  /** Every group has a row behind it. */
  ghost predicate AllInhabited(rows: seq<Sample>, b: int, keys: seq<int>)
    requires b > 0
  {
    forall k | k in keys :: BucketRows(rows, b, k) != []
  }

  function Summaries(node: NodeId, rows: seq<Sample>, b: int, keys: seq<int>): (r: seq<Sample>)
    requires b > 0 && AllInhabited(rows, b, keys)
    ensures |r| == |keys|
    ensures forall i | 0 <= i < |keys| ::
              r[i] == Sample(0, node, keys[i] * b, Aggregate(BucketRows(rows, b, keys[i])))
  {
    seq(|keys|, i requires 0 <= i < |keys| => Sample(0, node, keys[i] * b, Aggregate(BucketRows(rows, b, keys[i]))))
  }

  // ---------- the query ----------

  function RawRows(rows: seq<Sample>, node: NodeId, from: Nanos, to: Nanos): seq<Sample> {
    SortedByTime(Matching(rows, node, Unix(from), Unix(to)))
  }

  function BucketedRows(rows: seq<Sample>, node: NodeId, from: Nanos, to: Nanos): seq<Sample> {
    var b, matching := BucketWidth(to - from), Matching(rows, node, Unix(from), Unix(to));
    KeysFacts(matching, b);
    Summaries(node, matching, b, Keys(matching, b))
  }

  function Query(rows: seq<Sample>, node: NodeId, from: Nanos, to: Nanos, limit: int): seq<Sample> {
    var max := if limit <= 0 then DEFAULT_QUERY_LIMIT else limit;
    Limited(if to - from <= HOUR then RawRows(rows, node, from, to) else BucketedRows(rows, node, from, to), max)
  }

  // ---------- groups ----------

  ghost predicate Increasing(keys: seq<int>) {
    forall i, j | 0 <= i < j < |keys| :: keys[i] < keys[j]
  }

  lemma IncreasingCons(k: int, keys: seq<int>)
    requires Increasing(keys) && forall x | x in keys :: k < x
    ensures Increasing([k] + keys)
  {
    forall i, j | 0 <= i < j < |keys| + 1
      ensures ([k] + keys)[i] < ([k] + keys)[j]
    {
      assert keys[j - 1] in keys;
    }
  }

  lemma {:induction false} WithKeyFacts(keys: seq<int>, k: int)
    requires Increasing(keys)
    ensures Increasing(WithKey(keys, k))
    ensures forall x :: x in WithKey(keys, k) <==> x == k || x in keys
  {
    if keys == [] {
    } else if k < keys[0] {
      IncreasingCons(k, keys);
    } else if k > keys[0] {
      WithKeyFacts(keys[1..], k);
      IncreasingCons(keys[0], WithKey(keys[1..], k));
    }
  }

  /** The groups are strictly increasing and are exactly the buckets that hold a row. */
  lemma {:induction false} KeysFacts(rows: seq<Sample>, b: int)
    requires b > 0
    ensures Increasing(Keys(rows, b))
    ensures forall k :: k in Keys(rows, b) <==> exists r :: r in rows && TruncDiv(r.ts, b) == k
    ensures AllInhabited(rows, b, Keys(rows, b))
  {
    if rows != [] {
      KeysFacts(rows[1..], b);
      var k0 := TruncDiv(rows[0].ts, b);
      WithKeyFacts(Keys(rows[1..], b), k0);
      assert rows == [rows[0]] + rows[1..];
      assert rows[0] in rows;
      forall k | k in Keys(rows, b)
        ensures BucketRows(rows, b, k) != []
        ensures exists r :: r in rows && TruncDiv(r.ts, b) == k
      {
        if k != k0 {
          assert k in Keys(rows[1..], b);
          var r :| r in rows[1..] && TruncDiv(r.ts, b) == k;
          assert r in rows;
        }
      }
      forall r | r in rows
        ensures TruncDiv(r.ts, b) in Keys(rows, b)
      {
        if r != rows[0] { assert r in rows[1..]; }
      }
    }
  }

  /** Stamps are strictly increasing multiples of the bucket width: one row for each bucket that holds
      a sample of the window. */
  lemma SummariesStamps(rows: seq<Sample>, node: NodeId, from: Nanos, to: Nanos)
    ensures var b, r := BucketWidth(to - from), BucketedRows(rows, node, from, to);
            var keys := Keys(Matching(rows, node, Unix(from), Unix(to)), b);
            && |r| == |keys|
            && (forall i | 0 <= i < |r| :: r[i].ts == keys[i] * b && r[i].node == node)
            && (forall i, j | 0 <= i < j < |r| :: r[i].ts + b <= r[j].ts)
  {
    var b, matching := BucketWidth(to - from), Matching(rows, node, Unix(from), Unix(to));
    var keys, r := Keys(matching, b), BucketedRows(rows, node, from, to);
    KeysFacts(matching, b);
    forall i, j | 0 <= i < j < |r|
      ensures r[i].ts + b <= r[j].ts
    {
      MultipleStep(keys[i], keys[j], b);
    }
  }

  lemma {:induction false} MultipleStep(k: int, k': int, b: int)
    requires b > 0 && k < k'
    ensures k * b + b <= k' * b
    decreases k' - k
  {
    assert k' * b == (k' - 1) * b + b;
    if k < k' - 1 {
      MultipleStep(k, k' - 1, b);
    }
  }

  // ---------- raw windows ----------

  ghost predicate OrderedByTime(rows: seq<Sample>) {
    forall i, j | 0 <= i < j < |rows| :: rows[i].ts <= rows[j].ts
  }

  lemma OrderedCons(r: Sample, rows: seq<Sample>)
    requires OrderedByTime(rows) && forall x | x in rows :: r.ts <= x.ts
    ensures OrderedByTime([r] + rows)
  {
    forall i, j | 0 <= i < j < |rows| + 1
      ensures ([r] + rows)[i].ts <= ([r] + rows)[j].ts
    {
      assert rows[j - 1] in rows;
    }
  }

  lemma {:induction false} InsertedMembers(r: Sample, sorted: seq<Sample>)
    ensures multiset(Inserted(r, sorted)) == multiset{r} + multiset(sorted)
  {
    if sorted != [] && r.ts > sorted[0].ts {
      InsertedMembers(r, sorted[1..]);
      assert sorted == [sorted[0]] + sorted[1..];
    }
  }

  lemma {:induction false} InsertedOrder(r: Sample, sorted: seq<Sample>)
    requires OrderedByTime(sorted)
    ensures OrderedByTime(Inserted(r, sorted))
  {
    if sorted != [] && r.ts > sorted[0].ts {
      InsertedOrder(r, sorted[1..]);
      InsertedMembers(r, sorted[1..]);
      forall x | x in Inserted(r, sorted[1..])
        ensures sorted[0].ts <= x.ts
      {
        assert x in multiset(Inserted(r, sorted[1..]));
      }
      OrderedCons(sorted[0], Inserted(r, sorted[1..]));
    } else {
      OrderedCons(r, sorted);
    }
  }

  lemma {:induction false} SortedByTimeFacts(rows: seq<Sample>)
    ensures OrderedByTime(SortedByTime(rows))
    ensures multiset(SortedByTime(rows)) == multiset(rows)
  {
    if rows != [] {
      SortedByTimeFacts(rows[1..]);
      InsertedMembers(rows[0], SortedByTime(rows[1..]));
      InsertedOrder(rows[0], SortedByTime(rows[1..]));
      assert rows == [rows[0]] + rows[1..];
    }
  }

  lemma {:induction false} MatchingFacts(rows: seq<Sample>, node: NodeId, from: int, to: int, boots: set<nat>)
    ensures forall r :: r in Matching(rows, node, from, to) <==> r in rows && InWindow(r, node, from, to)
    ensures Spaced(rows, boots) ==> Spaced(Matching(rows, node, from, to), boots)
  {
    if rows != [] {
      MatchingFacts(rows[1..], node, from, to, boots);
      ConsFacts(rows, Matching(rows[1..], node, from, to), boots);
    }
  }

  /** The raw query answers exactly the rows of the window, in time order. */
  lemma RawRowsFacts(rows: seq<Sample>, node: NodeId, from: Nanos, to: Nanos)
    ensures OrderedByTime(RawRows(rows, node, from, to))
    ensures multiset(RawRows(rows, node, from, to)) == multiset(Matching(rows, node, Unix(from), Unix(to)))
    ensures forall r :: r in RawRows(rows, node, from, to)
                   <==> r in rows && r.node == node && Unix(from) <= r.ts <= Unix(to)
  {
    var matching := Matching(rows, node, Unix(from), Unix(to));
    SortedByTimeFacts(matching);
    MatchingFacts(rows, node, Unix(from), Unix(to), {});
    forall r
      ensures r in SortedByTime(matching) <==> r in matching
    {
      assert r in multiset(SortedByTime(matching)) <==> r in multiset(matching);
    }
  }

  lemma {:induction false} SpacingAddsUp(rows: seq<Sample>, boots: set<nat>, i: nat)
    requires i < |rows| && Spaced(rows, boots)
    requires forall j, k | 0 <= j < |rows| && 0 <= k < |rows| ::
               rows[j].node == rows[k].node && SameLifetime(boots, rows[j].id, rows[k].id)
    ensures rows[0].ts + MIN_WRITE_INTERVAL * i <= rows[i].ts
  {
    if i > 0 {
      SpacingAddsUp(rows, boots, i - 1);
      assert SpacedPair(rows[i - 1], rows[i], boots);
    }
  }

  /** While the node's rows all come from one process lifetime, whichever, a window of at most an hour holds at
      most 145 of them, so no limit from 145 on, the default included, cuts the answer. */
  lemma RawWindowBound(st: State, boots: set<nat>, node: NodeId, from: Nanos, to: Nanos, limit: int)
    requires Inv(st, boots) && to - from <= HOUR
    requires forall r, r' | r in st.rows && r' in st.rows && r.node == r'.node == node ::
               SameLifetime(boots, r.id, r'.id)
    ensures |RawRows(st.rows, node, from, to)| <= 145
    ensures limit <= 0 || limit >= 145 ==> Query(st.rows, node, from, to, limit) == RawRows(st.rows, node, from, to)
  {
    var matching := Matching(st.rows, node, Unix(from), Unix(to));
    MatchingFacts(st.rows, node, Unix(from), Unix(to), boots);
    RawRowsFacts(st.rows, node, from, to);
    assert |matching| == |RawRows(st.rows, node, from, to)| by {
      assert |multiset(matching)| == |multiset(RawRows(st.rows, node, from, to))|;
    }
    if matching != [] {
      var last := |matching| - 1;
      assert matching[0] in matching && matching[last] in matching;
      assert forall j | 0 <= j < |matching| :: matching[j] in matching;
      SpacingAddsUp(matching, boots, last);
      assert Unix(to) <= Unix(from) + 3600;
    }
  }

  // ---------- how many buckets ----------

  lemma TruncDivMonotone(x: int, y: int, b: int)
    requires b > 0 && x <= y
    ensures TruncDiv(x, b) <= TruncDiv(y, b)
  {
    if x >= 0 {
      DivMonotone(x, y, b);
    } else if y < 0 {
      DivMonotone(-y, -x, b);
    } else {
      DivMonotone(0, y, b);
      DivMonotone(0, -x, b);
    }
  }

  lemma DivBounds(x: int, b: int)
    requires b > 0
    ensures (x / b) * b <= x < (x / b) * b + b
  {
  }

  lemma PositiveFactor(x: int, b: int)
    requires b > 0 && x * b > 0
    ensures x > 0
  {
  }

  lemma QuotientOrder(p: int, q: int, b: int)
    requires b > 0 && p * b < q * b + b
    ensures p <= q
  {
    assert (q + 1 - p) * b == q * b + b - p * b;
    PositiveFactor(q + 1 - p, b);
  }

  lemma DivMonotone(x: int, y: int, b: int)
    requires b > 0 && x <= y
    ensures x / b <= y / b
  {
    DivBounds(x, b);
    DivBounds(y, b);
    QuotientOrder(x / b, y / b, b);
  }

  lemma TruncDivBounds(x: int, b: int)
    requires b > 0
    ensures var q := TruncDiv(x, b); if x >= 0 then q * b <= x < q * b + b else q * b - b < x <= q * b
  {
    if x >= 0 {
      DivBounds(x, b);
    } else {
      DivBounds(-x, b);
      var q := (-x) / b;
      assert (-q) * b == -(q * b);
    }
  }

  /** Stamps at most q widths apart lie in buckets at most q apart. */
  lemma BucketDistance(x: int, y: int, b: int, q: nat)
    requires b > 0 && x <= y <= x + q * b
    ensures TruncDiv(y, b) <= TruncDiv(x, b) + q
  {
    TruncDivBounds(x, b);
    TruncDivBounds(y, b);
    var kx, ky := TruncDiv(x, b), TruncDiv(y, b);
    assert (kx + q) * b == kx * b + q * b;
    QuotientOrder(ky, kx + q, b);
  }

  lemma {:induction false} IncreasingSpan(keys: seq<int>, i: nat)
    requires Increasing(keys) && i < |keys|
    ensures keys[0] + i <= keys[i]
  {
    if i > 0 {
      IncreasingSpan(keys, i - 1);
    }
  }

  /** 310 bucket widths cover every window, rounding and truncation included. */
  lemma WindowInWidths(from: Nanos, to: Nanos)
    requires to - from > HOUR
    ensures Unix(to) <= Unix(from) + 310 * BucketWidth(to - from)
  {
    var seconds := (to - from) / SECOND;
    assert Unix(to) - Unix(from) <= seconds + 1;
    assert seconds < 300 * (seconds / 300) + 300;
  }

  /** For every window longer than an hour the bucketed query yields at most 311 rows, so a limit from
      311 on, and the default of 1000, never cuts it. */
  lemma BucketedBound(rows: seq<Sample>, node: NodeId, from: Nanos, to: Nanos, limit: int)
    requires to - from > HOUR
    ensures |BucketedRows(rows, node, from, to)| <= 311
    ensures limit <= 0 || limit >= 311 ==> Query(rows, node, from, to, limit) == BucketedRows(rows, node, from, to)
  {
    var b, matching := BucketWidth(to - from), Matching(rows, node, Unix(from), Unix(to));
    var keys := Keys(matching, b);
    KeysFacts(matching, b);
    if keys != [] {
      var last := |keys| - 1;
      assert keys[0] in keys && keys[last] in keys;
      var first :| first in matching && TruncDiv(first.ts, b) == keys[0];
      var final :| final in matching && TruncDiv(final.ts, b) == keys[last];
      MatchingFacts(rows, node, Unix(from), Unix(to), {});
      WindowInWidths(from, to);
      TruncDivMonotone(Unix(from), first.ts, b);
      TruncDivMonotone(final.ts, Unix(to), b);
      BucketDistance(Unix(from), Unix(to), b, 310);
      IncreasingSpan(keys, last);
    }
  }

  // ---------- the summary against the rows ----------

  function SumOverKeys(keys: seq<int>, rows: seq<Sample>, b: int, c: Column): real
    requires b > 0
  {
    if keys == [] then 0.0 else SumOf(BucketRows(rows, b, keys[0]), c) + SumOverKeys(keys[1..], rows, b, c)
  }

  /** Adding one row adds its value once, if its bucket is among the groups. */
  lemma {:induction false} SumOverKeysCons(keys: seq<int>, rows: seq<Sample>, b: int, c: Column)
    requires b > 0 && rows != [] && Increasing(keys)
    ensures SumOverKeys(keys, rows, b, c)
         == SumOverKeys(keys, rows[1..], b, c)
            + (if TruncDiv(rows[0].ts, b) in keys then ColumnOf(rows[0].metrics, c) else 0.0)
  {
    if keys != [] {
      SumOverKeysCons(keys[1..], rows, b, c);
      var k0, rest := TruncDiv(rows[0].ts, b), BucketRows(rows[1..], b, keys[0]);
      assert keys == [keys[0]] + keys[1..];
      assert keys[0] !in keys[1..];
      if k0 == keys[0] {
        assert ([rows[0]] + rest)[1..] == rest;
      } else {
        assert BucketRows(rows, b, keys[0]) == rest;
      }
    }
  }

  lemma {:induction false} EmptyBucket(rows: seq<Sample>, b: int, k: int)
    requires b > 0 && forall r | r in rows :: TruncDiv(r.ts, b) != k
    ensures BucketRows(rows, b, k) == []
  {
    if rows != [] {
      assert rows[0] in rows;
      EmptyBucket(rows[1..], b, k);
    }
  }

  /** A group without rows does not change the total. */
  lemma {:induction false} SumOverWithKey(keys: seq<int>, k: int, rows: seq<Sample>, b: int, c: Column)
    requires b > 0 && Increasing(keys) && (k in keys || BucketRows(rows, b, k) == [])
    ensures SumOverKeys(WithKey(keys, k), rows, b, c) == SumOverKeys(keys, rows, b, c)
  {
    if keys == [] || k < keys[0] {
      if keys != [] {
        assert forall i | 0 <= i < |keys| :: keys[0] <= keys[i];
        assert k !in keys;
      }
      assert ([k] + keys)[1..] == keys;
    } else if k > keys[0] {
      SumOverWithKey(keys[1..], k, rows, b, c);
      var rest := WithKey(keys[1..], k);
      assert ([keys[0]] + rest)[1..] == rest;
    }
  }

  lemma ConserveStep(keys: seq<int>, rows: seq<Sample>, b: int, c: Column, k0: int)
    requires b > 0 && rows != [] && k0 == TruncDiv(rows[0].ts, b)
    requires Increasing(keys) && (k0 in keys || BucketRows(rows[1..], b, k0) == [])
    ensures SumOverKeys(WithKey(keys, k0), rows, b, c)
         == SumOverKeys(keys, rows[1..], b, c) + ColumnOf(rows[0].metrics, c)
  {
    WithKeyFacts(keys, k0);
    SumOverWithKey(keys, k0, rows[1..], b, c);
    SumOverKeysCons(WithKey(keys, k0), rows, b, c);
  }

  lemma NewKeyIsEmpty(rows: seq<Sample>, b: int, k: int)
    requires b > 0
    ensures k in Keys(rows, b) || BucketRows(rows, b, k) == []
    ensures Increasing(Keys(rows, b))
  {
    KeysFacts(rows, b);
    if k !in Keys(rows, b) {
      EmptyBucket(rows, b, k);
    }
  }

  /** Nothing is lost or counted twice: summed over the buckets, every column gives its total over the
      rows. For `One` this says that the bucket sizes add up to the number of matching rows. */
  lemma {:induction false} BucketsConserve(rows: seq<Sample>, b: int, c: Column)
    requires b > 0
    ensures SumOverKeys(Keys(rows, b), rows, b, c) == SumOf(rows, c)
  {
    if rows != [] {
      var k0 := TruncDiv(rows[0].ts, b);
      BucketsConserve(rows[1..], b, c);
      NewKeyIsEmpty(rows[1..], b, k0);
      ConserveStep(Keys(rows[1..], b), rows, b, c, k0);
    }
  }

  lemma {:induction false} CountIsLength(rows: seq<Sample>)
    ensures SumOf(rows, One) == |rows| as real
  {
    if rows != [] {
      CountIsLength(rows[1..]);
    }
  }

  /** n times x. */
  function Repeat(x: real, n: nat): real {
    if n == 0 then 0.0 else x + Repeat(x, n - 1)
  }

  lemma {:induction false} RepeatIsProduct(x: real, n: nat)
    ensures Repeat(x, n) == n as real * x
  {
    if n > 0 {
      RepeatIsProduct(x, n - 1);
      assert n as real * x == (n - 1) as real * x + x;
    }
  }

  /** The means, each weighted by the size of its bucket. */
  function WeightedMeans(keys: seq<int>, rows: seq<Sample>, b: int, c: Column): real
    requires b > 0 && AllInhabited(rows, b, keys)
  {
    if keys == [] then 0.0
    else
      var bucket := BucketRows(rows, b, keys[0]);
      assert keys[0] in keys;
      Repeat(Avg(bucket, c), |bucket|) + WeightedMeans(keys[1..], rows, b, c)
  }

  lemma MeanTimesCount(rows: seq<Sample>, c: Column)
    requires rows != []
    ensures Repeat(Avg(rows, c), |rows|) == SumOf(rows, c)
  {
    RepeatIsProduct(Avg(rows, c), |rows|);
    QuotientTimes(SumOf(rows, c), |rows| as real);
  }

  lemma QuotientTimes(s: real, n: real)
    requires n > 0.0
    ensures n * (s / n) == s
  {
  }

  lemma {:induction false} WeightedMeansAreSums(keys: seq<int>, rows: seq<Sample>, b: int, c: Column)
    requires b > 0 && AllInhabited(rows, b, keys)
    ensures WeightedMeans(keys, rows, b, c) == SumOverKeys(keys, rows, b, c)
  {
    if keys != [] {
      assert keys[0] in keys;
      MeanTimesCount(BucketRows(rows, b, keys[0]), c);
      WeightedMeansAreSums(keys[1..], rows, b, c);
    }
  }

  /** Count-weighted, the unrounded means of the buckets sum to the raw total of every column. */
  lemma MeansConserveTotal(rows: seq<Sample>, b: int, c: Column)
    requires b > 0
    ensures AllInhabited(rows, b, Keys(rows, b))
    ensures WeightedMeans(Keys(rows, b), rows, b, c) == SumOf(rows, c)
  {
    KeysFacts(rows, b);
    WeightedMeansAreSums(Keys(rows, b), rows, b, c);
    BucketsConserve(rows, b, c);
  }

  lemma {:induction false} SumBounds(rows: seq<Sample>, c: Column, lo: real, hi: real)
    requires forall r | r in rows :: lo <= ColumnOf(r.metrics, c) <= hi
    ensures Repeat(lo, |rows|) <= SumOf(rows, c) <= Repeat(hi, |rows|)
  {
    if rows != [] {
      assert rows[0] in rows;
      SumBounds(rows[1..], c, lo, hi);
    }
  }

  lemma NonNegativeFactor(x: real, n: real)
    requires n > 0.0 && x * n >= 0.0
    ensures x >= 0.0
  {
  }

  lemma QuotientAbove(s: real, n: nat, lo: real)
    requires n > 0 && Repeat(lo, n) <= s
    ensures lo <= s / n as real
  {
    var m, q := n as real, s / n as real;
    RepeatIsProduct(lo, n);
    QuotientTimes(s, m);
    assert (q - lo) * m == m * q - m * lo;
    NonNegativeFactor(q - lo, m);
  }

  lemma {:induction false} RepeatNegated(x: real, n: nat)
    ensures Repeat(-x, n) == -Repeat(x, n)
  {
    if n > 0 {
      RepeatNegated(x, n - 1);
    }
  }

  lemma QuotientNegated(s: real, n: real)
    requires n > 0.0
    ensures (-s) / n == -(s / n)
  {
  }

  lemma QuotientBelow(s: real, n: nat, hi: real)
    requires n > 0 && s <= Repeat(hi, n)
    ensures s / n as real <= hi
  {
    RepeatNegated(hi, n);
    QuotientAbove(-s, n, -hi);
    QuotientNegated(s, n as real);
  }

  /** A mean lies between the least and the greatest value of its bucket. */
  lemma MeanBetween(rows: seq<Sample>, c: Column, lo: real, hi: real)
    requires rows != [] && forall r | r in rows :: lo <= ColumnOf(r.metrics, c) <= hi
    ensures lo <= Avg(rows, c) <= hi
  {
    SumBounds(rows, c, lo, hi);
    QuotientAbove(SumOf(rows, c), |rows|, lo);
    QuotientBelow(SumOf(rows, c), |rows|, hi);
  }

  /** The integer columns are stored truncated. */
  function WeightedTruncs(keys: seq<int>, rows: seq<Sample>, b: int, c: Column): real
    requires b > 0 && AllInhabited(rows, b, keys)
  {
    if keys == [] then 0.0
    else
      var bucket := BucketRows(rows, b, keys[0]);
      assert keys[0] in keys;
      Repeat(Trunc(Avg(bucket, c)) as real, |bucket|) + WeightedTruncs(keys[1..], rows, b, c)
  }

  lemma {:induction false} RepeatFraction(x: real, t: real, n: nat)
    requires t <= x < t + 1.0
    ensures Repeat(t, n) <= Repeat(x, n)
    ensures n > 0 ==> Repeat(x, n) - n as real < Repeat(t, n)
  {
    if n > 0 {
      RepeatFraction(x, t, n - 1);
    }
  }

  lemma TruncatedBucket(rows: seq<Sample>, c: Column)
    requires rows != [] && forall r | r in rows :: ColumnOf(r.metrics, c) >= 0.0
    ensures SumOf(rows, c) - |rows| as real < Repeat(Trunc(Avg(rows, c)) as real, |rows|) <= SumOf(rows, c)
  {
    AvgNonNegative(rows, c);
    var x := Avg(rows, c);
    RepeatFraction(x, Trunc(x) as real, |rows|);
    MeanTimesCount(rows, c);
  }

  lemma AvgNonNegative(rows: seq<Sample>, c: Column)
    requires rows != [] && forall r | r in rows :: ColumnOf(r.metrics, c) >= 0.0
    ensures Avg(rows, c) >= 0.0
  {
    SumNonNegative(rows, c);
    QuotientTimes(SumOf(rows, c), |rows| as real);
    NonNegativeFactor(Avg(rows, c), |rows| as real);
  }

  lemma {:induction false} SumNonNegative(rows: seq<Sample>, c: Column)
    requires forall r | r in rows :: ColumnOf(r.metrics, c) >= 0.0
    ensures SumOf(rows, c) >= 0.0
  {
    if rows != [] {
      assert rows[0] in rows;
      SumNonNegative(rows[1..], c);
    }
  }

  lemma {:induction false} BucketRowsFacts(rows: seq<Sample>, b: int, k: int)
    requires b > 0
    ensures forall r :: r in BucketRows(rows, b, k) <==> r in rows && TruncDiv(r.ts, b) == k
  {
    if rows != [] {
      BucketRowsFacts(rows[1..], b, k);
      assert rows == [rows[0]] + rows[1..];
    }
  }

  lemma {:induction false} TruncsAgainstSums(keys: seq<int>, rows: seq<Sample>, b: int, c: Column)
    requires b > 0 && AllInhabited(rows, b, keys) && forall r | r in rows :: ColumnOf(r.metrics, c) >= 0.0
    ensures SumOverKeys(keys, rows, b, c) - SumOverKeys(keys, rows, b, One)
         <= WeightedTruncs(keys, rows, b, c) <= SumOverKeys(keys, rows, b, c)
    ensures keys != [] ==>
              SumOverKeys(keys, rows, b, c) - SumOverKeys(keys, rows, b, One) < WeightedTruncs(keys, rows, b, c)
  {
    if keys != [] {
      var bucket := BucketRows(rows, b, keys[0]);
      assert keys[0] in keys;
      BucketRowsFacts(rows, b, keys[0]);
      TruncatedBucket(bucket, c);
      CountIsLength(bucket);
      TruncsAgainstSums(keys[1..], rows, b, c);
    }
  }

  /** Truncated integer means under-report a non-negative total, by less than one per row. */
  lemma TruncationLoss(rows: seq<Sample>, b: int, c: Column)
    requires b > 0 && rows != [] && forall r | r in rows :: ColumnOf(r.metrics, c) >= 0.0
    ensures AllInhabited(rows, b, Keys(rows, b))
    ensures 0.0 <= SumOf(rows, c) - WeightedTruncs(Keys(rows, b), rows, b, c) < |rows| as real
  {
    KeysFacts(rows, b);
    TruncsAgainstSums(Keys(rows, b), rows, b, c);
    BucketsConserve(rows, b, c);
    BucketsConserve(rows, b, One);
    CountIsLength(rows);
    assert rows[0] in rows;
    assert TruncDiv(rows[0].ts, b) in Keys(rows, b);
  }

  lemma RoundClose(x: real)
    ensures -0.005 <= Round2(x) - x <= 0.005
  {
  }

  predicate IsFloat(c: Column) {
    c.Cpu? || c.Mem? || c.Disk? || c.Load1?
  }

  /** A float column is within half a hundredth of the mean, an integer column is its truncation. */
  ghost predicate Reports(m: Metrics, bucket: seq<Sample>, c: Column)
    requires bucket != []
  {
    && (IsFloat(c) ==> -0.005 <= ColumnOf(m, c) - Avg(bucket, c) <= 0.005)
    && (!IsFloat(c) && !c.One? ==> ColumnOf(m, c) == Trunc(Avg(bucket, c)) as real)
  }

  lemma AggregateReports(bucket: seq<Sample>, c: Column)
    requires bucket != []
    ensures Reports(Aggregate(bucket), bucket, c)
  {
    if IsFloat(c) {
      RoundClose(Avg(bucket, c));
    }
  }

  /** A row of the bucketed answer: it stands for a non-empty bucket of samples of the window, whose
      means it reports column by column, and it says that Xray was running exactly when some sample
      of the bucket does. */
  lemma SummaryRow(rows: seq<Sample>, node: NodeId, from: Nanos, to: Nanos, i: nat, b: int, matching: seq<Sample>,
                   k: int)
    requires b == BucketWidth(to - from) && matching == Matching(rows, node, Unix(from), Unix(to))
    requires i < |Keys(matching, b)| && k == Keys(matching, b)[i]
    ensures i < |BucketedRows(rows, node, from, to)| && BucketRows(matching, b, k) != []
    ensures forall s :: s in BucketRows(matching, b, k) <==>
              s in rows && s.node == node && Unix(from) <= s.ts <= Unix(to) && TruncDiv(s.ts, b) == k
    ensures var r := BucketedRows(rows, node, from, to)[i];
            && (r.metrics.xrayRunning <==> exists s :: s in BucketRows(matching, b, k) && s.metrics.xrayRunning)
            && forall c :: Reports(r.metrics, BucketRows(matching, b, k), c)
  {
    var bucket := BucketRows(matching, b, k);
    KeysFacts(matching, b);
    assert k in Keys(matching, b);
    BucketRowsFacts(matching, b, k);
    MatchingFacts(rows, node, Unix(from), Unix(to), {});
    assert BucketedRows(rows, node, from, to)[i].metrics == Aggregate(bucket);
    forall c
      ensures Reports(Aggregate(bucket), bucket, c)
    {
      AggregateReports(bucket, c);
    }
    RunningIsOr(bucket);
  }

  lemma RunningIsOr(rows: seq<Sample>)
    ensures AnyRunning(rows) <==> exists s :: s in rows && s.metrics.xrayRunning
  {
    if AnyRunning(rows) {
      var i :| 0 <= i < |rows| && rows[i].metrics.xrayRunning;
      assert rows[i] in rows;
    }
  }

  // ---------- how fine the buckets are ----------

  /** The width from both sides: a three hundredth of the window in whole seconds, but at least 30. */
  lemma BucketWidthExact(from: Nanos, to: Nanos)
    requires to - from > HOUR
    ensures var seconds, b := (to - from) / 1000000000, BucketWidth(to - from);
            b >= 30 && (b == 30 || 300 * b <= seconds) && seconds < 300 * (b + 1)
  {
  }

  /** From 1970 on, a sample lies in the second its row is stamped with or within the bucket width after it. */
  lemma SummaryRowCovers(rows: seq<Sample>, node: NodeId, from: Nanos, to: Nanos, i: nat, b: int, s: Sample)
    requires b == BucketWidth(to - from) && i < |BucketedRows(rows, node, from, to)| && s.ts >= 0
    requires var matching := Matching(rows, node, Unix(from), Unix(to));
             i < |Keys(matching, b)| && s in BucketRows(matching, b, Keys(matching, b)[i])
    ensures BucketedRows(rows, node, from, to)[i].ts <= s.ts < BucketedRows(rows, node, from, to)[i].ts + b
  {
    var matching := Matching(rows, node, Unix(from), Unix(to));
    KeysFacts(matching, b);
    BucketRowsFacts(matching, b, Keys(matching, b)[i]);
    TruncDivBounds(s.ts, b);
  }

  /** Every stretch of b seconds in the window holds a sample of the node. */
  ghost predicate Dense(rows: seq<Sample>, node: NodeId, from: int, to: int, b: int) {
    forall x | from <= x && x + b - 1 <= to :: Sampled(rows, node, x, b)
  }

  ghost predicate Sampled(rows: seq<Sample>, node: NodeId, x: int, b: int) {
    exists r :: r in rows && r.node == node && x <= r.ts < x + b
  }

  lemma {:induction false} IndexAtLeast(keys: seq<int>, k0: int, j: nat) returns (i: nat)
    requires Increasing(keys) && forall k | k0 <= k <= k0 + j :: k in keys
    ensures j <= i < |keys| && keys[i] == k0 + j
  {
    assert k0 + j in keys;
    i :| 0 <= i < |keys| && keys[i] == k0 + j;
    if j > 0 {
      var h := IndexAtLeast(keys, k0, j - 1);
      assert h < i;
    }
  }

  /** The bucket k lies in the window, so its group is there. */
  lemma DenseHasKey(rows: seq<Sample>, node: NodeId, from: int, to: int, b: int, k: int)
    requires b > 0 && Dense(rows, node, from, to, b) && 0 <= from <= k * b && k * b + b - 1 <= to
    ensures k in Keys(Matching(rows, node, from, to), b)
  {
    assert Sampled(rows, node, k * b, b);
    var r :| r in rows && r.node == node && k * b <= r.ts < k * b + b;
    MatchingFacts(rows, node, from, to, {});
    KeysFacts(Matching(rows, node, from, to), b);
    TruncDivBounds(r.ts, b);
    SameBucket(r.ts, TruncDiv(r.ts, b), k, b);
  }

  lemma SameBucket(x: int, q: int, k: int, b: int)
    requires b > 0 && q * b <= x < q * b + b && k * b <= x < k * b + b
    ensures q == k
  {
    QuotientOrder(q, k, b);
    QuotientOrder(k, q, b);
  }

  /** The first bucket that starts in the window, and its multiples of the width after it. */
  lemma FirstBucket(from: int, b: int) returns (k0: int)
    requires b > 0 && from >= 0
    ensures from <= k0 * b <= from + b - 1
  {
    DivBounds(from + b - 1, b);
    k0 := (from + b - 1) / b;
  }

  lemma LaterBucket(k0: int, j: nat, b: int)
    requires b > 0 && j <= 298
    ensures k0 * b <= (k0 + j) * b <= k0 * b + 298 * b
  {
    assert (k0 + j) * b == k0 * b + j * b;
    StepsAtMost(j, b);
  }

  lemma StepsAtMost(j: nat, b: int)
    requires b > 0 && j <= 298
    ensures 0 <= j * b <= 298 * b
  {
    assert (298 - j) * b >= 0;
  }

  /** The other bound: a window of at least 9000 seconds, from 1970 on, with a sample in every stretch of a
      bucket width, yields at least 299 rows. With `BucketedBound` the answer has 299 to 311 rows. */
  lemma BucketedAtLeast(rows: seq<Sample>, node: NodeId, from: Nanos, to: Nanos)
    requires 0 <= from && to - from >= 9000 * SECOND
    requires Dense(rows, node, Unix(from), Unix(to), BucketWidth(to - from))
    ensures |BucketedRows(rows, node, from, to)| >= 299
  {
    var b, first, last := BucketWidth(to - from), Unix(from), Unix(to);
    var keys := Keys(Matching(rows, node, first, last), b);
    KeysFacts(Matching(rows, node, first, last), b);
    BucketWidthExact(from, to);
    assert first + 300 * b <= last;
    var k0 := FirstBucket(first, b);
    forall k | k0 <= k <= k0 + 298
      ensures k in keys
    {
      LaterBucket(k0, k - k0, b);
      DenseHasKey(rows, node, first, last, b, k);
    }
    var i := IndexAtLeast(keys, k0, 298);
  }

  // ---------- limits and columns ----------

  /** The answer is cut to the limit, 1000 without one, and is otherwise complete; windows up to an hour are
      answered from the raw samples, longer ones from buckets. */
  lemma QueryIsCut(rows: seq<Sample>, node: NodeId, from: Nanos, to: Nanos, limit: int)
    ensures var all := if to - from <= 3600000000000 then RawRows(rows, node, from, to)
                       else BucketedRows(rows, node, from, to);
            var max := if limit <= 0 then 1000 else limit;
            var r := Query(rows, node, from, to, limit);
            r <= all && (if |all| <= max then r == all else |r| == max)
  {
  }

  lemma TruncFacts(x: real)
    ensures x >= 0.0 ==> Trunc(x) as real <= x < Trunc(x) as real + 1.0
    ensures x < 0.0 ==> Trunc(x) as real - 1.0 < x <= Trunc(x) as real
  {
  }

  lemma AvgOfOne(r: Sample, c: Column)
    ensures Avg([r], c) == ColumnOf(r.metrics, c)
  {
    assert [r][1..] == [];
    assert SumOf([r], c) == ColumnOf(r.metrics, c) + SumOf([], c);
    assert |[r]| as real == 1.0;
  }

  ghost predicate Near(x: real, y: real) {
    -0.005 <= x - y <= 0.005
  }

  /** A bucket of one sample is reported as that sample, field by field: whole numbers exactly, the others to
      two digits. */
  lemma SingleSampleReported(r: Sample)
    ensures var m, a := r.metrics, Aggregate([r]);
            && Near(a.cpu, m.cpu) && Near(a.mem, m.mem) && Near(a.disk, m.disk) && Near(a.load1, m.load1)
            && a.netUp == m.netUp && a.netDown == m.netDown && a.tcp == m.tcp && a.udp == m.udp
            && a.xrayRunning == m.xrayRunning && a.xrayUptime == m.xrayUptime
            && a.xrayGoroutines == m.xrayGoroutines && a.xrayMem == m.xrayMem
            && a.xrayUp == m.xrayUp && a.xrayDown == m.xrayDown
  {
    SingleNumbers(r);
    SingleFloats(r);
    assert [r][0].metrics.xrayRunning == r.metrics.xrayRunning;
  }

  lemma TruncWhole(n: int)
    ensures Trunc(n as real) == n
  {
  }

  lemma SingleNumber(r: Sample, c: Column, n: int)
    requires ColumnOf(r.metrics, c) == n as real
    ensures Trunc(Avg([r], c)) == n
  {
    AvgOfOne(r, c);
    TruncWhole(n);
  }

  lemma SingleNumbers(r: Sample)
    ensures var m := r.metrics;
            && Trunc(Avg([r], NetUp)) == m.netUp && Trunc(Avg([r], NetDown)) == m.netDown
            && Trunc(Avg([r], Tcp)) == m.tcp && Trunc(Avg([r], Udp)) == m.udp
            && Trunc(Avg([r], XrayUptime)) == m.xrayUptime && Trunc(Avg([r], XrayGoroutines)) == m.xrayGoroutines
            && Trunc(Avg([r], XrayMem)) == m.xrayMem
            && Trunc(Avg([r], XrayUp)) == m.xrayUp && Trunc(Avg([r], XrayDown)) == m.xrayDown
  {
    SingleNumber(r, NetUp, r.metrics.netUp);
    SingleNumber(r, NetDown, r.metrics.netDown);
    SingleNumber(r, Tcp, r.metrics.tcp);
    SingleNumber(r, Udp, r.metrics.udp);
    SingleNumber(r, XrayUptime, r.metrics.xrayUptime);
    SingleNumber(r, XrayGoroutines, r.metrics.xrayGoroutines);
    SingleNumber(r, XrayMem, r.metrics.xrayMem);
    SingleNumber(r, XrayUp, r.metrics.xrayUp);
    SingleNumber(r, XrayDown, r.metrics.xrayDown);
  }

  lemma SingleFloat(r: Sample, c: Column, x: real)
    requires ColumnOf(r.metrics, c) == x
    ensures Near(Round2(Avg([r], c)), x)
  {
    AvgOfOne(r, c);
    RoundClose(x);
  }

  lemma SingleFloats(r: Sample)
    ensures Near(Round2(Avg([r], Cpu)), r.metrics.cpu) && Near(Round2(Avg([r], Mem)), r.metrics.mem)
    ensures Near(Round2(Avg([r], Disk)), r.metrics.disk) && Near(Round2(Avg([r], Load1)), r.metrics.load1)
  {
    SingleFloat(r, Cpu, r.metrics.cpu);
    SingleFloat(r, Mem, r.metrics.mem);
    SingleFloat(r, Disk, r.metrics.disk);
    SingleFloat(r, Load1, r.metrics.load1);
  }
}
