/** Derivation, reconciliation and recomputation of a run record. */
module Analysis {
  import opened Arith
  import opened Slots
  import opened Histogram
  import opened Deliveries
  import opened RunRecords

  const SPREAD_LIMIT: real := 0.10
  const GENERATOR_LATENESS_FRACTION: real := 0.10
  const SIGINT: int := 2
  const STEADY_STATE_GROWTH_LIMIT_NS: nat := 50_000_000
  const SUSTAINED_TAIL_SECS: nat := 10
  const COUNTER_BOUNDARY_TOLERANCE_NS: nat := 10_000_000

  // ---------------------------------------------------------------- histograms

  /** `histogram_total`: `None` for a bucket list no recorder emits. */
  function HistogramTotal(h: Histogram): Option<nat> {
    TotalFrom(h, None, 0)
  }

  function TotalFrom(h: Histogram, previous: Option<nat>, total: nat): Option<nat> {
    if h == [] then Some(total)
    else if h[0].0 == 0 || h[0].0 > LATENCY_BUCKET_MAX_NS then None
    else if previous.Some? && h[0].0 <= previous.value then None
    else if total + h[0].1 > U64_MAX then None
    else TotalFrom(h[1..], Some(h[0].0), total + h[0].1)
  }

  /** The loop of `histogram_total`. */
  method ComputeHistogramTotal(h: Histogram) returns (r: Option<nat>)
    ensures r == HistogramTotal(h)
  {
    var total: nat := 0;
    var previous: Option<nat> := None;
    for i := 0 to |h|
      invariant TotalFrom(h[i..], previous, total) == HistogramTotal(h)
    {
      var (value, count) := h[i];
      assert h[i..][1..] == h[i + 1..];
      if value == 0 || value > LATENCY_BUCKET_MAX_NS {
        return None;
      }
      if previous.Some? && value <= previous.value {
        return None;
      }
      previous := Some(value);
      if total + count > U64_MAX {
        return None;
      }
      total := total + count;
    }
    return Some(total);
  }

  lemma {:induction false} TotalFromMeaning(h: Histogram, previous: Option<nat>, total: nat)
    requires total <= U64_MAX
    ensures TotalFrom(h, previous, total).Some? <==>
              && WellFormed(h) && total + Total(h) <= U64_MAX
              && (previous.Some? && h != [] ==> previous.value < h[0].0)
    ensures TotalFrom(h, previous, total).Some? ==> TotalFrom(h, previous, total).value == total + Total(h)
  {
    if h != [] && total + h[0].1 <= U64_MAX {
      TotalFromMeaning(h[1..], Some(h[0].0), total + h[0].1);
      WellFormedStep(h);
    }
  }

  lemma WellFormedStep(h: Histogram)
    requires h != []
    ensures WellFormed(h) <==>
              && WellFormed(h[1..]) && 1 <= h[0].0 <= LATENCY_BUCKET_MAX_NS
              && (h[1..] != [] ==> h[0].0 < h[1].0)
  {
    if WellFormed(h[1..]) && 1 <= h[0].0 <= LATENCY_BUCKET_MAX_NS && (h[1..] != [] ==> h[0].0 < h[1].0) {
      forall i, j | 0 <= i < j < |h| ensures h[i].0 < h[j].0 {
        assert h[j] == h[1..][j - 1];
        if i > 0 {
          assert h[i] == h[1..][i - 1];
        } else if j > 1 {
          assert h[1..][0].0 < h[1..][j - 1].0;
        }
      }
      forall i | 0 <= i < |h| ensures 1 <= h[i].0 <= LATENCY_BUCKET_MAX_NS {
        if i > 0 { assert h[i] == h[1..][i - 1]; }
      }
    }
  }

  /** A bucket list is accepted exactly when it is well formed and its count fits a `u64`. */
  lemma HistogramTotalMeaning(h: Histogram)
    ensures HistogramTotal(h) == if WellFormed(h) && Total(h) <= U64_MAX then Some(Total(h)) else None
  {
    TotalFromMeaning(h, None, 0);
  }

  function Ceil(x: real): int {
    -((-x).Floor)
  }

  function RankOf(x: real): nat {
    Max(Ceil(x), 1)
  }

  /** The quantile's share of the samples. */
  function Share(total: nat, quantile: real): real {
    quantile * total as real
  }

  function Rank(total: nat, quantile: real): nat {
    RankOf(Share(total, quantile))
  }

  /** Smallest bucket whose cumulative count reaches the rank. */
  function AtRank(h: Histogram, rank: int): Option<nat> {
    if h == [] then None
    else if h[0].1 >= rank then Some(h[0].0)
    else AtRank(h[1..], rank - h[0].1)
  }

  function Percentile(h: Histogram, quantile: real): Option<nat> {
    var total := HistogramTotal(h);
    if total.None? || total.value == 0 then None else AtRank(h, Rank(total.value, quantile))
  }

  /** The loop of `percentile`. */
  method ComputePercentile(h: Histogram, quantile: real) returns (r: Option<nat>)
    ensures r == Percentile(h, quantile)
  {
    var total := ComputeHistogramTotal(h);
    if total.None? || total.value == 0 {
      return None;
    }
    HistogramTotalMeaning(h);
    var rank := Rank(total.value, quantile);
    var cumulative: nat := 0;
    for i := 0 to |h|
      invariant cumulative < rank && cumulative + Total(h[i..]) == total.value
      invariant AtRank(h[i..], rank - cumulative) == AtRank(h, rank)
    {
      var (value, count) := h[i];
      assert h[i..][1..] == h[i + 1..];
      cumulative := Sat64(cumulative + count);
      if cumulative >= rank {
        return Some(value);
      }
    }
    return None;
  }

  function Cumulative(h: Histogram, n: nat): nat
    requires n <= |h|
  {
    Total(h[..n])
  }

  lemma {:induction false} AtRankMeaning(h: Histogram, rank: int) returns (k: nat)
    requires 1 <= rank <= Total(h)
    ensures k < |h| && AtRank(h, rank) == Some(h[k].0)
    ensures Cumulative(h, k) < rank <= Cumulative(h, k + 1)
  {
    if h[0].1 >= rank {
      k := 0;
      assert h[..1] == [h[0]] && h[..0] == [];
    } else {
      var k' := AtRankMeaning(h[1..], rank - h[0].1);
      k := k' + 1;
      assert h[..k][1..] == h[1..][..k'] && h[..k + 1][1..] == h[1..][..k' + 1];
    }
  }

  lemma ScaleDown(q: real, t: real)
    requires 0.0 <= q <= 1.0 && t >= 0.0
    ensures 0.0 <= q * t <= t
  {
    assert q * t <= 1.0 * t;
  }

  lemma CeilMeaning(x: real)
    ensures x <= Ceil(x) as real < x + 1.0
  {
  }

  lemma RankInRange(x: real, total: nat)
    requires total >= 1 && 0.0 <= x <= total as real
    ensures 1 <= RankOf(x) <= total
  {
    CeilMeaning(x);
  }

  /** Counts on either side of a rank lie on either side of its quantile. */
  lemma RankSplits(x: real, low: nat, high: nat)
    requires low < RankOf(x) <= high
    ensures high as real >= x && (low == 0 || (low as real) < x)
  {
    CeilMeaning(x);
  }

  /** The bucket of a rank splits the samples where the rank's share does. */
  lemma AtShare(h: Histogram, share: real) returns (k: nat)
    requires Total(h) >= 1 && 0.0 <= share <= Total(h) as real
    ensures k < |h| && AtRank(h, RankOf(share)) == Some(h[k].0)
    ensures Cumulative(h, k + 1) as real >= share && (Cumulative(h, k) == 0 || (Cumulative(h, k) as real) < share)
    ensures Cumulative(h, k + 1) >= 1
  {
    RankInRange(share, Total(h));
    k := AtRankMeaning(h, RankOf(share));
    RankSplits(share, Cumulative(h, k), Cumulative(h, k + 1));
  }

  lemma ShareInRange(total: nat, quantile: real)
    requires 0.0 <= quantile <= 1.0
    ensures 0.0 <= Share(total, quantile) <= total as real
  {
    ScaleDown(quantile, total as real);
  }

  /**
    A percentile is a recorded bucket: the samples up to it reach the quantile of all samples, and are
    at least one; those below it do not reach it.
    */
  lemma PercentileMeaning(h: Histogram, quantile: real) returns (k: nat)
    requires WellFormed(h) && 1 <= Total(h) <= U64_MAX && 0.0 <= quantile <= 1.0
    ensures k < |h| && Percentile(h, quantile) == Some(h[k].0) && Cumulative(h, k + 1) >= 1
    ensures Cumulative(h, k + 1) as real >= quantile * Total(h) as real
    ensures Cumulative(h, k) == 0 || (Cumulative(h, k) as real) < quantile * Total(h) as real
  {
    ShareInRange(Total(h), quantile);
    k := PercentileAtShare(h, quantile, quantile * Total(h) as real);
  }

  lemma PercentileAtShare(h: Histogram, quantile: real, share: real) returns (k: nat)
    requires WellFormed(h) && 1 <= Total(h) <= U64_MAX
    requires share == Share(Total(h), quantile) && 0.0 <= share <= Total(h) as real
    ensures k < |h| && Percentile(h, quantile) == Some(h[k].0) && Cumulative(h, k + 1) >= 1
    ensures Cumulative(h, k + 1) as real >= share && (Cumulative(h, k) == 0 || (Cumulative(h, k) as real) < share)
  {
    HistogramTotalMeaning(h);
    k := AtShare(h, share);
  }

  /** There is none exactly for a bucket list without samples, or one no recorder emits. */
  lemma NoPercentile(h: Histogram, quantile: real)
    requires 0.0 <= quantile <= 1.0
    ensures Percentile(h, quantile).None? <==> !WellFormed(h) || Total(h) == 0 || Total(h) > U64_MAX
  {
    HistogramTotalMeaning(h);
    if WellFormed(h) && 1 <= Total(h) <= U64_MAX { var _ := PercentileMeaning(h, quantile); }
  }

  lemma {:induction false} CumulativeGrows(h: Histogram, i: nat, j: nat)
    requires i <= j <= |h|
    ensures Cumulative(h, i) <= Cumulative(h, j)
    decreases j
  {
    if i < j {
      CumulativeGrows(h, i, j - 1);
      CumulativeStep(h, j - 1);
    }
  }

  lemma {:induction false} CumulativeStep(h: Histogram, i: nat)
    requires i < |h|
    ensures Cumulative(h, i + 1) == Cumulative(h, i) + h[i].1
  {
    if i > 0 {
      CumulativeStep(h[1..], i - 1);
      assert h[..i][1..] == h[1..][..i - 1] && h[..i + 1][1..] == h[1..][..i];
    } else {
      assert h[..1][1..] == [];
    }
  }

  /** The quantile 1 is the last bucket with a sample. */
  lemma PercentileMax(h: Histogram, k: nat)
    requires WellFormed(h) && Total(h) <= U64_MAX && k < |h| && h[k].1 > 0
    requires forall j | k < j < |h| :: h[j].1 == 0
    ensures Percentile(h, 1.0) == Some(h[k].0)
  {
    CumulativeStep(h, k);
    NothingAfter(h, k);
    var p := PercentileAtShare(h, 1.0, Total(h) as real);
    LastReached(h, k, p);
  }

  /** The last bucket with a sample is the only one that the whole count is reached at. */
  lemma LastReached(h: Histogram, k: nat, p: nat)
    requires k < |h| && p < |h| && Cumulative(h, k) < Cumulative(h, k + 1) == Total(h)
    requires Cumulative(h, p) == 0 || Cumulative(h, p) < Total(h)
    requires Cumulative(h, p + 1) >= Total(h)
    ensures p == k
  {
    if p < k { CumulativeGrows(h, p + 1, k); }
    if p > k { CumulativeGrows(h, k + 1, p); }
  }

  lemma {:induction false} NothingAfter(h: Histogram, k: nat)
    requires k < |h| && forall j | k < j < |h| :: h[j].1 == 0
    ensures Cumulative(h, k + 1) == Total(h)
    decreases |h| - k
  {
    if k + 1 < |h| {
      NothingAfter(h, k + 1);
      CumulativeStep(h, k + 1);
    } else {
      assert h[..k + 1] == h;
    }
  }

  /** A higher quantile is no lower value. */
  lemma PercentileMonotone(h: Histogram, p: real, q: real)
    requires WellFormed(h) && 1 <= Total(h) <= U64_MAX && 0.0 <= p <= q <= 1.0
    ensures Percentile(h, p).Some? && Percentile(h, q).Some? && Percentile(h, p).value <= Percentile(h, q).value
  {
    SharesGrow(p, q, Total(h) as real);
    SharesOrderPercentiles(h, p, q, p * Total(h) as real, q * Total(h) as real);
  }

  lemma SharesOrderPercentiles(h: Histogram, p: real, q: real, x: real, y: real)
    requires WellFormed(h) && 1 <= Total(h) <= U64_MAX && 0.0 <= p <= 1.0 && 0.0 <= q <= 1.0
    requires x == p * Total(h) as real && y == q * Total(h) as real && x <= y
    ensures Percentile(h, p).Some? && Percentile(h, q).Some? && Percentile(h, p).value <= Percentile(h, q).value
  {
    var i := PercentileMeaning(h, p);
    var j := PercentileMeaning(h, q);
    SharesOrder(h, x, y, i, j);
    assert i < j ==> h[i].0 < h[j].0;
  }

  lemma SharesOrder(h: Histogram, x: real, y: real, i: nat, j: nat)
    requires i < |h| && j < |h| && x <= y && (Cumulative(h, i) == 0 || (Cumulative(h, i) as real) < x)
    requires Cumulative(h, j + 1) >= 1 && Cumulative(h, j + 1) as real >= y
    ensures i <= j
  {
    if j < i { CumulativeGrows(h, j + 1, i); }
  }

  lemma SharesGrow(p: real, q: real, t: real)
    requires p <= q && t >= 0.0
    ensures p * t <= q * t
  {
  }

  // ---------------------------------------------------------------- derive

  /** The syscall count a counter's raw text holds, by method. */
  type Parser = (SyscallMethod, string) -> Option<nat>

  datatype Derived = Derived(
    throughput: Option<real>,
    last10s: Option<real>,
    connectionsPerSec: Option<Float>,
    latencyNs: Option<LatencySummary>,
    latenessP99Ns: Option<nat>,
    syscallCount: Option<nat>,
    syscallsPerMsg: Option<real>,
    unresolved: nat)

  function OrZero(n: Option<nat>): nat {
    if n.Some? then n.value else 0
  }

  function WindowDeliveries(r: RunRecord): nat {
    SumSecs(r.timeline, r.window.StartSec(), r.window.EndSec())
  }

  function Unresolved(c: Counts): nat {
    SatSub(SatSub(c.offered, c.delivered), OrZero(c.dropped))
  }

  function Per(count: nat, units: nat): real
    requires units > 0
  {
    count as real / units as real
  }

  lemma PerMeans(count: nat, units: nat)
    requires units > 0
    ensures Per(count, units) * units as real == count as real
  {
  }

  /** Whole-window and tail rates; none for a window whose seconds contradict its length. */
  function ThroughputRates(r: RunRecord): (Option<real>, Option<real>) {
    if r.key.kind != Throughput then (None, None) else RatesOf(r.timeline, r.window, r.windowSecs)
  }

  function RatesOf(t: Timeline, w: Window, windowSecs: nat): (Option<real>, Option<real>) {
    var tail := Min(SUSTAINED_TAIL_SECS, windowSecs);
    if tail == 0 || w.EndSec() < tail then (None, None)
    else
      var whole := SumSecs(t, w.StartSec(), w.EndSec());
      var tailDeliveries := SumSecs(t, w.EndSec() - tail, w.EndSec());
      (Some(Per(whole, windowSecs)), Some(Per(tailDeliveries, tail)))
  }

  function Divide(a: nat, b: nat): Float {
    if b == 0 then (if a == 0 then NaN else Infinite) else Finite(Per(a, b))
  }

  function ConnectionRate(r: RunRecord): Option<Float> {
    if r.key.kind == Connections && r.cyclesInWindow.Some?
    then Some(Divide(r.cyclesInWindow.value, r.windowSecs))
    else None
  }

  function Summarise(h: Histogram): LatencySummary {
    LatencySummary(OrZero(Percentile(h, 0.5)), OrZero(Percentile(h, 0.99)), OrZero(Percentile(h, 1.0)), h)
  }

  function LatencyOf(r: RunRecord): Option<LatencySummary> {
    if r.key.kind.IsOpenLoop() && r.latencyNs.Some? then Some(Summarise(r.latencyNs.value.histogram)) else None
  }

  function SyscallCount(s: Syscalls, parse: Parser): Option<nat> {
    if s.method_ == NoCounter || s.raw.None? then None else parse(s.method_, s.raw.value)
  }

  function PerMessage(count: Option<nat>, deliveries: nat): Option<real> {
    if count.None? || deliveries == 0 then None else Some(Per(count.value, deliveries))
  }

  function Derive(r: RunRecord, parse: Parser): Derived {
    var (whole, tail) := ThroughputRates(r);
    var count := SyscallCount(r.syscalls, parse);
    Derived(whole, tail, ConnectionRate(r), LatencyOf(r), Percentile(r.lateness, 0.99), count,
            PerMessage(count, WindowDeliveries(r)), Unresolved(r.counts))
  }

  // ---------------------------------------------------------------- reconcile

  predicate Publishes(r: RunRecord) {
    r.key.kind == Throughput || r.key.kind.IsOpenLoop()
  }

  predicate Sustained(whole: Option<real>, tail: Option<real>) {
    whole.Some? && tail.Some? && whole.value > 0.0
    && (if tail.value >= whole.value then tail.value - whole.value else whole.value - tail.value) / whole.value
       <= SPREAD_LIMIT
  }

  predicate FarFrom(t: Option<nat>, boundary: nat) {
    t.None? || t.value > boundary + COUNTER_BOUNDARY_TOLERANCE_NS || boundary > t.value + COUNTER_BOUNDARY_TOLERANCE_NS
  }

  predicate CounterBoundariesOff(r: RunRecord) {
    FarFrom(r.syscalls.enabledNs, r.window.startNs) || FarFrom(r.syscalls.disabledNs, r.window.endNs)
  }

  predicate CounterExitOk(r: RunRecord) {
    r.syscalls.exit == Some(Code(0)) || r.syscalls.exit == Some(Signal(SIGINT))
  }

  predicate HistogramDisagrees(h: Histogram, extra: nat, expected: Option<nat>) {
    var total := HistogramTotal(h);
    total.None? || Sat64(total.value + extra) != OrZero(expected)
  }

  /** Row 26: the boundaries the constants name, inside the `u64` range, with a span between them. */
  predicate WindowConsistent(r: RunRecord) {
    var warmupNs := r.warmupSecs * SECOND;
    var windowNs := r.windowSecs * SECOND;
    && warmupNs <= U64_MAX && r.originNs + warmupNs <= U64_MAX && r.originNs + warmupNs == r.window.startNs
    && windowNs <= U64_MAX && r.window.startNs + windowNs <= U64_MAX && r.window.startNs + windowNs == r.window.endNs
    && r.originNs % SECOND == 0
    && r.window.endNs > r.window.startNs
  }

  /** Row 27: the counts are those of the slot grid at the offered rate. */
  predicate SlotsConsistent(r: RunRecord) {
    && r.key.offeredRate.Some?
    && r.window.startNs <= r.window.endNs
    && ScheduledSlots(r.key.offeredRate.value, r.originNs, r.window) <= U64_MAX
    && var counts := SlotCounts(r.key.offeredRate.value, r.originNs, r.window);
       counts.Some? && r.counts.scheduled == Some(counts.value.0) && r.counts.windowScheduled == Some(counts.value.1)
  }

  /** Row 31: the backlog grew past the limit, read as time at the offered rate. */
  predicate SteadyStateFails(r: RunRecord) {
    && r.key.kind.IsOpenLoop() && r.key.offeredRate.Some? && r.counts.windowScheduled.Some?
    && SatSub(r.counts.windowScheduled.value, WindowDeliveries(r)) * SECOND
       > STEADY_STATE_GROWTH_LIMIT_NS * r.key.offeredRate.value
  }

  /** The 31 rows; row 28 is the harness errors themselves. */
  predicate RowFails(r: RunRecord, n: nat) {
    match n
    case 1 => r.key.kind.IsOpenLoop() && r.counts.scheduled != Some(r.counts.offered)
    case 2 => Publishes(r) && Sat64(r.counts.delivered + OrZero(r.counts.dropped)) > r.counts.offered
    case 3 => Publishes(r) && r.counts.unresolved != 0
    case 4 => r.counts.duplicates != 0
    case 5 => r.counts.foreignPayloads != 0
    case 6 => Publishes(r) && OrZero(r.counts.dropped) != 0
    case 7 => r.key.kind == Throughput && !Sustained(r.throughput, r.last10s)
    case 8 => r.key.server == Uring && r.driver != Some(DriverFds(r.key.workers, 0))
    case 9 => r.errors.connect != 0
    case 10 => r.errors.protocol != 0
    case 11 => r.key.kind.IsOpenLoop() && r.errors.missedSlots != 0
    case 12 => r.errors.stalled != 0
    case 13 => r.key.qos == Some(1) && Publishes(r) && r.counts.acked != Some(r.counts.offered)
    case 14 => r.key.kind.IsOpenLoop() && r.latencyNs.None?
    case 15 => r.key.kind.IsOpenLoop() && r.latencyNs.Some?
               && HistogramDisagrees(r.latencyNs.value.histogram, 0, r.counts.windowScheduled)
    case 16 => r.counts.latencyOverRange != 0
    case 17 => r.counts.clockAnomalies != 0
    case 18 => r.key.kind.IsOpenLoop() && r.latencyNs.Some?
               && (r.latenessP99Ns.None?
                   || r.latenessP99Ns.value as real > GENERATOR_LATENESS_FRACTION * r.latencyNs.value.p99 as real)
    case 19 => r.key.kind == Counted && r.syscalls.count.None?
    case 20 => r.key.kind == Connections && OrZero(r.cyclesInWindow) == 0
    case 21 => r.key.kind.IsOpenLoop() && r.errors.latenessOverRange != 0
    case 22 => r.key.kind == Counted && CounterBoundariesOff(r)
    case 23 => r.key.kind == Counted && !CounterExitOk(r)
    case 24 => r.key.kind.IsOpenLoop() && (r.lastWriteStartNs.None? || r.lastWriteStartNs.value >= r.window.endNs)
    case 25 =>
      r.key.kind.IsOpenLoop() && HistogramDisagrees(r.lateness, r.errors.latenessOverRange, r.counts.windowScheduled)
    case 26 => !WindowConsistent(r)
    case 27 => r.key.kind.IsOpenLoop() && !SlotsConsistent(r)
    case 29 => TimelineTotal(r.timeline) != Some(r.counts.delivered)
    case 30 => r.key.kind == Counted && WindowDeliveries(r) == 0
    case 31 => SteadyStateFails(r)
    case _ => false
  }

  /** The failing rows among `lo..=hi`, in order. */
  function RowsIn(r: RunRecord, lo: nat, hi: nat): seq<Reason>
    decreases hi - lo
  {
    if lo > hi then []
    else (if RowFails(r, lo) then [Row(lo)] else []) + RowsIn(r, lo + 1, hi)
  }

  function HarnessReasons(errors: seq<string>): seq<Reason> {
    if errors == [] then [] else [HarnessError(errors[0])] + HarnessReasons(errors[1..])
  }

  /** `reconcile`: one reason per failing row, in row order. */
  function Reconcile(r: RunRecord): seq<Reason> {
    RowsIn(r, 1, 27) + HarnessReasons(r.harnessErrors) + RowsIn(r, 29, 31)
  }

  lemma {:induction false} RowsInMeaning(r: RunRecord, lo: nat, hi: nat, x: Reason)
    ensures x in RowsIn(r, lo, hi) <==> x.Row? && lo <= x.row <= hi && RowFails(r, x.row)
    decreases hi - lo
  {
    if lo <= hi { RowsInMeaning(r, lo + 1, hi, x); }
  }

  lemma {:induction false} HarnessReasonsMeaning(errors: seq<string>, x: Reason)
    ensures x in HarnessReasons(errors) <==> x.HarnessError? && x.text in errors
  {
    if errors != [] { HarnessReasonsMeaning(errors[1..], x); }
  }

  /** A reason is given exactly for a failing row or a harness error; a record is valid when none is. */
  lemma ReconcileMeaning(r: RunRecord, x: Reason)
    ensures x in Reconcile(r) <==>
              (x.Row? && 1 <= x.row <= 31 && RowFails(r, x.row)) || (x.HarnessError? && x.text in r.harnessErrors)
  {
    RowsInMeaning(r, 1, 27, x);
    RowsInMeaning(r, 29, 31, x);
    HarnessReasonsMeaning(r.harnessErrors, x);
  }

  // ---------------------------------------------------------------- recompute

  datatype Field =
    ThroughputField | Last10s | ConnectionsPerSec | LatencyNs | LatenessP99 | SyscallsCount | SyscallsPerMsg
                 | UnresolvedField | InvalidReasons | ValidFlag

  /** `==` on optional floats: not-a-number equals nothing. */
  predicate SameFloat(a: Option<Float>, b: Option<Float>) {
    a == b && a != Some(NaN)
  }

  function MismatchIf(wrong: bool, f: Field): seq<Field> {
    if wrong then [f] else []
  }

  /** `recompute`: every stored summary field that its raw observations contradict. */
  function Recompute(r: RunRecord, parse: Parser): seq<Field> {
    var d := Derive(r, parse);
    var reasons := Reconcile(r);
    MismatchIf(r.throughput != d.throughput, ThroughputField)
    + MismatchIf(r.last10s != d.last10s, Last10s)
    + MismatchIf(!SameFloat(r.connectionsPerSec, d.connectionsPerSec), ConnectionsPerSec)
    + MismatchIf(r.latencyNs != d.latencyNs, LatencyNs)
    + MismatchIf(r.latenessP99Ns != d.latenessP99Ns, LatenessP99)
    + MismatchIf(r.syscalls.count != d.syscallCount, SyscallsCount)
    + MismatchIf(r.syscalls.perMsg != d.syscallsPerMsg, SyscallsPerMsg)
    + MismatchIf(r.counts.unresolved != d.unresolved, UnresolvedField)
    + MismatchIf(r.invalidReasons != reasons, InvalidReasons)
    + MismatchIf(r.valid != (reasons == []), ValidFlag)
  }
}
