/** What a record without an invalid reason says, field by field: the rows of reconciliation read together. */
module Verdict {
  import opened Arith
  import opened Slots
  import opened Histogram
  import opened Deliveries
  import opened RunRecords
  import opened Analysis

  /** Of any run: no duplicate, no stray payload, no error, and the timeline holds every delivery. */
  predicate NothingAmiss(r: RunRecord) {
    && r.counts.duplicates == 0 && r.counts.foreignPayloads == 0
    && r.counts.latencyOverRange == 0 && r.counts.clockAnomalies == 0
    && r.errors.connect == 0 && r.errors.protocol == 0 && r.errors.stalled == 0
    && SumOf(r.timeline.counts) == r.counts.delivered
  }

  /** Of a run that publishes: every publish was delivered, none dropped, and at QoS 1 every one acknowledged. */
  predicate AllDelivered(r: RunRecord) {
    && r.counts.delivered == r.counts.offered && (r.counts.dropped.Some? ==> r.counts.dropped.value == 0)
    && (r.key.qos == Some(1) ==> r.counts.acked == Some(r.counts.offered))
  }

  /** Of an open-loop run: every slot of the grid was offered, and both histograms count those of the window. */
  ghost predicate GridFilled(r: RunRecord) {
    && r.key.offeredRate.Some? && r.counts.windowScheduled.Some? && r.counts.scheduled == Some(r.counts.offered)
    && SlotCounts(r.key.offeredRate.value, r.originNs, r.window)
       == Some((r.counts.offered, r.counts.windowScheduled.value))
    && r.errors.missedSlots == 0 && r.lastWriteStartNs.Some? && r.lastWriteStartNs.value < r.window.endNs
    && r.latencyNs.Some? && WellFormed(r.latencyNs.value.histogram) && WellFormed(r.lateness)
    && Total(r.latencyNs.value.histogram) == r.counts.windowScheduled.value
    && Total(r.lateness) + r.errors.latenessOverRange == r.counts.windowScheduled.value
  }

  /** The accounts of a record balance. */
  ghost predicate Balanced(r: RunRecord) {
    && NothingAmiss(r)
    && (r.key.kind == Throughput || r.key.kind.IsOpenLoop() ==> AllDelivered(r))
    && (r.key.kind.IsOpenLoop() ==> GridFilled(r))
    && (r.key.kind == Connections ==> r.cyclesInWindow.Some? && r.cyclesInWindow.value >= 1)
  }

  /** The window starts a warm-up after a whole second, and lasts its seconds. */
  predicate WindowAsPlanned(r: RunRecord) {
    && r.originNs % SECOND == 0 && r.windowSecs >= 1
    && r.window.startNs == r.originNs + r.warmupSecs * SECOND
    && r.window.endNs == r.window.startNs + r.windowSecs * SECOND
  }

  /** The rate of the last seconds is within a tenth of the whole window's. */
  predicate Steady(r: RunRecord) {
    && r.throughput.Some? && r.last10s.Some? && r.throughput.value > 0.0
    && 10.0 * (r.last10s.value - r.throughput.value) <= r.throughput.value
    && 10.0 * (r.throughput.value - r.last10s.value) <= r.throughput.value
  }

  /** At p99 lateness is a tenth of latency or less, and at most 50 ms worth of slots are left over at the end. */
  predicate KeptUp(r: RunRecord) {
    && r.errors.latenessOverRange == 0
    && r.latenessP99Ns.Some? && r.latencyNs.Some? && 10 * r.latenessP99Ns.value <= r.latencyNs.value.p99
    && r.key.offeredRate.Some? && r.counts.windowScheduled.Some?
    && 20 * (r.counts.windowScheduled.value - WindowDeliveries(r)) <= r.key.offeredRate.value
  }

  predicate Near(t: Option<nat>, boundary: nat) {
    t.Some? && -10_000_000 <= t.value - boundary <= 10_000_000
  }

  /** The counter counted the window, ended as asked, and there were deliveries to count for. */
  predicate CountedWindow(r: RunRecord) {
    && r.syscalls.count.Some? && Near(r.syscalls.enabledNs, r.window.startNs)
    && Near(r.syscalls.disabledNs, r.window.endNs)
    && (r.syscalls.exit == Some(Code(0)) || r.syscalls.exit == Some(Signal(2)))
    && WindowDeliveries(r) > 0
  }

  /** Nothing around the run spoiled it. */
  predicate Undisturbed(r: RunRecord) {
    && r.harnessErrors == [] && WindowAsPlanned(r)
    && (r.key.server == Uring ==> r.driver == Some(DriverFds(r.key.workers, 0)))
    && (r.key.kind == Throughput ==> Steady(r))
    && (r.key.kind.IsOpenLoop() ==> KeptUp(r))
    && (r.key.kind == Counted ==> CountedWindow(r))
  }

  // ---------------------------------------------------------------- the rows, group by group

  predicate Passes(r: RunRecord, rows: set<nat>) {
    forall n | n in rows :: !RowFails(r, n)
  }

  lemma {:induction false} NoReasons(r: RunRecord)
    ensures Reconcile(r) == [] <==> r.harnessErrors == [] && forall n | 1 <= n <= 31 :: !RowFails(r, n)
  {
    if Reconcile(r) == [] {
      forall n | 1 <= n <= 31 ensures !RowFails(r, n) { ReconcileMeaning(r, Row(n)); }
    } else {
      ReconcileMeaning(r, Reconcile(r)[0]);
    }
  }

  lemma {:induction false} AmissRows(r: RunRecord)
    requires r.counts.delivered <= U64_MAX
    ensures NothingAmiss(r) <==> Passes(r, {4, 5, 9, 10, 12, 16, 17, 29})
  {
  }

  lemma {:induction false} DeliveredRows(r: RunRecord)
    requires r.counts.unresolved == Unresolved(r.counts) && r.counts.delivered <= U64_MAX
    ensures (r.key.kind == Throughput || r.key.kind.IsOpenLoop() ==> AllDelivered(r)) <==> Passes(r, {2, 3, 6, 13})
  {
  }

  lemma {:induction false} HistogramRow(h: Histogram, extra: nat, expected: Option<nat>)
    requires expected.Some? && expected.value <= U64_MAX && extra == 0
    ensures WellFormed(h) && Total(h) + extra == expected.value <==> !HistogramDisagrees(h, extra, expected)
  {
    HistogramTotalMeaning(h);
  }

  lemma {:induction false} GridRow(r: RunRecord)
    requires r.key.kind.IsOpenLoop() && r.window.startNs <= r.window.endNs && !RowFails(r, 1)
    ensures !RowFails(r, 27) <==>
              && r.key.offeredRate.Some? && r.counts.windowScheduled.Some?
              && SlotCounts(r.key.offeredRate.value, r.originNs, r.window)
                 == Some((r.counts.offered, r.counts.windowScheduled.value))
  {
    if r.key.offeredRate.Some? { SlotCountsAreLiteral(r.key.offeredRate.value, r.originNs, r.window); }
  }

  lemma {:induction false} GridRows(r: RunRecord)
    requires r.key.kind.IsOpenLoop() && r.window.startNs <= r.window.endNs && r.errors.latenessOverRange == 0
    ensures GridFilled(r) <==> Passes(r, {1, 11, 14, 15, 24, 25, 27})
  {
    assert !RowFails(r, 1) <==> r.counts.scheduled == Some(r.counts.offered);
    assert !RowFails(r, 11) <==> r.errors.missedSlots == 0;
    assert !RowFails(r, 14) <==> r.latencyNs.Some?;
    assert !RowFails(r, 24) <==> r.lastWriteStartNs.Some? && r.lastWriteStartNs.value < r.window.endNs;
    if !RowFails(r, 1) {
      GridRow(r);
      if r.latencyNs.Some? && r.counts.windowScheduled.Some? && r.counts.windowScheduled.value <= U64_MAX {
        HistogramRow(r.latencyNs.value.histogram, 0, r.counts.windowScheduled);
        HistogramRow(r.lateness, 0, r.counts.windowScheduled);
        assert !RowFails(r, 15) <==> !HistogramDisagrees(r.latencyNs.value.histogram, 0, r.counts.windowScheduled);
        assert !RowFails(r, 25) <==> !HistogramDisagrees(r.lateness, 0, r.counts.windowScheduled);
      }
    }
  }

  lemma {:induction false} WindowRow(r: RunRecord)
    ensures WindowAsPlanned(r) <==> !RowFails(r, 26)
  {
  }

  lemma {:induction false} WithinTenth(difference: real, whole: real)
    requires whole > 0.0
    ensures difference / whole <= 0.10 <==> 10.0 * difference <= whole
  {
    assert difference == (difference / whole) * whole;
    if difference / whole <= 0.10 { assert (difference / whole) * whole <= 0.10 * whole; }
    if difference / whole > 0.10 { assert (difference / whole) * whole > 0.10 * whole; }
  }

  lemma {:induction false} SteadyRow(r: RunRecord)
    requires r.key.kind == Throughput
    ensures Steady(r) <==> !RowFails(r, 7)
  {
    if r.throughput.Some? && r.last10s.Some? && r.throughput.value > 0.0 {
      var whole, tail := r.throughput.value, r.last10s.value;
      WithinTenth(if tail >= whole then tail - whole else whole - tail, whole);
    }
  }

  lemma {:induction false} LatenessShare(late: nat, p99: nat)
    ensures late as real > GENERATOR_LATENESS_FRACTION * p99 as real <==> 10 * late > p99
  {
  }

  lemma {:induction false} BacklogShare(scheduled: nat, delivered: nat, rate: nat)
    ensures SatSub(scheduled, delivered) * SECOND > STEADY_STATE_GROWTH_LIMIT_NS * rate
            <==> 20 * (scheduled - delivered) > rate
  {
  }

  lemma {:induction false} BacklogTest(r: RunRecord, deliveries: nat)
    requires r.key.kind.IsOpenLoop() && r.key.offeredRate.Some? && r.counts.windowScheduled.Some?
    requires deliveries == WindowDeliveries(r)
    ensures RowFails(r, 31) <==> SatSub(r.counts.windowScheduled.value, deliveries) * SECOND
                                 > STEADY_STATE_GROWTH_LIMIT_NS * r.key.offeredRate.value
  {
  }

  lemma {:induction false} BacklogRow(r: RunRecord, deliveries: nat)
    requires r.key.kind.IsOpenLoop() && r.key.offeredRate.Some? && r.counts.windowScheduled.Some?
    requires deliveries == WindowDeliveries(r)
    ensures 20 * (r.counts.windowScheduled.value - deliveries) <= r.key.offeredRate.value <==> !RowFails(r, 31)
  {
    BacklogTest(r, deliveries);
    BacklogShare(r.counts.windowScheduled.value, deliveries, r.key.offeredRate.value);
  }

  lemma {:induction false} LatenessRow(r: RunRecord)
    requires r.key.kind.IsOpenLoop() && r.latencyNs.Some?
    ensures r.latenessP99Ns.Some? && 10 * r.latenessP99Ns.value <= r.latencyNs.value.p99 <==> !RowFails(r, 18)
  {
    if r.latenessP99Ns.Some? { LatenessShare(r.latenessP99Ns.value, r.latencyNs.value.p99); }
  }

  lemma {:induction false} OverRangeRow(r: RunRecord)
    requires r.key.kind.IsOpenLoop()
    ensures r.errors.latenessOverRange == 0 <==> !RowFails(r, 21)
  {
  }

  lemma {:induction false} KeptUpRows(r: RunRecord)
    requires r.key.kind.IsOpenLoop() && r.latencyNs.Some? && r.key.offeredRate.Some? && r.counts.windowScheduled.Some?
    ensures KeptUp(r) <==> !RowFails(r, 18) && !RowFails(r, 21) && !RowFails(r, 31)
  {
    LatenessRow(r);
    OverRangeRow(r);
    BacklogRow(r, WindowDeliveries(r));
  }

  lemma {:induction false} NearIsNotFar(t: Option<nat>, boundary: nat)
    ensures Near(t, boundary) <==> !FarFrom(t, boundary)
  {
  }

  lemma {:induction false} CounterRows(r: RunRecord)
    requires r.key.kind == Counted
    ensures CountedWindow(r) <==> Passes(r, {19, 22, 23, 30})
  {
    NearIsNotFar(r.syscalls.enabledNs, r.window.startNs);
    NearIsNotFar(r.syscalls.disabledNs, r.window.endNs);
    CounterRow(r);
    assert !RowFails(r, 19) <==> r.syscalls.count.Some?;
    assert !RowFails(r, 30) <==> WindowDeliveries(r) > 0;
    assert !RowFails(r, 23) <==> r.syscalls.exit == Some(Code(0)) || r.syscalls.exit == Some(Signal(2));
  }

  lemma {:induction false} CounterRow(r: RunRecord)
    requires r.key.kind == Counted
    ensures !FarFrom(r.syscalls.enabledNs, r.window.startNs) && !FarFrom(r.syscalls.disabledNs, r.window.endNs)
            <==> !RowFails(r, 22)
  {
  }

  /** Rows of one kind of run pass for every other kind. */
  lemma {:induction false} OtherKinds(r: RunRecord)
    ensures !r.key.kind.IsOpenLoop() ==> Passes(r, {1, 11, 14, 15, 18, 21, 24, 25, 27, 31})
    ensures r.key.kind != Throughput ==> !RowFails(r, 7)
    ensures r.key.kind != Counted ==> Passes(r, {19, 22, 23, 30})
  {
  }

  /**
    A record is valid exactly when its accounts balance and nothing disturbed the run. The two
    hypotheses are what every record has by construction: the unresolved count is what is left of the
    offered publishes, and the delivered count is a `u64`.
    */
  lemma {:induction false} ValidMeans(r: RunRecord)
    requires r.counts.unresolved == Unresolved(r.counts) && r.counts.delivered <= U64_MAX
    ensures Reconcile(r) == [] <==> Balanced(r) && Undisturbed(r)
  {
    NoReasons(r);
    AmissRows(r);
    DeliveredRows(r);
    WindowRow(r);
    OtherKinds(r);
    if r.key.kind == Throughput { SteadyRow(r); }
    if r.key.kind == Counted { CounterRows(r); }
    if r.key.kind.IsOpenLoop() { OpenLoopRows(r); }
    PlainRows(r);
    RowGroups(r);
  }

  lemma {:induction false} PlainRows(r: RunRecord)
    ensures (r.key.server == Uring ==> r.driver == Some(DriverFds(r.key.workers, 0))) <==> !RowFails(r, 8)
    ensures (r.key.kind == Connections ==> r.cyclesInWindow.Some? && r.cyclesInWindow.value >= 1) <==> !RowFails(r, 20)
    ensures !RowFails(r, 28)
  {
  }

  lemma {:induction false} OpenLoopRows(r: RunRecord)
    requires r.key.kind.IsOpenLoop()
    ensures GridFilled(r) && KeptUp(r) && WindowAsPlanned(r)
            <==> Passes(r, {1, 11, 14, 15, 24, 25, 27}) && Passes(r, {18, 21, 31}) && WindowAsPlanned(r)
  {
    if WindowAsPlanned(r) && r.errors.latenessOverRange == 0 {
      GridRows(r);
      if r.latencyNs.Some? && r.key.offeredRate.Some? && r.counts.windowScheduled.Some? { KeptUpRows(r); }
      assert !RowFails(r, 14) <==> r.latencyNs.Some?;
      assert !RowFails(r, 27) ==> r.key.offeredRate.Some? && r.counts.windowScheduled.Some?;
    }
    assert !RowFails(r, 21) <==> r.errors.latenessOverRange == 0;
  }

  /** The groups are all the rows. */
  lemma {:induction false} RowGroups(r: RunRecord)
    ensures (forall n | 1 <= n <= 31 :: !RowFails(r, n)) <==>
              && Passes(r, {4, 5, 9, 10, 12, 16, 17, 29}) && Passes(r, {2, 3, 6, 13})
              && Passes(r, {1, 11, 14, 15, 24, 25, 27}) && Passes(r, {18, 21, 31}) && Passes(r, {19, 22, 23, 30})
              && !RowFails(r, 7) && !RowFails(r, 8) && !RowFails(r, 20) && !RowFails(r, 26) && !RowFails(r, 28)
  {
  }

  /** Of a record whose accounts balance, only rows that judge something else can fail. */
  lemma {:induction false} BalancedPasses(r: RunRecord, n: nat)
    requires r.counts.unresolved == Unresolved(r.counts) && r.counts.delivered <= U64_MAX
    requires r.key.kind.IsOpenLoop() && Balanced(r) && r.window.startNs <= r.window.endNs && RowFails(r, n)
    ensures n in {8, 18, 19, 21, 22, 23, 26, 30, 31}
  {
    AmissRows(r);
    DeliveredRows(r);
    GridRow(r);
    HistogramTotalMeaning(r.latencyNs.value.histogram);
    HistogramTotalMeaning(r.lateness);
    assert !RowFails(r, 15) && !RowFails(r, 25);
  }
}
