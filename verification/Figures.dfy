/** The figures a record publishes, read off the deliveries they summarise. */
module Figures {
  import opened Arith
  import opened Slots
  import opened Histogram
  import opened Deliveries
  import opened RunRecords
  import opened Analysis
  import opened Rec = Recorder

  // ---------------------------------------------------------------- counting first calls

  lemma {:induction false} FirstsSame(calls: seq<Call>, p: Delivery -> bool, q: Delivery -> bool)
    requires forall d :: p(d) <==> q(d)
    ensures Firsts(calls, p) == Firsts(calls, q)
  {
  }

  lemma {:induction false} FirstsSplit(calls: seq<Call>, p: Delivery -> bool, q: Delivery -> bool,
                                       both: Delivery -> bool)
    requires forall d :: (both(d) <==> p(d) || q(d)) && !(p(d) && q(d))
    ensures |Firsts(calls, both)| == |Firsts(calls, p)| + |Firsts(calls, q)|
  {
    assert Firsts(calls, both) == Firsts(calls, p) + Firsts(calls, q);
    assert Firsts(calls, p) !! Firsts(calls, q);
  }

  /** The latencies a histogram samples: scheduled in the window, and in range. */
  ghost function Sampled(w: Window): Delivery -> bool {
    d => Timed(d, w) && d.nowNs <= d.scheduledNs + LATENCY_MAX_NS
  }

  /** Those of `v` nanoseconds or less. */
  ghost function TookWithin(w: Window, v: nat): Delivery -> bool {
    d => Timed(d, w) && d.nowNs <= d.scheduledNs + LATENCY_MAX_NS && d.nowNs <= d.scheduledNs + v
  }

  /** Those reported in a bucket below `v`. */
  ghost function TookBelow(w: Window, v: nat): Delivery -> bool {
    d => Timed(d, w) && d.nowNs <= d.scheduledNs + LATENCY_MAX_NS && LatencyBucket(d) < v
  }

  ghost predicate BucketsRead(h: Histogram, w: Window, calls: seq<Call>) {
    && WellFormed(h)
    && forall top: nat {:trigger CountAt(h, top)} :: CountAt(h, top) == |Firsts(calls, TookAt(w, top))|
  }

  lemma {:induction false} UpToReads(h: Histogram, w: Window, calls: seq<Call>, v: nat)
    requires BucketsRead(h, w, calls)
    ensures UpTo(h, v) == |Firsts(calls, TookBelow(w, v + 1))|
  {
    if v == 0 {
      UpToZero(h);
      FirstsSame(calls, TookAt(w, 0), TookBelow(w, 1));
    } else {
      UpToReads(h, w, calls, v - 1);
      UpToStep(h, v - 1);
      FirstsSplit(calls, TookBelow(w, v), TookAt(w, v), TookBelow(w, v + 1));
    }
  }

  lemma {:induction false} UpToPrefix(h: Histogram, n: nat, v: nat)
    requires n <= |h| && (forall i | 0 <= i < n :: h[i].0 <= v) && forall i | n <= i < |h| :: h[i].0 > v
    ensures UpTo(h, v) == Cumulative(h, n)
  {
    if h == [] {
    } else if n == 0 {
      UpToPrefix(h[1..], 0, v);
      assert h[..0] == h[1..][..0];
    } else {
      UpToPrefix(h[1..], n - 1, v);
      assert h[..n][1..] == h[1..][..n - 1];
    }
  }

  lemma {:induction false} TotalReads(h: Histogram, w: Window, calls: seq<Call>)
    requires BucketsRead(h, w, calls)
    ensures Total(h) == |Firsts(calls, Sampled(w))|
  {
    UpToPrefix(h, |h|, LATENCY_BUCKET_MAX_NS);
    assert h[..|h|] == h;
    UpToReads(h, w, calls, LATENCY_BUCKET_MAX_NS);
    forall d ensures TookBelow(w, LATENCY_BUCKET_MAX_NS + 1)(d) <==> Sampled(w)(d) {
      if Sampled(w)(d) { BucketTopInRange(if d.nowNs > d.scheduledNs then d.nowNs - d.scheduledNs else 1); }
    }
    FirstsSame(calls, TookBelow(w, LATENCY_BUCKET_MAX_NS + 1), Sampled(w));
  }

  lemma {:induction false} CountAtBucket(h: Histogram, k: nat)
    requires k < |h|
    ensures CountAt(h, h[k].0) >= h[k].1
  {
    if k > 0 { CountAtBucket(h[1..], k - 1); }
  }

  /** A bucket with a sample is its own top. */
  lemma {:induction false} RecordedBucket(h: Histogram, w: Window, calls: seq<Call>, k: nat)
    requires BucketsRead(h, w, calls) && k < |h| && h[k].1 > 0
    ensures BucketTop(h[k].0) == h[k].0
  {
    CountAtBucket(h, k);
    assert CountAt(h, h[k].0) == |Firsts(calls, TookAt(w, h[k].0))|;
    var i :| i in Firsts(calls, TookAt(w, h[k].0));
    var d := calls[i].d;
    BucketIsNarrow(if d.nowNs > d.scheduledNs then d.nowNs - d.scheduledNs else 1);
  }

  /** Up to the top of a bucket, a latency's bucket is no higher exactly when the latency is not. */
  lemma {:induction false} WithinBucket(w: Window, calls: seq<Call>, v: nat)
    requires v >= 1 && BucketTop(v) == v
    ensures Firsts(calls, TookBelow(w, v + 1)) == Firsts(calls, TookWithin(w, v))
  {
    forall d ensures TookBelow(w, v + 1)(d) <==> TookWithin(w, v)(d) {
      if Timed(d, w) {
        var took := if d.nowNs > d.scheduledNs then d.nowNs - d.scheduledNs else 1;
        BucketIsNarrow(took);
        if took <= v { BucketTopMonotone(took, v); }
      }
    }
    FirstsSame(calls, TookBelow(w, v + 1), TookWithin(w, v));
  }

  // ---------------------------------------------------------------- percentiles

  /** Of all sampled latencies the share `q` is at most `v`, and at least one is; those in lower buckets are fewer. */
  ghost predicate Quantile(calls: seq<Call>, w: Window, q: real, v: nat) {
    var all := |Firsts(calls, Sampled(w))|;
    var within := |Firsts(calls, TookWithin(w, v))|;
    var below := |Firsts(calls, TookBelow(w, v))|;
    && within >= 1 && within as real >= q * all as real
    && (below == 0 || (below as real) < q * all as real)
  }

  lemma {:induction false} CumulativeReads(h: Histogram, w: Window, calls: seq<Call>, k: nat)
    requires BucketsRead(h, w, calls) && k < |h| && h[k].1 > 0
    ensures Cumulative(h, k + 1) == |Firsts(calls, TookWithin(w, h[k].0))|
    ensures Cumulative(h, k) == |Firsts(calls, TookBelow(w, h[k].0))|
  {
    var v := h[k].0;
    UpToPrefix(h, k + 1, v);
    UpToPrefix(h, k, v - 1);
    UpToReads(h, w, calls, v);
    UpToReads(h, w, calls, v - 1);
    RecordedBucket(h, w, calls, k);
    WithinBucket(w, calls, v);
  }

  /** A percentile of the latency histogram is that quantile of the latencies themselves. */
  lemma {:induction false} PercentileReads(h: Histogram, w: Window, calls: seq<Call>, q: real)
    requires BucketsRead(h, w, calls) && 0.0 <= q <= 1.0 && 1 <= |Firsts(calls, Sampled(w))| <= U64_MAX
    ensures Percentile(h, q).Some? && Quantile(calls, w, q, Percentile(h, q).value)
  {
    TotalReads(h, w, calls);
    var k := PercentileMeaning(h, q);
    CumulativeStep(h, k);
    CumulativeReads(h, w, calls, k);
  }

  /** Without a sample there is none. */
  lemma {:induction false} NoSampleNoPercentile(h: Histogram, w: Window, calls: seq<Call>, q: real)
    requires BucketsRead(h, w, calls) && Firsts(calls, Sampled(w)) == {}
    ensures Percentile(h, q).None?
  {
    TotalReads(h, w, calls);
    HistogramTotalMeaning(h);
  }

  lemma {:induction false} FirstsAtMost(calls: seq<Call>, p: Delivery -> bool)
    ensures |Firsts(calls, p)| <= |calls|
  {
    if calls == [] {
      assert Firsts(calls, p) == {};
    } else {
      var before := calls[..|calls| - 1];
      FirstsAtMost(before, p);
      FirstsStep(before, calls[|calls| - 1], p);
      assert calls == before + [calls[|calls| - 1]];
    }
  }

  // ---------------------------------------------------------------- the derived fields

  /** The record's latency histogram and timeline are the report's, over these calls. */
  ghost predicate Holds(r: RunRecord, d: DeliveryReport, calls: seq<Call>) {
    && Reads(d, r.window, calls) && |calls| <= U64_MAX && r.timeline == d.timeline
    && (r.key.kind.IsOpenLoop() ==> r.latencyNs.Some? && r.latencyNs.value.histogram == d.latency)
  }

  /** Median, p99 and maximum of an open-loop run are those of its latencies, and 0 without any. */
  ghost predicate LatencyFigures(s: LatencySummary, w: Window, calls: seq<Call>) {
    if Firsts(calls, Sampled(w)) == {} then s.p50 == 0 && s.p99 == 0 && s.max == 0
    else Quantile(calls, w, 0.5, s.p50) && Quantile(calls, w, 0.99, s.p99) && Quantile(calls, w, 1.0, s.max)
  }

  lemma {:induction false} LatencyFiguresRead(h: Histogram, w: Window, calls: seq<Call>)
    requires BucketsRead(h, w, calls) && |calls| <= U64_MAX
    ensures LatencyFigures(Summarise(h), w, calls)
  {
    if Firsts(calls, Sampled(w)) == {} {
      NoSampleNoPercentile(h, w, calls, 0.5);
      NoSampleNoPercentile(h, w, calls, 0.99);
      NoSampleNoPercentile(h, w, calls, 1.0);
    } else {
      FirstsAtMost(calls, Sampled(w));
      assert |Firsts(calls, Sampled(w))| >= 1;
      PercentileReads(h, w, calls, 0.5);
      PercentileReads(h, w, calls, 0.99);
      PercentileReads(h, w, calls, 1.0);
    }
  }

  /** Whole seconds before the window's end, and how many of them make its tail. */
  function EndOf(w: Window): nat {
    w.endNs / SECOND
  }

  function TailOf(windowSecs: nat): nat {
    if windowSecs < 10 then windowSecs else 10
  }

  /** Deliveries per second over the window, and over its last ten seconds or all of a shorter one. */
  ghost predicate RateFigures(rates: (Option<real>, Option<real>), w: Window, windowSecs: nat, calls: seq<Call>) {
    if windowSecs == 0 || EndOf(w) < TailOf(windowSecs) then rates == (None, None)
    else rates == (Some(Per(|Firsts(calls, During(w.startNs / SECOND, EndOf(w)))|, windowSecs)),
                   Some(Per(|Firsts(calls, During(EndOf(w) - TailOf(windowSecs), EndOf(w)))|, TailOf(windowSecs))))
  }

  lemma {:induction false} RateFiguresRead(t: Timeline, w: Window, windowSecs: nat, calls: seq<Call>)
    requires TimelineReads(t, calls)
    ensures RateFigures(RatesOf(t, w, windowSecs), w, windowSecs, calls)
  {
    if windowSecs > 0 && EndOf(w) >= TailOf(windowSecs) {
      var whole := |Firsts(calls, During(w.startNs / SECOND, EndOf(w)))|;
      var tail := |Firsts(calls, During(EndOf(w) - TailOf(windowSecs), EndOf(w)))|;
      assert SumSecs(t, w.startNs / SECOND, EndOf(w)) == whole;
      assert SumSecs(t, EndOf(w) - TailOf(windowSecs), EndOf(w)) == tail;
      RatesAre(t, w, windowSecs, whole, tail);
    }
  }

  lemma {:induction false} RatesAre(t: Timeline, w: Window, windowSecs: nat, whole: nat, tail: nat)
    requires windowSecs > 0 && EndOf(w) >= TailOf(windowSecs)
    requires whole == SumSecs(t, w.startNs / SECOND, EndOf(w))
    requires tail == SumSecs(t, EndOf(w) - TailOf(windowSecs), EndOf(w))
    ensures RatesOf(t, w, windowSecs) == (Some(Per(whole, windowSecs)), Some(Per(tail, TailOf(windowSecs))))
  {
  }

  /** Counted syscalls per delivery of the window, where there are both. */
  ghost predicate SyscallFigure(perMsg: Option<real>, count: Option<nat>, w: Window, calls: seq<Call>) {
    var deliveries := |Firsts(calls, During(w.startNs / SECOND, w.endNs / SECOND))|;
    perMsg == if count.None? || deliveries == 0 then None else Some(Per(count.value, deliveries))
  }

  /** Connect cycles per second of the window, of a run that counted them. */
  predicate ConnectionFigure(rate: Option<Float>, r: RunRecord) {
    if r.key.kind != Connections || r.cyclesInWindow.None? then rate.None?
    else if r.windowSecs == 0 then rate == Some(if r.cyclesInWindow.value == 0 then NaN else Infinite)
    else rate == Some(Finite(Per(r.cyclesInWindow.value, r.windowSecs)))
  }

  /**
    Every derived figure of a record, from its deliveries: latency quantiles of an open-loop run,
    rates of a throughput run, syscalls per delivery of the window, connect cycles per second.
    */
  lemma {:induction false} FiguresRead(r: RunRecord, d: DeliveryReport, calls: seq<Call>, parse: Parser)
    requires Holds(r, d, calls)
    ensures var figures := Derive(r, parse);
            && (r.key.kind.IsOpenLoop() ==>
                  figures.latencyNs.Some? && LatencyFigures(figures.latencyNs.value, r.window, calls))
            && (r.key.kind == Throughput ==>
                  RateFigures((figures.throughput, figures.last10s), r.window, r.windowSecs, calls))
            && SyscallFigure(figures.syscallsPerMsg, figures.syscallCount, r.window, calls)
            && ConnectionFigure(figures.connectionsPerSec, r)
  {
    if r.key.kind.IsOpenLoop() { LatencyFiguresRead(d.latency, r.window, calls); }
    if r.key.kind == Throughput { RateFiguresRead(r.timeline, r.window, r.windowSecs, calls); }
  }
}
