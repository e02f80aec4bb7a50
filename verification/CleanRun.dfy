/**
  From the slot grid to the verdict, for whole open-loop runs: a record is valid exactly when every
  slot was offered, written and answered, every publish arrived once and in time, and nothing around
  the run disturbed it.
  */
module CleanRun {
  import opened Arith
  import opened Slots
  import opened Histogram
  import opened Payload
  import opened Pacer
  import opened Accounts
  import opened Generator
  import opened Deliveries
  import opened RunRecords
  import opened Analysis
  import opened Judgement
  import opened Verdict
  import opened Arrivals
  import Rec = Recorder
  import Figures

  // ---------------------------------------------------------------- slots due inside the window

  /** Slots due before the window opens. */
  function BeforeWindow(cfg: GenConfig): nat {
    DivCeil(Sat128(SatSub(cfg.window.startNs, cfg.origin) * cfg.rate), SECOND)
  }

  lemma {:induction false} BeforeWindowIsExact(cfg: GenConfig, connId: u32, k: nat)
    requires Accepts(cfg) && connId < cfg.connections
    ensures k < OwnSlotCount(connId, cfg.connections, BeforeWindow(cfg)) <==> Due(cfg, connId, k) < cfg.window.startNs
  {
    var j := SlotIndex(connId, k, cfg.connections);
    OwnInversion(connId, cfg.connections, BeforeWindow(cfg), k);
    ProductFits(cfg.window.startNs - cfg.origin, cfg.rate);
    OffsetInversion(j, cfg.window.startNs - cfg.origin, cfg.rate);
  }

  /** Of a connection's first `m` slots, those in the window are the ones not due before it. */
  lemma {:induction false} CountOneMore(cfg: GenConfig, connId: u32, m: nat)
    requires cfg.rate >= 1
    ensures CountInWindow(cfg, connId, Run(0, m + 1))
         == CountInWindow(cfg, connId, Run(0, m)) + if InWindow(cfg, connId, m) then 1 else 0
  {
    assert Run(0, m + 1)[..m] == Run(0, m);
  }

  lemma {:induction false} OwnInWindow(cfg: GenConfig, connId: u32, m: nat)
    requires Accepts(cfg) && connId < cfg.connections && m <= Own(cfg, connId)
    ensures CountInWindow(cfg, connId, Run(0, m)) == SatSub(m, OwnSlotCount(connId, cfg.connections, BeforeWindow(cfg)))
  {
    if m > 0 {
      OwnInWindow(cfg, connId, m - 1);
      CountOneMore(cfg, connId, m - 1);
      ScheduledInWindow(cfg, connId, m - 1);
    }
  }

  /** A scheduled slot is in the window exactly when it is not due before it. */
  lemma {:induction false} ScheduledInWindow(cfg: GenConfig, connId: u32, k: nat)
    requires Accepts(cfg) && connId < cfg.connections && k < Own(cfg, connId)
    ensures InWindow(cfg, connId, k) <==> k >= OwnSlotCount(connId, cfg.connections, BeforeWindow(cfg))
  {
    BeforeWindowIsExact(cfg, connId, k);
    OwnIsScheduled(cfg, connId, k);
  }

  lemma {:induction false} OwnBeforeWindow(cfg: GenConfig, connId: u32)
    requires Accepts(cfg) && connId < cfg.connections
    ensures OwnSlotCount(connId, cfg.connections, BeforeWindow(cfg)) <= Own(cfg, connId)
  {
    var before := OwnSlotCount(connId, cfg.connections, BeforeWindow(cfg));
    if before > 0 {
      BeforeWindowIsExact(cfg, connId, before - 1);
      OwnIsScheduled(cfg, connId, before - 1);
    }
  }

  /** A connection that opened and ended by itself, missed no slot, and counted no failure. */
  predicate Complete(r: ConnResult) {
    r.ending.Ended? && r.c.missed == 0 && r.c.stalled == 0 && r.c.protocolErrors == 0
  }

  ghost predicate AllComplete(cfg: GenConfig, rs: seq<ConnResult>) {
    AllSettled(cfg, rs) && forall i | 0 <= i < |rs| :: Complete(rs[i])
  }

  lemma {:induction false} CompleteSendsAll(cfg: GenConfig, connId: u32, r: ConnResult)
    requires Accepts(cfg) && connId < cfg.connections && Settled(cfg, connId, r) && Complete(r)
    ensures r.sent == Run(0, Own(cfg, connId))
    ensures CountInWindow(cfg, connId, r.sent)
         == Own(cfg, connId) - OwnSlotCount(connId, cfg.connections, BeforeWindow(cfg))
  {
    FullIsRun(r.sent, Own(cfg, connId));
    OwnInWindow(cfg, connId, Own(cfg, connId));
    OwnBeforeWindow(cfg, connId);
  }

  lemma {:induction false} CompletePrefix(cfg: GenConfig, rs: seq<ConnResult>)
    requires AllComplete(cfg, rs) && rs != []
    ensures AllComplete(cfg, rs[..|rs| - 1]) && Settled(cfg, |rs| - 1, rs[|rs| - 1]) && Complete(rs[|rs| - 1])
  {
    SettledPrefix(cfg, rs);
  }

  /** In-window publishes of the first `|rs|` connections. */
  function InWindowAll(cfg: GenConfig, rs: seq<ConnResult>): nat
    requires cfg.rate >= 1
  {
    if rs == [] then 0
    else InWindowAll(cfg, rs[..|rs| - 1]) + CountInWindow(cfg, |rs| - 1, rs[|rs| - 1].sent)
  }

  lemma {:induction false} WindowSlotsShared(cfg: GenConfig, rs: seq<ConnResult>)
    requires AllComplete(cfg, rs)
    ensures InWindowAll(cfg, rs) + SumOwn(|rs|, cfg.connections, BeforeWindow(cfg))
         == SumOwn(|rs|, cfg.connections, Scheduled(cfg))
  {
    if rs != [] {
      CompletePrefix(cfg, rs);
      WindowSlotsShared(cfg, rs[..|rs| - 1]);
      CompleteSendsAll(cfg, |rs| - 1, rs[|rs| - 1]);
      OwnBeforeWindow(cfg, |rs| - 1);
    }
  }

  /** A complete run publishes exactly the window's scheduled slots inside the window. */
  lemma {:induction false} CompleteRunFillsWindow(cfg: GenConfig, rs: seq<ConnResult>)
    requires AllComplete(cfg, rs) && |rs| == cfg.connections
    ensures SlotCounts(cfg.rate, cfg.origin, cfg.window) == Some((Scheduled(cfg), InWindowAll(cfg, rs)))
  {
    WindowSlotsShared(cfg, rs);
    OwnCountsPartition(cfg.connections, Scheduled(cfg));
    OwnCountsPartition(cfg.connections, BeforeWindow(cfg));
    SlotCountsAreLiteral(cfg.rate, cfg.origin, cfg.window);
  }

  // ---------------------------------------------------------------- the generator's report

  /** The generator counts no failure exactly when every connection is complete. */
  lemma {:induction false} FailureFree(cfg: GenConfig, rs: seq<ConnResult>)
    requires AllSettled(cfg, rs)
    ensures AllComplete(cfg, rs) <==>
              && Sum(Missed, rs) == 0 && Sum(Stalled, rs) == 0 && Sum(ProtocolErrors, rs) == 0
              && RefusedCount(rs) == 0 && CutCount(rs) == 0
  {
    if rs != [] {
      SettledPrefix(cfg, rs);
      FailureFree(cfg, rs[..|rs| - 1]);
      CompleteSplit(cfg, rs);
      FailureOfLast(cfg, |rs| - 1, rs[|rs| - 1]);
    }
  }

  lemma {:induction false} FailureOfLast(cfg: GenConfig, connId: u32, r: ConnResult)
    requires Accepts(cfg) && connId < cfg.connections && Settled(cfg, connId, r)
    ensures Complete(r) <==>
              && Read(Missed, r.c) == 0 && Read(Stalled, r.c) == 0 && Read(ProtocolErrors, r.c) == 0
              && !r.ending.Refused? && !r.ending.CutShort?
  {
  }

  lemma {:induction false} CompleteSplit(cfg: GenConfig, rs: seq<ConnResult>)
    requires AllSettled(cfg, rs) && rs != [] && AllSettled(cfg, rs[..|rs| - 1])
    ensures AllComplete(cfg, rs) <==> AllComplete(cfg, rs[..|rs| - 1]) && Complete(rs[|rs| - 1])
  {
    var before := rs[..|rs| - 1];
    assert forall i | 0 <= i < |before| :: before[i] == rs[i];
  }

  /** The publishes of a connection whose writes had completed. */
  function Written(r: ConnResult): seq<nat>
    requires |r.sends| <= |r.sent|
  {
    r.sent[..|r.sends|]
  }

  /** In-window publishes whose writes had completed, over all connections. */
  ghost function WrittenInWindow(cfg: GenConfig, rs: seq<ConnResult>): nat
    requires AllSettled(cfg, rs)
  {
    if rs == [] then 0
    else
      SettledPrefix(cfg, rs);
      WrittenInWindow(cfg, rs[..|rs| - 1]) + CountInWindow(cfg, |rs| - 1, Written(rs[|rs| - 1]))
  }

  /** No write of an in-window publish failed. */
  ghost predicate WritesDone(cfg: GenConfig, connId: nat, r: ConnResult)
    requires cfg.rate >= 1
  {
    forall j | |r.sends| <= j < |r.sent| :: !InWindow(cfg, connId, r.sent[j])
  }

  lemma {:induction false} NoneInWindow(cfg: GenConfig, connId: nat, slots: seq<nat>)
    requires cfg.rate >= 1
    ensures CountInWindow(cfg, connId, slots) == 0 <==> forall j | 0 <= j < |slots| :: !InWindow(cfg, connId, slots[j])
  {
    if slots != [] {
      var before := slots[..|slots| - 1];
      NoneInWindow(cfg, connId, before);
      assert forall j | 0 <= j < |before| :: before[j] == slots[j];
    }
  }

  lemma {:induction false} WritesDoneMeans(cfg: GenConfig, connId: u32, r: ConnResult)
    requires Accepts(cfg) && connId < cfg.connections && Settled(cfg, connId, r)
    ensures CountInWindow(cfg, connId, Written(r)) <= CountInWindow(cfg, connId, r.sent)
    ensures CountInWindow(cfg, connId, Written(r)) == CountInWindow(cfg, connId, r.sent)
            <==> WritesDone(cfg, connId, r)
  {
    var rest := r.sent[|r.sends|..];
    assert r.sent == Written(r) + rest;
    CountInWindowConcat(cfg, connId, Written(r), rest);
    NoneInWindow(cfg, connId, rest);
    assert forall j | |r.sends| <= j < |r.sent| :: r.sent[j] == rest[j - |r.sends|];
  }

  ghost predicate AllWritten(cfg: GenConfig, rs: seq<ConnResult>)
    requires cfg.rate >= 1
  {
    forall i | 0 <= i < |rs| :: WritesDone(cfg, i, rs[i])
  }

  lemma {:induction false} AllWrittenMeans(cfg: GenConfig, rs: seq<ConnResult>)
    requires AllSettled(cfg, rs)
    ensures WrittenInWindow(cfg, rs) <= InWindowAll(cfg, rs)
    ensures WrittenInWindow(cfg, rs) == InWindowAll(cfg, rs) <==> AllWritten(cfg, rs)
  {
    if rs != [] {
      SettledPrefix(cfg, rs);
      var before := rs[..|rs| - 1];
      AllWrittenMeans(cfg, before);
      WritesDoneMeans(cfg, |rs| - 1, rs[|rs| - 1]);
      WrittenSplit(cfg, rs);
    }
  }

  lemma {:induction false} WrittenSplit(cfg: GenConfig, rs: seq<ConnResult>)
    requires cfg.rate >= 1 && rs != []
    ensures AllWritten(cfg, rs) <==> AllWritten(cfg, rs[..|rs| - 1]) && WritesDone(cfg, |rs| - 1, rs[|rs| - 1])
  {
    var before := rs[..|rs| - 1];
    assert forall i | 0 <= i < |before| :: before[i] == rs[i];
  }

  /** Every in-window publish that was written has its lateness in the report, or over its range. */
  lemma {:induction false} LatenessTotals(cfg: GenConfig, rs: seq<ConnResult>)
    requires AllSettled(cfg, rs)
    ensures WellFormed(MergedLateness(rs))
    ensures Total(MergedLateness(rs)) + Sum(LatenessOver, rs) == WrittenInWindow(cfg, rs)
  {
    if rs != [] {
      SettledPrefix(cfg, rs);
      LatenessTotals(cfg, rs[..|rs| - 1]);
      OneLatenessMore(cfg, rs[..|rs| - 1], |rs| - 1, rs[|rs| - 1]);
    }
  }

  lemma {:induction false} OneLatenessMore(cfg: GenConfig, before: seq<ConnResult>, connId: u32, last: ConnResult)
    requires Accepts(cfg) && connId < cfg.connections && Settled(cfg, connId, last)
    requires WellFormed(MergedLateness(before))
    ensures WellFormed(Merge(MergedLateness(before), last.c.lateness))
    ensures Total(Merge(MergedLateness(before), last.c.lateness)) + last.c.latenessOver
         == Total(MergedLateness(before)) + CountInWindow(cfg, connId, Written(last))
  {
    MergeCounts(MergedLateness(before), last.c.lateness, 0);
    MergeWellFormed(MergedLateness(before), last.c.lateness);
  }

  /** In-window publishes of all connections whose lateness is reported at bucket `top`. */
  ghost function LateAt(cfg: GenConfig, rs: seq<ConnResult>, top: nat): nat
    requires AllSettled(cfg, rs)
  {
    if rs == [] then 0
    else
      SettledPrefix(cfg, rs);
      var r := rs[|rs| - 1];
      LateAt(cfg, rs[..|rs| - 1], top) + CountLateAt(cfg, |rs| - 1, Written(r), r.sends, top)
  }

  /** The merged histogram holds exactly the lateness of what every connection wrote. */
  lemma {:induction false} LatenessReads(cfg: GenConfig, rs: seq<ConnResult>, top: nat)
    requires AllSettled(cfg, rs)
    ensures CountAt(MergedLateness(rs), top) == LateAt(cfg, rs, top)
  {
    if rs != [] {
      SettledPrefix(cfg, rs);
      LatenessReads(cfg, rs[..|rs| - 1], top);
      MergeCounts(MergedLateness(rs[..|rs| - 1]), rs[|rs| - 1].c.lateness, top);
    }
  }

  /** What the generator's report says of a complete run. */
  lemma {:induction false} CompleteReport(cfg: GenConfig, rs: seq<ConnResult>, lastStart: nat)
    requires AllComplete(cfg, rs) && |rs| == cfg.connections
    ensures var g := BuildReport(cfg, rs, lastStart);
            && g.scheduled == Some(g.offered) && g.offered == Scheduled(cfg) <= U64_MAX
            && SlotCounts(cfg.rate, cfg.origin, cfg.window) == Some((g.offered, InWindowAll(cfg, rs)))
            && g.windowScheduled == Some(InWindowAll(cfg, rs)) && InWindowAll(cfg, rs) <= g.offered
            && (cfg.qos == 1 ==> g.acked == Some(g.offered))
            && g.missedSlots == 0 && g.connectErrors == 0 && g.protocolErrors == 0 && g.stalled == 0
  {
    FailureFree(cfg, rs);
    CompleteRunFillsWindow(cfg, rs);
    RunConservesSlots(cfg, rs, lastStart);
    if cfg.qos == 1 { RunConservesPublishes(cfg, rs, lastStart); }
  }

  // ---------------------------------------------------------------- what is published

  /** The stamps read back from every buffer the connections submitted. */
  function Published(rs: seq<ConnResult>): seq<Stamp> {
    if rs == [] then [] else Published(rs[..|rs| - 1]) + rs[|rs| - 1].stamps
  }

  lemma {:induction false} PublishedBelow(cfg: GenConfig, rs: seq<ConnResult>, i: nat)
    requires AllSettled(cfg, rs) && i < |Published(rs)|
    ensures Published(rs)[i].connId < |rs|
  {
    SettledPrefix(cfg, rs);
    if i < |Published(rs[..|rs| - 1])| { PublishedBelow(cfg, rs[..|rs| - 1], i); }
  }

  /** No two publishes of a run share a connection and a sequence number. */
  lemma {:induction false} PublishedAreDistinct(cfg: GenConfig, rs: seq<ConnResult>)
    requires AllSettled(cfg, rs)
    ensures DistinctKeys(Published(rs))
  {
    if rs != [] {
      SettledPrefix(cfg, rs);
      PublishedAreDistinct(cfg, rs[..|rs| - 1]);
      StampsAreDistinct(cfg, |rs| - 1, rs[|rs| - 1]);
      var before := Published(rs[..|rs| - 1]);
      forall i | 0 <= i < |before| ensures before[i].connId < |rs| - 1 { PublishedBelow(cfg, rs[..|rs| - 1], i); }
      DistinctJoin(before, rs[|rs| - 1].stamps, |rs| - 1);
    }
  }

  /** A connection numbers its publishes apart, and stamps them with its own id. */
  lemma {:induction false} StampsAreDistinct(cfg: GenConfig, connId: u32, r: ConnResult)
    requires Accepts(cfg) && connId < cfg.connections && Settled(cfg, connId, r)
    ensures DistinctKeys(r.stamps) && forall i | 0 <= i < |r.stamps| :: r.stamps[i].connId == connId
  {
    OwnIsScheduled(cfg, connId, 0);
    SentWithinOwn(cfg, connId, r);
  }

  lemma {:induction false} DistinctJoin(before: seq<Stamp>, mine: seq<Stamp>, connId: nat)
    requires DistinctKeys(before) && DistinctKeys(mine)
    requires forall i | 0 <= i < |before| :: before[i].connId < connId
    requires forall i | 0 <= i < |mine| :: mine[i].connId == connId
    ensures DistinctKeys(before + mine)
  {
  }

  lemma {:induction false} SentWithinOwn(cfg: GenConfig, connId: u32, r: ConnResult)
    requires Accepts(cfg) && connId < cfg.connections && Settled(cfg, connId, r)
    ensures |r.sent| <= Own(cfg, connId)
  {
    if r.sent != [] { IncreasingAtLeast(r.sent, |r.sent| - 1); }
  }

  lemma {:induction false} PublishedCount(cfg: GenConfig, rs: seq<ConnResult>)
    requires AllComplete(cfg, rs)
    ensures |Published(rs)| == Sum(Offered, rs)
  {
    if rs != [] {
      CompletePrefix(cfg, rs);
      PublishedCount(cfg, rs[..|rs| - 1]);
    }
  }

  lemma {:induction false} ConnStampsInWindow(cfg: GenConfig, connId: u32, sent: seq<nat>, stamps: seq<Stamp>)
    requires Accepts(cfg) && connId < cfg.connections && Below(sent, Own(cfg, connId))
    requires Stamped(cfg, connId, sent, stamps)
    ensures StampsInWindow(stamps, cfg.window) == CountInWindow(cfg, connId, sent)
  {
    if sent != [] {
      var last := |sent| - 1;
      ConnStampsInWindow(cfg, connId, sent[..last], stamps[..last]);
      OwnIsScheduled(cfg, connId, sent[last]);
      assert stamps[last] == StampFor(cfg, connId, last, sent[last]);
    }
  }

  lemma {:induction false} PublishedInWindow(cfg: GenConfig, rs: seq<ConnResult>)
    requires AllComplete(cfg, rs)
    ensures StampsInWindow(Published(rs), cfg.window) == InWindowAll(cfg, rs)
  {
    if rs != [] {
      CompletePrefix(cfg, rs);
      var r := rs[|rs| - 1];
      PublishedInWindow(cfg, rs[..|rs| - 1]);
      StampsInWindowConcat(Published(rs[..|rs| - 1]), r.stamps, cfg.window);
      ConnStampsInWindow(cfg, |rs| - 1, r.sent, r.stamps);
    }
  }

  // ---------------------------------------------------------------- what is delivered

  lemma {:induction false} PublishedSize(cfg: GenConfig, rs: seq<ConnResult>)
    requires AllComplete(cfg, rs) && |rs| == cfg.connections
    ensures |Published(rs)| == Scheduled(cfg) <= U64_MAX
  {
    PublishedCount(cfg, rs);
    CompleteReport(cfg, rs, 0);
  }

  /**
    The arrivals a judge can tell: as many as there are slots, of known connections, with distinct keys,
    as many scheduled in the window as the grid has there, and in time.
    */
  ghost predicate EachOnce(cfg: GenConfig, rs: seq<ConnResult>, arrivals: seq<Arrival>)
    requires cfg.rate >= 1
  {
    && |arrivals| == Scheduled(cfg) && KnownConnections(arrivals, cfg.connections)
    && DistinctKeys(Stamps(arrivals)) && Timely(arrivals, cfg.window)
    && StampsInWindow(Stamps(arrivals), cfg.window) == InWindowAll(cfg, rs)
  }

  /** Everything published arrives once, in any order and in time, and nothing else does. */
  predicate CleanDelivered(cfg: GenConfig, rs: seq<ConnResult>, arrivals: seq<Arrival>) {
    multiset(Published(rs)) == multiset(Stamps(arrivals)) && Timely(arrivals, cfg.window)
  }

  /** Stamps the generator did publish. */
  predicate Genuine(rs: seq<ConnResult>, arrivals: seq<Arrival>) {
    forall i | 0 <= i < |arrivals| :: arrivals[i].stamp in Published(rs)
  }

  /** Of a complete run, everything published arrives once exactly when genuine stamps arrive as a judge can tell. */
  lemma {:induction false} CleanMeansEachOnce(cfg: GenConfig, rs: seq<ConnResult>, arrivals: seq<Arrival>)
    requires AllComplete(cfg, rs) && |rs| == cfg.connections
    ensures CleanDelivered(cfg, rs, arrivals) <==> Genuine(rs, arrivals) && EachOnce(cfg, rs, arrivals)
  {
    PublishedSize(cfg, rs);
    PublishedAreDistinct(cfg, rs);
    if CleanDelivered(cfg, rs, arrivals) {
      CleanIsEachOnce(cfg, rs, arrivals);
    }
    if Genuine(rs, arrivals) && EachOnce(cfg, rs, arrivals) {
      DistinctAndPublished(Stamps(arrivals), Published(rs));
    }
  }

  lemma {:induction false} CleanIsEachOnce(cfg: GenConfig, rs: seq<ConnResult>, arrivals: seq<Arrival>)
    requires AllComplete(cfg, rs) && |rs| == cfg.connections && |Published(rs)| == Scheduled(cfg)
    requires DistinctKeys(Published(rs)) && CleanDelivered(cfg, rs, arrivals)
    ensures Genuine(rs, arrivals) && EachOnce(cfg, rs, arrivals)
  {
    DistinctCarriesOver(Published(rs), Stamps(arrivals));
    SameStampsSameCount(Published(rs), Stamps(arrivals), cfg.window);
    PublishedInWindow(cfg, rs);
    forall i | 0 <= i < |arrivals|
      ensures arrivals[i].stamp in Published(rs) && arrivals[i].stamp.connId < cfg.connections
    {
      assert Stamps(arrivals)[i] in multiset(Published(rs));
      var p :| 0 <= p < |Published(rs)| && Published(rs)[p] == Stamps(arrivals)[i];
      PublishedBelow(cfg, rs, p);
    }
  }

  // ---------------------------------------------------------------- the verdict

  /** The rows that judge something other than the accounting of publishes and deliveries. */
  predicate OtherRow(n: nat) {
    n in {8, 18, 19, 21, 22, 23, 26, 30, 31}
  }

  /** The record of a run: what the generator and the recorder reported, judged. */
  function RecordOf(spec: RunSpec, k: ProtocolConstants, e: Evidence, parse: Parser): RunRecord {
    var raw := RawRecord(spec, k, e.timing, e);
    Judged(WithDerived(raw, Derive(raw, parse)))
  }

  ghost predicate EvidenceOf(cfg: GenConfig, g: GenReport, d: Rec.DeliveryReport, spec: RunSpec, e: Evidence) {
    && spec.key.kind.IsOpenLoop() && spec.key.qos == Some(cfg.qos) && spec.key.offeredRate == Some(cfg.rate)
    && e.timing == RunTiming(cfg.origin, cfg.window)
    && e.gen == Some(g) && e.delivery == Some(d) && d.dropped.None?
  }

  /** The generator's side of the accounts: the grid was offered, answered and written inside the window. */
  ghost predicate GeneratorAgrees(cfg: GenConfig, g: GenReport) {
    && g.scheduled == Some(g.offered) && g.windowScheduled.Some?
    && SlotCounts(cfg.rate, cfg.origin, cfg.window) == Some((g.offered, g.windowScheduled.value))
    && (cfg.qos == 1 ==> g.acked == Some(g.offered))
    && g.missedSlots == 0 && g.connectErrors == 0 && g.protocolErrors == 0 && g.stalled == 0
    && g.lastWriteStartNs.Some? && g.lastWriteStartNs.value < cfg.window.endNs
    && WellFormed(g.lateness) && Total(g.lateness) + g.latenessOverRange == g.windowScheduled.value
  }

  /** The recorder's side: what was offered was delivered, once each, with one latency per slot of the window. */
  ghost predicate RecorderAgrees(g: GenReport, d: Rec.DeliveryReport) {
    && d.delivered == g.offered && d.duplicates == 0 && d.foreignPayloads == 0
    && d.latencyOverRange == 0 && d.clockAnomalies == 0
    && WellFormed(d.latency) && g.windowScheduled == Some(Total(d.latency))
    && SumOf(d.timeline.counts) == d.delivered
  }

  /** The record holds both reports. */
  ghost predicate HoldsReports(r: RunRecord, cfg: GenConfig, g: GenReport, d: Rec.DeliveryReport) {
    && r.key.kind.IsOpenLoop() && r.key.qos == Some(cfg.qos) && r.key.offeredRate == Some(cfg.rate)
    && r.originNs == cfg.origin && r.window == cfg.window && r.timeline == d.timeline
    && r.counts.scheduled == g.scheduled && r.counts.windowScheduled == g.windowScheduled
    && r.counts.offered == g.offered && r.counts.acked == g.acked
    && r.counts.delivered == d.delivered && r.counts.dropped == d.dropped && r.counts.duplicates == d.duplicates
    && r.counts.foreignPayloads == d.foreignPayloads && r.counts.latencyOverRange == d.latencyOverRange
    && r.counts.clockAnomalies == d.clockAnomalies
    && r.latencyNs.Some? && r.latencyNs.value.histogram == d.latency
    && r.lateness == g.lateness && r.lastWriteStartNs == g.lastWriteStartNs
    && r.errors == GeneratorErrors(g.connectErrors, g.protocolErrors, g.missedSlots, g.stalled, g.latenessOverRange)
  }

  lemma {:induction false} RecordHolds(cfg: GenConfig, g: GenReport, d: Rec.DeliveryReport, spec: RunSpec,
                                       k: ProtocolConstants, e: Evidence, parse: Parser)
    requires EvidenceOf(cfg, g, d, spec, e)
    ensures HoldsReports(RecordOf(spec, k, e, parse), cfg, g, d)
  {
  }

  lemma {:induction false} BalanceOfReports(r: RunRecord, cfg: GenConfig, g: GenReport, d: Rec.DeliveryReport)
    requires HoldsReports(r, cfg, g, d) && d.dropped.None?
    ensures Balanced(r) <==> GeneratorAgrees(cfg, g) && RecorderAgrees(g, d)
  {
  }

  lemma {:induction false} BalanceMeans(cfg: GenConfig, g: GenReport, d: Rec.DeliveryReport, spec: RunSpec,
                                        k: ProtocolConstants, e: Evidence, parse: Parser)
    requires EvidenceOf(cfg, g, d, spec, e)
    ensures Balanced(RecordOf(spec, k, e, parse)) <==> GeneratorAgrees(cfg, g) && RecorderAgrees(g, d)
  {
    RecordHolds(cfg, g, d, spec, k, e, parse);
    BalanceOfReports(RecordOf(spec, k, e, parse), cfg, g, d);
  }

  /** Nothing went wrong between the slot grid and the recorder. */
  ghost predicate Flawless(cfg: GenConfig, rs: seq<ConnResult>, arrivals: seq<Arrival>) {
    AllComplete(cfg, rs) && AllWritten(cfg, rs) && EachOnce(cfg, rs, arrivals)
  }

  lemma {:induction false} InWindowIsOffered(cfg: GenConfig, rs: seq<ConnResult>)
    requires AllSettled(cfg, rs)
    ensures InWindowAll(cfg, rs) <= Sum(Offered, rs)
  {
    if rs != [] {
      SettledPrefix(cfg, rs);
      InWindowIsOffered(cfg, rs[..|rs| - 1]);
      CountInWindowBound(cfg, |rs| - 1, rs[|rs| - 1].sent);
    }
  }

  lemma {:induction false} CountInWindowBound(cfg: GenConfig, connId: nat, slots: seq<nat>)
    requires cfg.rate >= 1
    ensures CountInWindow(cfg, connId, slots) <= |slots|
  {
    if slots != [] { CountInWindowBound(cfg, connId, slots[..|slots| - 1]); }
  }

  /** A run with a lateness percentile offered something. */
  lemma {:induction false} LatenessIsOffered(cfg: GenConfig, rs: seq<ConnResult>)
    requires AllSettled(cfg, rs) && Percentile(MergedLateness(rs), 0.99).Some?
    ensures Sum(Offered, rs) >= 1
  {
    NoPercentile(MergedLateness(rs), 0.99);
    LatenessTotals(cfg, rs);
    AllWrittenMeans(cfg, rs);
    InWindowIsOffered(cfg, rs);
  }

  /** The generator's side agrees exactly when every connection is complete and its in-window writes were done. */
  lemma {:induction false} GeneratorMeans(cfg: GenConfig, rs: seq<ConnResult>, lastStart: nat)
    requires AllSettled(cfg, rs) && |rs| == cfg.connections && StartsInWindow(cfg, rs, lastStart)
    requires cfg.origin > 0 && Sum(Offered, rs) >= 1
    ensures GeneratorAgrees(cfg, BuildReport(cfg, rs, lastStart)) <==> AllComplete(cfg, rs) && AllWritten(cfg, rs)
  {
    FailureFree(cfg, rs);
    if AllComplete(cfg, rs) {
      CompleteReport(cfg, rs, lastStart);
      LatenessTotals(cfg, rs);
      AllWrittenMeans(cfg, rs);
    }
  }

  /** The recorder, armed or not, took what it could of the arrivals. */
  ghost predicate RecorderSaw(cfg: GenConfig, arrivals: seq<Arrival>, armed: bool, d: Rec.DeliveryReport) {
    var taken := Taken(arrivals, cfg.connections, armed);
    && Rec.Reads(d, cfg.window, CallsFor(taken)) && |taken| <= |arrivals|
    && (|arrivals| <= U64_MAX ==> d.foreignPayloads == |arrivals| - |taken|)
  }

  /** Of arrivals that were all taken, the recorder's side agrees exactly when there is one per slot. */
  lemma {:induction false} TakenMeansEachOnce(cfg: GenConfig, rs: seq<ConnResult>, arrivals: seq<Arrival>,
                                              g: GenReport, d: Rec.DeliveryReport)
    requires cfg.rate >= 1 && g.offered == Scheduled(cfg) && g.windowScheduled == Some(InWindowAll(cfg, rs))
    requires Rec.Reads(d, cfg.window, CallsFor(arrivals)) && d.foreignPayloads == 0 && |arrivals| <= U64_MAX
    requires KnownConnections(arrivals, cfg.connections)
    ensures RecorderAgrees(g, d) <==> EachOnce(cfg, rs, arrivals)
  {
    DeliveryMeans(arrivals, d, cfg.window);
  }

  lemma {:induction false} RecorderMeans(cfg: GenConfig, rs: seq<ConnResult>, lastStart: nat, arrivals: seq<Arrival>,
                                         armed: bool, d: Rec.DeliveryReport)
    requires AllComplete(cfg, rs) && |rs| == cfg.connections && Sum(Offered, rs) >= 1
    requires RecorderSaw(cfg, arrivals, armed, d) && |arrivals| <= U64_MAX
    ensures RecorderAgrees(BuildReport(cfg, rs, lastStart), d) <==> armed && EachOnce(cfg, rs, arrivals)
  {
    CompleteReport(cfg, rs, lastStart);
    TakenMeans(arrivals, cfg.connections, armed);
    if armed && KnownConnections(arrivals, cfg.connections) {
      TakenMeansEachOnce(cfg, rs, arrivals, BuildReport(cfg, rs, lastStart), d);
    } else {
      NotAllTaken(cfg, arrivals, armed, d);
    }
  }

  lemma {:induction false} Unwrapped(n: nat)
    requires n <= U64_MAX
    ensures n % (U64_MAX + 1) == n
  {
  }

  /** A recorder that was never armed, or met an unknown connection, saw something foreign or nothing at all. */
  lemma {:induction false} NotAllTaken(cfg: GenConfig, arrivals: seq<Arrival>, armed: bool, d: Rec.DeliveryReport)
    requires RecorderSaw(cfg, arrivals, armed, d) && |arrivals| <= U64_MAX
    requires !armed || !KnownConnections(arrivals, cfg.connections)
    ensures d.foreignPayloads != 0 || d.delivered == 0
  {
    TakenMeans(arrivals, cfg.connections, armed);
    if arrivals == [] { assert Rec.Firsts(CallsFor([]), Rec.Any()) == {}; }
  }

  /**
    For every run and whatever arrives: the record is valid exactly when the recorder was armed, every
    session opened and ended by itself, every slot was offered, written and acknowledged, the
    deliveries are one per slot with distinct keys and in time, and nothing around the run disturbed it.
    */
  lemma {:induction false} VerdictMeans(cfg: GenConfig, rs: seq<ConnResult>, lastStart: nat, arrivals: seq<Arrival>,
                                        armed: bool, d: Rec.DeliveryReport, spec: RunSpec, k: ProtocolConstants,
                                        e: Evidence, parse: Parser)
    requires AllSettled(cfg, rs) && |rs| == cfg.connections && StartsInWindow(cfg, rs, lastStart) && cfg.origin > 0
    requires RecorderSaw(cfg, arrivals, armed, d) && |arrivals| <= U64_MAX
    requires EvidenceOf(cfg, BuildReport(cfg, rs, lastStart), d, spec, e)
    ensures var record := RecordOf(spec, k, e, parse);
            record.valid <==> armed && Flawless(cfg, rs, arrivals) && Undisturbed(record)
  {
    var g, record := BuildReport(cfg, rs, lastStart), RecordOf(spec, k, e, parse);
    JudgedMeans(WithDerived(RawRecord(spec, k, e.timing, e), Derive(RawRecord(spec, k, e.timing, e), parse)));
    BalanceMeans(cfg, g, d, spec, k, e, parse);
    if Undisturbed(record) {
      LatenessIsOffered(cfg, rs);
      GeneratorMeans(cfg, rs, lastStart);
      if AllComplete(cfg, rs) { RecorderMeans(cfg, rs, lastStart, arrivals, armed, d); }
    }
  }

  /** Whatever disturbed a flawless run with a slot to schedule, no accounting row fails. */
  lemma {:induction false} CleanRunPassesAccounting(cfg: GenConfig, rs: seq<ConnResult>, lastStart: nat,
                                                    arrivals: seq<Arrival>, d: Rec.DeliveryReport, spec: RunSpec,
                                                    k: ProtocolConstants, e: Evidence, parse: Parser)
    requires Flawless(cfg, rs, arrivals) && |rs| == cfg.connections && StartsInWindow(cfg, rs, lastStart)
    requires cfg.origin > 0 && Scheduled(cfg) >= 1
    requires RecorderSaw(cfg, arrivals, true, d) && EvidenceOf(cfg, BuildReport(cfg, rs, lastStart), d, spec, e)
    ensures forall x | x in RecordOf(spec, k, e, parse).invalidReasons :: x.HarnessError? || OtherRow(x.row)
  {
    var record := RecordOf(spec, k, e, parse);
    CompleteReport(cfg, rs, lastStart);
    GeneratorMeans(cfg, rs, lastStart);
    RecorderMeans(cfg, rs, lastStart, arrivals, true, d);
    BalanceMeans(cfg, BuildReport(cfg, rs, lastStart), d, spec, k, e, parse);
    OnlyOtherRows(spec, k, e, parse);
  }

  lemma {:induction false} OnlyOtherRows(spec: RunSpec, k: ProtocolConstants, e: Evidence, parse: Parser)
    requires spec.key.kind.IsOpenLoop() && Balanced(RecordOf(spec, k, e, parse))
    requires e.delivery.Some? && e.delivery.value.delivered <= U64_MAX
    requires e.timing.window.startNs <= e.timing.window.endNs
    ensures forall x | x in RecordOf(spec, k, e, parse).invalidReasons :: x.HarnessError? || OtherRow(x.row)
  {
    var raw := RawRecord(spec, k, e.timing, e);
    var derived := WithDerived(raw, Derive(raw, parse));
    var record := RecordOf(spec, k, e, parse);
    ReconcileIgnoresVerdict(derived, Reconcile(derived), Reconcile(derived) == []);
    forall x | x in record.invalidReasons ensures x.HarnessError? || OtherRow(x.row) {
      ReconcileMeaning(record, x);
      if x.Row? { BalancedPasses(record, x.row); }
    }
  }

  /** The recorder accepts the run's origin and window, at the time it is armed. */
  predicate Armable(cfg: GenConfig, armNs: u64) {
    && cfg.origin <= armNs + Rec.ARM_ORIGIN_SKEW_MAX_NS && armNs <= cfg.origin + Rec.ARM_ORIGIN_SKEW_MAX_NS
    && cfg.origin <= cfg.window.startNs < cfg.window.endNs <= cfg.origin + Rec.WINDOW_MAX_SPAN_NS
  }

  /** A record's generator side, read off the results of the connections. */
  ghost predicate TellsSent(record: RunRecord, cfg: GenConfig, rs: seq<ConnResult>) {
    && record.counts.offered == Sum(Offered, rs) && record.errors.missedSlots == Sum(Missed, rs)
    && record.counts.acked == (if cfg.qos == 1 then Some(Sum(Acked, rs)) else None)
    && record.errors.connect == RefusedCount(rs) && record.errors.protocol == Sum(ProtocolErrors, rs)
    && record.errors.stalled == Sum(Stalled, rs) + CutCount(rs)
    && record.errors.latenessOverRange == Sum(LatenessOver, rs) && record.lateness == MergedLateness(rs)
  }

  /** Its recorder side, read off the arrivals it took: `calls`, of `arrived`. */
  ghost predicate TellsTaken(record: RunRecord, cfg: GenConfig, calls: seq<Rec.Call>, arrived: nat) {
    && record.originNs == cfg.origin && record.window == cfg.window
    && record.counts.delivered + record.counts.duplicates == |calls|
    && record.counts.delivered == |Rec.Firsts(calls, Rec.Any())|
    && record.counts.foreignPayloads == arrived - |calls|
    && record.counts.clockAnomalies == |Rec.Firsts(calls, Rec.TooEarly())|
    && record.counts.latencyOverRange == |Rec.Firsts(calls, Rec.TookTooLong(cfg.window))|
    && WindowDeliveries(record)
       == |Rec.Firsts(calls, Rec.During(cfg.window.startNs / SECOND, cfg.window.endNs / SECOND))|
  }

  /** A record's counts and latency figures, read off the results and the arrivals. */
  ghost predicate Tells(record: RunRecord, cfg: GenConfig, rs: seq<ConnResult>, arrivals: seq<Arrival>, armed: bool) {
    var calls := CallsFor(Taken(arrivals, cfg.connections, armed));
    && TellsSent(record, cfg, rs) && TellsTaken(record, cfg, calls, |arrivals|)
    && record.counts.unresolved == SatSub(record.counts.offered, record.counts.delivered)
    && record.latencyNs.Some? && Figures.LatencyFigures(record.latencyNs.value, cfg.window, calls)
  }

  lemma {:induction false} RecordTells(cfg: GenConfig, rs: seq<ConnResult>, lastStart: nat, arrivals: seq<Arrival>,
                                       armed: bool, d: Rec.DeliveryReport, spec: RunSpec, k: ProtocolConstants,
                                       e: Evidence, parse: Parser)
    requires RecorderSaw(cfg, arrivals, armed, d) && |arrivals| <= U64_MAX
    requires EvidenceOf(cfg, BuildReport(cfg, rs, lastStart), d, spec, e)
    ensures Tells(RecordOf(spec, k, e, parse), cfg, rs, arrivals, armed)
  {
    var calls := CallsFor(Taken(arrivals, cfg.connections, armed));
    SentTells(cfg, rs, lastStart, spec, k, e, parse);
    TakenTells(cfg, d, calls, |arrivals|, spec, k, e, parse);
    FiguresTell(cfg, BuildReport(cfg, rs, lastStart), d, calls, spec, k, e, parse);
    SidesTell(RecordOf(spec, k, e, parse), cfg, rs, arrivals, armed, calls);
  }

  lemma {:induction false} SidesTell(record: RunRecord, cfg: GenConfig, rs: seq<ConnResult>, arrivals: seq<Arrival>,
                                     armed: bool, calls: seq<Rec.Call>)
    requires TellsSent(record, cfg, rs) && TellsTaken(record, cfg, calls, |arrivals|)
    requires calls == CallsFor(Taken(arrivals, cfg.connections, armed))
    requires record.counts.unresolved == SatSub(record.counts.offered, record.counts.delivered)
    requires record.latencyNs.Some? && Figures.LatencyFigures(record.latencyNs.value, cfg.window, calls)
    ensures Tells(record, cfg, rs, arrivals, armed)
  {
  }

  lemma {:induction false} SentTells(cfg: GenConfig, rs: seq<ConnResult>, lastStart: nat, spec: RunSpec,
                                     k: ProtocolConstants, e: Evidence, parse: Parser)
    requires e.gen == Some(BuildReport(cfg, rs, lastStart))
    ensures TellsSent(RecordOf(spec, k, e, parse), cfg, rs)
  {
  }

  lemma {:induction false} TakenTells(cfg: GenConfig, d: Rec.DeliveryReport, calls: seq<Rec.Call>, arrived: nat,
                                      spec: RunSpec, k: ProtocolConstants, e: Evidence, parse: Parser)
    requires Rec.Reads(d, cfg.window, calls) && |calls| <= arrived <= U64_MAX
    requires d.foreignPayloads == arrived - |calls|
    requires e.timing == RunTiming(cfg.origin, cfg.window) && e.delivery == Some(d)
    ensures TellsTaken(RecordOf(spec, k, e, parse), cfg, calls, arrived)
  {
    CountsTell(d, cfg.window, calls);
  }

  lemma {:induction false} FiguresTell(cfg: GenConfig, g: GenReport, d: Rec.DeliveryReport, calls: seq<Rec.Call>,
                                       spec: RunSpec, k: ProtocolConstants, e: Evidence, parse: Parser)
    requires Rec.Reads(d, cfg.window, calls) && |calls| <= U64_MAX && EvidenceOf(cfg, g, d, spec, e)
    ensures var record := RecordOf(spec, k, e, parse);
            record.latencyNs.Some? && Figures.LatencyFigures(record.latencyNs.value, cfg.window, calls)
  {
    Figures.FiguresRead(RawRecord(spec, k, e.timing, e), d, calls, parse);
  }

  /** The counts of a report that no count saturates. */
  lemma {:induction false} CountsTell(d: Rec.DeliveryReport, w: Window, calls: seq<Rec.Call>)
    requires Rec.Reads(d, w, calls) && |calls| <= U64_MAX
    ensures d.delivered + d.duplicates == |calls| && d.delivered == |Rec.Firsts(calls, Rec.Any())|
    ensures d.clockAnomalies == |Rec.Firsts(calls, Rec.TooEarly())|
    ensures d.latencyOverRange == |Rec.Firsts(calls, Rec.TookTooLong(w))|
  {
    Figures.FirstsAtMost(calls, Rec.TooEarly());
    Figures.FirstsAtMost(calls, Rec.TookTooLong(w));
  }

  /** The run that the verdict is about: all connections ran, and no more arrived than can be counted. */
  ghost predicate Countable(cfg: GenConfig, run: GenRun, arrivals: seq<Arrival>) {
    && AllSettled(cfg, run.results) && |run.results| == cfg.connections
    && StartsInWindow(cfg, run.results, run.lastStart) && cfg.origin > 0 && |arrivals| <= U64_MAX
  }

  lemma {:induction false} RecorderSees(cfg: GenConfig, arrivals: seq<Arrival>, armed: bool, d: Rec.DeliveryReport,
                                        w: Window, calls: seq<Rec.Call>, foreign: int)
    requires calls == CallsFor(Taken(arrivals, cfg.connections, armed)) && Rec.Reads(d, w, calls)
    requires armed ==> w == cfg.window
    requires foreign == |arrivals| - |calls| && d.foreignPayloads == foreign % (U64_MAX + 1)
    ensures RecorderSaw(cfg, arrivals, armed, d)
  {
    TakenMeans(arrivals, cfg.connections, armed);
    if |arrivals| <= U64_MAX { Unwrapped(foreign); }
    if w != cfg.window { Rec.NoCallsAnyWindow(d, w, cfg.window); }
  }

  /** A recorder armed for the run, if it can be, and handed what arrives. */
  method ArmAndDeliver(cfg: GenConfig, arrivals: seq<Arrival>, armNs: u64) returns (recorder: Rec.Recorder)
    ensures recorder.Valid() && (Armable(cfg, armNs) ==> recorder.RunWindow() == cfg.window)
    ensures recorder.calls == CallsFor(Taken(arrivals, cfg.connections, Armable(cfg, armNs)))
    ensures recorder.foreignCalls == |arrivals| - |recorder.calls|
  {
    recorder := new Rec.Recorder(cfg.connections);
    var armed := recorder.ArmAt(cfg.origin, cfg.window, armNs);
    DeliverAll(recorder, arrivals);
  }

  /** The recorder of any run: arm, deliver what arrives, and report. */
  method Deliver(cfg: GenConfig, arrivals: seq<Arrival>, armNs: u64) returns (d: Rec.DeliveryReport)
    ensures RecorderSaw(cfg, arrivals, Armable(cfg, armNs), d) && d.dropped.None?
  {
    var recorder := ArmAndDeliver(cfg, arrivals, armNs);
    d := recorder.Report();
    RecorderSees(cfg, arrivals, Armable(cfg, armNs), d, recorder.RunWindow(), recorder.calls, recorder.foreignCalls);
  }

  /**
    The recorder and the judge of any run: deliver what arrives, report, and judge. The record tells
    what happened, and is valid exactly when nothing went wrong.
    */
  method DeliverAndJudge(cfg: GenConfig, run: GenRun, arrivals: seq<Arrival>, armNs: u64, spec: RunSpec,
                         k: ProtocolConstants, driver: Option<DriverFds>, syscalls: Syscalls,
                         harnessErrors: seq<string>, fallbackOriginNs: u64, parse: Parser)
    returns (record: RunRecord)
    requires run.report == BuildReport(cfg, run.results, run.lastStart)
    requires spec.key.kind.IsOpenLoop() && spec.key.qos == Some(cfg.qos) && spec.key.offeredRate == Some(cfg.rate)
    requires fallbackOriginNs + (k.warmupSecs + k.windowSecs) * SECOND <= U64_MAX
    ensures cfg.origin > 0 && |arrivals| <= U64_MAX ==>
              Tells(record, cfg, run.results, arrivals, Armable(cfg, armNs))
    ensures Countable(cfg, run, arrivals) ==>
              (record.valid <==> Armable(cfg, armNs) && Flawless(cfg, run.results, arrivals) && Undisturbed(record))
    ensures Countable(cfg, run, arrivals) && Armable(cfg, armNs) && Flawless(cfg, run.results, arrivals)
            && Scheduled(cfg) >= 1
            ==> forall x | x in record.invalidReasons :: x.HarnessError? || OtherRow(x.row)
  {
    var d := Deliver(cfg, arrivals, armNs);
    var timing := RunTiming(cfg.origin, cfg.window);
    var e := Evidence(timing, driver, Some(d), Some(run.report), syscalls, harnessErrors);
    record := FinalizeRecord(spec, k, e, fallbackOriginNs, parse);
    ghost var armed := Armable(cfg, armNs);
    if cfg.origin > 0 && |arrivals| <= U64_MAX {
      RecordTells(cfg, run.results, run.lastStart, arrivals, armed, d, spec, k, e, parse);
    }
    if Countable(cfg, run, arrivals) {
      VerdictMeans(cfg, run.results, run.lastStart, arrivals, armed, d, spec, k, e, parse);
      if armed && Flawless(cfg, run.results, arrivals) && Scheduled(cfg) >= 1 {
        CleanRunPassesAccounting(cfg, run.results, run.lastStart, arrivals, d, spec, k, e, parse);
      }
    }
  }

  /**
    The whole engine at once: run the generator, let anything arrive, record and judge. Unless a
    connection panics there is a verdict. It is valid exactly when nothing went wrong; then what
    arrived is, stamp for stamp, what was published, provided it was all genuine.
    */
  method RunToVerdict(cfg: GenConfig, armNs: u64, spec: RunSpec, k: ProtocolConstants, driver: Option<DriverFds>,
                      syscalls: Syscalls, harnessErrors: seq<string>, fallbackOriginNs: u64, parse: Parser)
    returns (run: Option<GenRun>, arrivals: seq<Arrival>, verdict: Option<RunRecord>)
    requires Accepts(cfg)
    requires spec.key.kind.IsOpenLoop() && spec.key.qos == Some(cfg.qos) && spec.key.offeredRate == Some(cfg.rate)
    requires fallbackOriginNs + (k.warmupSecs + k.windowSecs) * SECOND <= U64_MAX
    ensures DueTimesFit(cfg.connections, cfg.rate, cfg.origin, cfg.window) ==> run.Some?
    ensures run.Some? <==> verdict.Some?
    ensures run.Some? ==> AllSettled(cfg, run.value.results) && |run.value.results| == cfg.connections
    ensures run.Some? && cfg.origin > 0 && |arrivals| <= U64_MAX ==>
              && Tells(verdict.value, cfg, run.value.results, arrivals, Armable(cfg, armNs))
              && (verdict.value.valid <==>
                    && Armable(cfg, armNs) && Flawless(cfg, run.value.results, arrivals)
                    && Undisturbed(verdict.value))
    ensures run.Some? && cfg.origin > 0 && |arrivals| <= U64_MAX && verdict.value.valid ==>
              && (forall i | 0 <= i < cfg.connections :: run.value.results[i].sent == Run(0, Own(cfg, i)))
              && (Genuine(run.value.results, arrivals) ==> CleanDelivered(cfg, run.value.results, arrivals))
    ensures run.Some? && cfg.origin > 0 && Armable(cfg, armNs) && Scheduled(cfg) >= 1
            && AllComplete(cfg, run.value.results) && AllWritten(cfg, run.value.results)
            && CleanDelivered(cfg, run.value.results, arrivals)
            ==> forall x | x in verdict.value.invalidReasons :: x.HarnessError? || OtherRow(x.row)
  {
    run := RunGenerator(cfg);
    arrivals := *;
    verdict := None;
    if run.Some? {
      var record := DeliverAndJudge(cfg, run.value, arrivals, armNs, spec, k, driver, syscalls, harnessErrors,
                                    fallbackOriginNs, parse);
      verdict := Some(record);
      if AllComplete(cfg, run.value.results) { CompleteRun(cfg, run.value.results, arrivals); }
    }
  }

  lemma {:induction false} CompleteRun(cfg: GenConfig, rs: seq<ConnResult>, arrivals: seq<Arrival>)
    requires AllComplete(cfg, rs) && |rs| == cfg.connections
    ensures forall i | 0 <= i < cfg.connections :: rs[i].sent == Run(0, Own(cfg, i))
    ensures CleanDelivered(cfg, rs, arrivals) <==> Genuine(rs, arrivals) && EachOnce(cfg, rs, arrivals)
    ensures Scheduled(cfg) <= U64_MAX
  {
    forall i | 0 <= i < cfg.connections ensures rs[i].sent == Run(0, Own(cfg, i)) { CompleteSendsAll(cfg, i, rs[i]); }
    CleanMeansEachOnce(cfg, rs, arrivals);
    PublishedSize(cfg, rs);
  }

  // ---------------------------------------------------------------- such runs exist

  function OneSlotSent(): ConnResult {
    ConnResult(Ended(true), [0], [SECOND], [Stamp(0, 0, SECOND)], START.lost, Counters(1, 0, 1, 0, 0, 0, [(1, 1)], 0),
               Env(SECOND, false, false, false, 0))
  }

  /** One connection, one slot, one publish written on time and acknowledged. */
  lemma {:induction false} OneSlotRun() returns (cfg: GenConfig, rs: seq<ConnResult>)
    ensures |rs| == cfg.connections && cfg.connections == 1 && StartsInWindow(cfg, rs, SECOND) && Scheduled(cfg) == 1
    ensures AllComplete(cfg, rs) && AllWritten(cfg, rs) && cfg.window.Contains(SECOND) && InWindowAll(cfg, rs) == 1
    ensures Published(rs) == [Stamp(0, 0, SECOND)]
  {
    cfg := GenConfig(1, 1, 1, SECOND, Window(SECOND, SECOND + 20_000_000));
    var r := OneSlotSent();
    rs := [r];
    OneSlotGrid(cfg);
    OneSlot(cfg, r);
    assert rs[..0] == [] && Published(rs) == [] + r.stamps;
    assert r.sent[..0] == [];
  }

  /** There are such runs: the publish is delivered a nanosecond later. */
  lemma {:induction false} CleanRunsExist() returns (cfg: GenConfig, rs: seq<ConnResult>, arrivals: seq<Arrival>)
    ensures |rs| == cfg.connections && StartsInWindow(cfg, rs, SECOND) && Scheduled(cfg) >= 1
    ensures Flawless(cfg, rs, arrivals) && CleanDelivered(cfg, rs, arrivals)
  {
    cfg, rs := OneSlotRun();
    arrivals := [Arrival(Stamp(0, 0, SECOND), SECOND + 1)];
    assert arrivals[..0] == [] && Stamps(arrivals) == Published(rs);
    CleanMeansEachOnce(cfg, rs, arrivals);
  }

  /** Counts are all a judge has: a delivery with another sequence number than was published passes. */
  lemma {:induction false} OtherKeyPasses() returns (cfg: GenConfig, rs: seq<ConnResult>, arrivals: seq<Arrival>)
    ensures |rs| == cfg.connections && StartsInWindow(cfg, rs, SECOND) && Scheduled(cfg) >= 1
    ensures Flawless(cfg, rs, arrivals) && !Genuine(rs, arrivals) && !CleanDelivered(cfg, rs, arrivals)
  {
    cfg, rs := OneSlotRun();
    arrivals := [Arrival(Stamp(0, 7, SECOND), SECOND + 1)];
    assert arrivals[..0] == [] && Stamps(arrivals) == [Stamp(0, 7, SECOND)];
    assert Stamps(arrivals)[..0] == [];
    assert arrivals[0].stamp !in Published(rs);
    CleanMeansEachOnce(cfg, rs, arrivals);
  }

  lemma {:induction false} OneSlotScheduled(rate: u64, origin: u64, w: Window)
    requires rate == 1 && origin == SECOND && w == Window(SECOND, SECOND + 20_000_000)
    ensures ScheduledSlots(rate, origin, w) == 1
  {
    GridInversion(0, rate, origin, w);
    GridInversion(1, rate, origin, w);
    assert SlotOffset(0, 1) == 0 && SlotOffset(1, 1) == SECOND;
  }

  lemma {:induction false} OneSlotOwned(connections: u32, scheduled: nat)
    requires connections == 1 && scheduled == 1
    ensures OwnSlotCount(0, connections, scheduled) == 1
  {
    OwnInversion(0, connections, scheduled, 0);
    OwnInversion(0, connections, scheduled, 1);
  }

  lemma {:induction false} FirstSlotDue(cfg: GenConfig)
    requires cfg.rate >= 1
    ensures Due(cfg, 0, 0) == cfg.origin
  {
    assert SlotIndex(0, 0, cfg.connections) == 0;
    assert SlotOffset(0, cfg.rate) == 0;
  }

  lemma {:induction false} OneSlotGrid(cfg: GenConfig)
    requires cfg.rate == 1 && cfg.qos == 1 && cfg.connections == 1
    requires cfg.origin == SECOND && cfg.window == Window(SECOND, SECOND + 20_000_000)
    ensures Accepts(cfg) && Scheduled(cfg) == 1 && Own(cfg, 0) == 1
    ensures Due(cfg, 0, 0) == SECOND && InWindow(cfg, 0, 0)
  {
    OneSlotScheduled(cfg.rate, cfg.origin, cfg.window);
    OneSlotOwned(cfg.connections, Scheduled(cfg));
    FirstSlotDue(cfg);
  }

  lemma {:induction false} OneSlot(cfg: GenConfig, r: ConnResult)
    requires Accepts(cfg) && cfg.qos == 1 && Own(cfg, 0) == 1 && InWindow(cfg, 0, 0) && Due(cfg, 0, 0) == SECOND
    requires r == OneSlotSent()
    ensures Settled(cfg, 0, r) && Complete(r)
  {
    OneLateness(cfg);
    assert [0][..1] == [0];
  }

  lemma {:induction false} OneLateness(cfg: GenConfig)
    requires Accepts(cfg) && InWindow(cfg, 0, 0) && Due(cfg, 0, 0) == SECOND
    ensures LatenessOk(cfg, 0, [0], [SECOND], [(1, 1)], 0)
  {
    OneCounted(cfg, [0], [SECOND]);
    OneBucket([(1, 1)], 1);
    forall top: nat ensures CountAt([(1, 1)], top) == CountLateAt(cfg, 0, [0], [SECOND], top) {
      OneBucket([(1, 1)], top);
      OneLateAt(cfg, [0], [SECOND], top);
    }
  }

  lemma {:induction false} OneBucket(h: Histogram, top: nat)
    requires h == [(1, 1)]
    ensures Total(h) == 1 && CountAt(h, top) == (if top == 1 then 1 else 0) && WellFormed(h)
  {
    assert h[1..] == [];
  }

  lemma {:induction false} OneCounted(cfg: GenConfig, slots: seq<nat>, sends: seq<nat>)
    requires Accepts(cfg) && InWindow(cfg, 0, 0) && Due(cfg, 0, 0) == SECOND && slots == [0] && sends == [SECOND]
    ensures CountInWindow(cfg, 0, slots) == 1 && CountTooLate(cfg, 0, slots, sends) == 0
  {
    assert slots[..0] == [] && sends[..0] == [];
    assert CountInWindow(cfg, 0, []) == 0 && CountTooLate(cfg, 0, [], []) == 0;
  }

  lemma {:induction false} OneLateAt(cfg: GenConfig, slots: seq<nat>, sends: seq<nat>, top: nat)
    requires Accepts(cfg) && InWindow(cfg, 0, 0) && Due(cfg, 0, 0) == SECOND && slots == [0] && sends == [SECOND]
    ensures CountLateAt(cfg, 0, slots, sends, top) == if top == 1 then 1 else 0
  {
    assert slots[..0] == [] && sends[..0] == [] && CountLateAt(cfg, 0, [], [], top) == 0;
    assert BucketTop(1) == 1;
  }
}
