/** Building and judging a run record from the reports of its children. */
module Judgement {
  import opened Arith
  import opened Slots
  import opened Deliveries
  import opened RunRecords
  import opened Analysis
  import opened Verdict
  import Gen = Generator
  import Rec = Recorder

  /** Spec constants of a profile. */
  datatype ProtocolConstants = ProtocolConstants(
    warmupSecs: u64,
    windowSecs: u64,
    repetitions: u32,
    drainGraceSecs: u64,
    maxConfigAttempts: u32,
    enforceSpread: bool)

  function ForProfile(p: Profile): ProtocolConstants {
    match p
    case Recorded => ProtocolConstants(10, 60, 5, 5, 3, true)
    case Smoke => ProtocolConstants(2, 5, 2, 2, 1, false)
  }

  /** The identity of one run. */
  datatype RunSpec = RunSpec(key: ConfigKey, repetition: u32, attempt: u32)

  /** Origin and window captured when the recorder was armed; origin 0 when it never was. */
  datatype RunTiming = RunTiming(originNs: u64, window: Window)

  const EMPTY_DELIVERY: Rec.DeliveryReport := Rec.DeliveryReport(0, 0, 0, 0, 0, None, Timeline(0, []), [])

  const EMPTY_GEN: Gen.GenReport := Gen.GenReport(None, None, 0, None, 0, 0, 0, 0, 0, None, None, [])

  /** Everything `finalize_record` is given besides the spec. */
  datatype Evidence = Evidence(
    timing: RunTiming,
    driver: Option<DriverFds>,
    delivery: Option<Rec.DeliveryReport>,
    gen: Option<Gen.GenReport>,
    syscalls: Syscalls,
    harnessErrors: seq<string>)

  /** The record before it is judged: raw observations, no derived field. */
  function RawRecord(spec: RunSpec, k: ProtocolConstants, timing: RunTiming, e: Evidence): RunRecord {
    var delivery := if e.delivery.Some? then e.delivery.value else EMPTY_DELIVERY;
    var gen := if e.gen.Some? then e.gen.value else EMPTY_GEN;
    RunRecord(
      spec.key, spec.repetition, spec.attempt, k.warmupSecs, k.windowSecs, timing.originNs, timing.window,
      delivery.timeline, gen.cyclesInWindow,
      Counts(gen.scheduled, gen.windowScheduled, gen.offered, gen.acked, delivery.delivered, delivery.dropped,
             SatSub(SatSub(gen.offered, delivery.delivered), OrZero(delivery.dropped)),
             delivery.duplicates, delivery.foreignPayloads, delivery.latencyOverRange, delivery.clockAnomalies),
      None, None,
      if spec.key.kind.IsOpenLoop() then Some(LatencySummary(0, 0, 0, delivery.latency)) else None,
      gen.lateness, None, gen.lastWriteStartNs, None,
      GeneratorErrors(gen.connectErrors, gen.protocolErrors, gen.missedSlots, gen.stalled, gen.latenessOverRange),
      e.syscalls, e.driver, e.harnessErrors, false, [], false)
  }

  /** The derived fields installed. */
  function WithDerived(r: RunRecord, d: Derived): RunRecord {
    r.(throughput := d.throughput, last10s := d.last10s, connectionsPerSec := d.connectionsPerSec,
       latenessP99Ns := d.latenessP99Ns, latencyNs := d.latencyNs, syscalls := r.syscalls.(perMsg := d.syscallsPerMsg))
  }

  function Judged(r: RunRecord): RunRecord {
    r.(invalidReasons := Reconcile(r), valid := Reconcile(r) == [])
  }

  /** `finalize_record`: the verdict is taken after the derived fields are in place. */
  method FinalizeRecord(spec: RunSpec, k: ProtocolConstants, e: Evidence, fallbackOriginNs: u64, parse: Parser)
    returns (record: RunRecord)
    requires fallbackOriginNs + (k.warmupSecs + k.windowSecs) * SECOND <= U64_MAX
    ensures var timing := if e.timing.originNs == 0 then FallbackTiming(fallbackOriginNs, k) else e.timing;
            var raw := RawRecord(spec, k, timing, e);
            record == Judged(WithDerived(raw, Derive(raw, parse)))
    ensures (e.delivery.Some? ==> e.delivery.value.delivered <= U64_MAX) ==>
              (record.valid <==> Balanced(record) && Undisturbed(record))
    ensures e.timing.originNs == 0 && fallbackOriginNs % SECOND == 0 && k.windowSecs >= 1 ==> WindowAsPlanned(record)
  {
    var timing := e.timing;
    if timing.originNs == 0 {
      timing := FallbackTiming(fallbackOriginNs, k);
    }
    record := RawRecord(spec, k, timing, e);
    var derived := Derive(record, parse);
    record := record.(throughput := derived.throughput);
    record := record.(last10s := derived.last10s);
    record := record.(connectionsPerSec := derived.connectionsPerSec);
    record := record.(latenessP99Ns := derived.latenessP99Ns);
    record := record.(latencyNs := derived.latencyNs);
    record := record.(syscalls := record.syscalls.(perMsg := derived.syscallsPerMsg));
    var reasons := Reconcile(record);
    record := record.(invalidReasons := reasons);
    record := record.(valid := record.invalidReasons == []);
    ReconcileIgnoresVerdict(WithDerived(RawRecord(spec, k, timing, e), derived), reasons, record.valid);
    if e.delivery.Some? ==> e.delivery.value.delivered <= U64_MAX {
      JudgedMeans(WithDerived(RawRecord(spec, k, timing, e), derived));
    }
  }

  /** A judged record is valid exactly when its accounts balance and nothing disturbed the run. */
  lemma JudgedMeans(r: RunRecord)
    requires r.counts.unresolved == Unresolved(r.counts) && r.counts.delivered <= U64_MAX
    ensures Judged(r).valid <==> Balanced(Judged(r)) && Undisturbed(Judged(r))
  {
    ReconcileIgnoresVerdict(r, Reconcile(r), Reconcile(r) == []);
    ValidMeans(Judged(r));
  }

  function FallbackTiming(origin: u64, k: ProtocolConstants): RunTiming
    requires origin + (k.warmupSecs + k.windowSecs) * SECOND <= U64_MAX
  {
    RunTiming(origin, Window(origin + k.warmupSecs * SECOND, origin + (k.warmupSecs + k.windowSecs) * SECOND))
  }

  // ---------------------------------------------------------------- the verdict is a fixpoint

  lemma RowIgnoresVerdict(r: RunRecord, reasons: seq<Reason>, valid: bool, n: nat)
    ensures RowFails(r.(invalidReasons := reasons, valid := valid), n) == RowFails(r, n)
  {
  }

  lemma {:induction false} RowsIgnoreVerdict(r: RunRecord, reasons: seq<Reason>, valid: bool, lo: nat, hi: nat)
    ensures RowsIn(r.(invalidReasons := reasons, valid := valid), lo, hi) == RowsIn(r, lo, hi)
    decreases hi - lo
  {
    if lo <= hi {
      RowIgnoresVerdict(r, reasons, valid, lo);
      RowsIgnoreVerdict(r, reasons, valid, lo + 1, hi);
    }
  }

  /** Reconciliation never reads the verdict it produces. */
  lemma ReconcileIgnoresVerdict(r: RunRecord, reasons: seq<Reason>, valid: bool)
    ensures Reconcile(r.(invalidReasons := reasons, valid := valid)) == Reconcile(r)
  {
    RowsIgnoreVerdict(r, reasons, valid, 1, 27);
    RowsIgnoreVerdict(r, reasons, valid, 29, 31);
  }

  /** Derivation reads only the raw observations, and of the latency summary only its histogram. */
  ghost predicate SameEvidence(r: RunRecord, s: RunRecord) {
    && r.key == s.key && r.windowSecs == s.windowSecs && r.window == s.window && r.timeline == s.timeline
    && r.cyclesInWindow == s.cyclesInWindow && r.counts == s.counts && r.lateness == s.lateness
    && r.syscalls.method_ == s.syscalls.method_ && r.syscalls.raw == s.syscalls.raw
  }

  lemma SameRates(r: RunRecord, s: RunRecord)
    requires SameEvidence(r, s)
    ensures ThroughputRates(r) == ThroughputRates(s) && WindowDeliveries(r) == WindowDeliveries(s)
  {
  }

  lemma DeriveReadsEvidence(r: RunRecord, s: RunRecord, parse: Parser)
    requires SameEvidence(r, s) && LatencyOf(r) == LatencyOf(s)
    ensures Derive(r, parse) == Derive(s, parse)
  {
    SameRates(r, s);
  }

  lemma LatencyIsStable(r: RunRecord, d: Derived)
    requires d.latencyNs == LatencyOf(r)
    ensures LatencyOf(Judged(WithDerived(r, d))) == LatencyOf(r)
  {
  }

  lemma DeriveIsStable(r: RunRecord, parse: Parser)
    ensures Derive(Judged(WithDerived(r, Derive(r, parse))), parse) == Derive(r, parse)
  {
    LatencyIsStable(r, Derive(r, parse));
    DeriveReadsEvidence(Judged(WithDerived(r, Derive(r, parse))), r, parse);
  }

  /** The stored fields `recompute` compares agree with the observations. */
  predicate Consistent(r: RunRecord, parse: Parser) {
    var d := Derive(r, parse);
    && r.throughput == d.throughput && r.last10s == d.last10s && SameFloat(r.connectionsPerSec, d.connectionsPerSec)
    && r.latencyNs == d.latencyNs && r.latenessP99Ns == d.latenessP99Ns
    && r.syscalls.count == d.syscallCount && r.syscalls.perMsg == d.syscallsPerMsg
    && r.counts.unresolved == d.unresolved
    && r.invalidReasons == Reconcile(r) && r.valid == (Reconcile(r) == [])
  }

  lemma NoMismatchMeaning(r: RunRecord, parse: Parser)
    ensures Recompute(r, parse) == [] <==> Consistent(r, parse)
  {
  }

  /** The one finalized rate that equals nothing, itself included: no cycle over no second. */
  predicate RateIsNaN(r: RunRecord) {
    r.key.kind == Connections && r.cyclesInWindow == Some(0) && r.windowSecs == 0
  }

  /**
    A finalized record recomputes without a mismatch exactly when its syscall count is the parse of
    its raw text and its connection rate is a number.
    */
  lemma FinalizedRecomputes(raw: RunRecord, parse: Parser)
    requires raw.counts.unresolved == Unresolved(raw.counts)
    ensures var record := Judged(WithDerived(raw, Derive(raw, parse)));
            Recompute(record, parse) == []
            <==> raw.syscalls.count == SyscallCount(raw.syscalls, parse) && !RateIsNaN(raw)
  {
    var d := Derive(raw, parse);
    var derived := WithDerived(raw, d);
    var record := Judged(derived);
    DeriveIsStable(raw, parse);
    ReconcileIgnoresVerdict(derived, Reconcile(derived), Reconcile(derived) == []);
    NoMismatchMeaning(record, parse);
  }

  lemma NoProfileDividesByZero(p: Profile)
    ensures ForProfile(p).windowSecs > 0 && ForProfile(p).repetitions >= 1 && ForProfile(p).maxConfigAttempts >= 1
  {
  }

  // ---------------------------------------------------------------- survivors

  /** `record_survivors`: each child that could not be ended becomes a harness error, and the record is judged again. */
  function RecordSurvivors(r: RunRecord, survivors: seq<string>): RunRecord {
    if survivors == [] then r else Judged(r.(harnessErrors := r.harnessErrors + SurvivorErrors(survivors)))
  }

  function SurvivorErrors(survivors: seq<string>): seq<string> {
    if survivors == [] then [] else [CLEANUP_SURVIVOR_PREFIX + survivors[0]] + SurvivorErrors(survivors[1..])
  }

  lemma {:induction false} SurvivorErrorAt(survivors: seq<string>, i: nat)
    requires i < |survivors|
    ensures CLEANUP_SURVIVOR_PREFIX + survivors[i] in SurvivorErrors(survivors)
  {
    if i > 0 { SurvivorErrorAt(survivors[1..], i - 1); }
  }

  /** Every survivor is named in the verdict. */
  lemma {:induction false} SurvivorIsNamed(r: RunRecord, survivors: seq<string>, i: nat)
    requires i < |survivors|
    ensures HarnessError(CLEANUP_SURVIVOR_PREFIX + survivors[i]) in RecordSurvivors(r, survivors).invalidReasons
  {
    SurvivorErrorAt(survivors, i);
    var more := r.(harnessErrors := r.harnessErrors + SurvivorErrors(survivors));
    ReconcileMeaning(more, HarnessError(CLEANUP_SURVIVOR_PREFIX + survivors[i]));
  }

  lemma DeriveIgnoresHarness(r: RunRecord, errors: seq<string>, parse: Parser)
    ensures Derive(Judged(r.(harnessErrors := errors)), parse) == Derive(r, parse)
  {
    DeriveReadsEvidence(Judged(r.(harnessErrors := errors)), r, parse);
  }

  /** Judging a consistent record beside survivors keeps it consistent, and a survivor makes it invalid. */
  lemma SurvivorsRecompute(r: RunRecord, survivors: seq<string>, parse: Parser)
    requires Recompute(r, parse) == []
    ensures Recompute(RecordSurvivors(r, survivors), parse) == []
    ensures survivors != [] ==> !RecordSurvivors(r, survivors).valid
    ensures forall i | 0 <= i < |survivors| ::
              HarnessError(CLEANUP_SURVIVOR_PREFIX + survivors[i]) in RecordSurvivors(r, survivors).invalidReasons
  {
    forall i | 0 <= i < |survivors|
      ensures HarnessError(CLEANUP_SURVIVOR_PREFIX + survivors[i]) in RecordSurvivors(r, survivors).invalidReasons
    {
      SurvivorIsNamed(r, survivors, i);
    }
    NoMismatchMeaning(r, parse);
    if survivors != [] {
      var errors := SurvivorErrors(survivors);
      var more := r.(harnessErrors := r.harnessErrors + errors);
      var judged := Judged(more);
      DeriveIgnoresHarness(r, r.harnessErrors + errors, parse);
      ReconcileIgnoresVerdict(more, Reconcile(more), Reconcile(more) == []);
      NoMismatchMeaning(judged, parse);
      assert errors[0] in more.harnessErrors;
      ReconcileMeaning(more, HarnessError(errors[0]));
    }
  }

  lemma DeriveIgnoresCancelled(r: RunRecord, parse: Parser, cancelled: bool)
    ensures Derive(r.(cancelled := cancelled), parse) == Derive(r, parse)
  {
    DeriveReadsEvidence(r.(cancelled := cancelled), r, parse);
  }

  /** The mark the matrix sets on a record it was interrupted at keeps it consistent. */
  lemma CancellingRecomputes(r: RunRecord, parse: Parser, cancelled: bool)
    requires Recompute(r, parse) == []
    ensures Recompute(r.(cancelled := cancelled), parse) == []
  {
    CancelledRows(r, cancelled, 1, 27);
    CancelledRows(r, cancelled, 29, 31);
    DeriveIgnoresCancelled(r, parse, cancelled);
    NoMismatchMeaning(r, parse);
    NoMismatchMeaning(r.(cancelled := cancelled), parse);
  }

  lemma CancelledRow(r: RunRecord, cancelled: bool, n: nat)
    ensures RowFails(r.(cancelled := cancelled), n) == RowFails(r, n)
  {
  }

  lemma {:induction false} CancelledRows(r: RunRecord, cancelled: bool, lo: nat, hi: nat)
    ensures RowsIn(r.(cancelled := cancelled), lo, hi) == RowsIn(r, lo, hi)
    decreases hi - lo
  {
    if lo <= hi {
      CancelledRow(r, cancelled, lo);
      CancelledRows(r, cancelled, lo + 1, hi);
    }
  }

  // ---------------------------------------------------------------- every stored record recomputes

  /** What a syscall counter left: its raw output, when it could be read, and how it ended. */
  datatype Counter = Counter(
    method_: SyscallMethod,
    raw: Option<string>,
    enabledNs: Option<nat>,
    disabledNs: Option<nat>,
    exit: Option<CounterExit>)

  /** `finalize_counter`: the count is the parse of the raw text; a run without a counter has neither. */
  function FinalizeCounter(counter: Option<Counter>, parse: Parser): (s: Syscalls)
    ensures s.count == SyscallCount(s, parse)
    ensures counter.Some? ==> Counter(s.method_, s.raw, s.enabledNs, s.disabledNs, s.exit) == counter.value
    ensures counter.None? ==> s.method_ == NoCounter && s.raw.None? && s.enabledNs.None? && s.exit.None?
  {
    match counter
    case None => Syscalls(NoCounter, None, None, None, None, None, None)
    case Some(c) =>
      var count := if c.method_ == NoCounter || c.raw.None? then None else parse(c.method_, c.raw.value);
      Syscalls(c.method_, count, None, c.raw, c.enabledNs, c.disabledNs, c.exit)
  }

  /**
    The verdict is a fixpoint: whatever the profile, the reports, the counter and the survivors, a
    record that is finalized, judged again beside survivors and marked by the matrix recomputes
    without a mismatch.
    */
  lemma StoredRecordsRecompute(p: Profile, spec: RunSpec, timing: RunTiming, e: Evidence, counter: Option<Counter>,
                               survivors: seq<string>, cancelled: bool, parse: Parser)
    requires e.syscalls == FinalizeCounter(counter, parse)
    ensures var raw := RawRecord(spec, ForProfile(p), timing, e);
            var finalized := Judged(WithDerived(raw, Derive(raw, parse)));
            Recompute(RecordSurvivors(finalized, survivors).(cancelled := cancelled), parse) == []
  {
    var raw := RawRecord(spec, ForProfile(p), timing, e);
    var finalized := Judged(WithDerived(raw, Derive(raw, parse)));
    FinalizedRecomputes(raw, parse);
    SurvivorsRecompute(finalized, survivors, parse);
    CancellingRecomputes(RecordSurvivors(finalized, survivors), parse, cancelled);
  }
}
