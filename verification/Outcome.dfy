/**
  The verdict on a configuration: which attempts are complete, whether one passes, and how an
  open-loop configuration ended.
  */
module Outcome {
  import opened Arith
  import opened RunRecords
  import opened Analysis
  import opened Judgement
  import opened Statistics

  // ---------------------------------------------------------------- lists of records

  function Values(runs: seq<RunRecord>, f: RunRecord -> real): (v: seq<real>)
    ensures |v| == |runs|
  {
    if runs == [] then [] else Values(runs[..|runs| - 1], f) + [f(runs[|runs| - 1])]
  }

  lemma {:induction false} ValuesAt(runs: seq<RunRecord>, f: RunRecord -> real, i: nat)
    requires i < |runs|
    ensures Values(runs, f)[i] == f(runs[i])
  {
    if i < |runs| - 1 { ValuesAt(runs[..|runs| - 1], f, i); }
  }

  lemma {:induction false} ValuesConcat(a: seq<RunRecord>, b: seq<RunRecord>, f: RunRecord -> real)
    ensures Values(a + b, f) == Values(a, f) + Values(b, f)
  {
    if b == [] {
      assert a + b == a;
    } else {
      ValuesConcat(a, b[..|b| - 1], f);
      assert (a + b)[..|a + b| - 1] == a + b[..|b| - 1];
    }
  }

  lemma {:induction false} ValuesReordered(a: seq<RunRecord>, b: seq<RunRecord>, f: RunRecord -> real)
    requires multiset(a) == multiset(b)
    ensures multiset(Values(a, f)) == multiset(Values(b, f))
  {
    if a == [] {
      assert |multiset(a)| == |multiset(b)|;
    } else {
      var x := a[|a| - 1];
      var i := TakeOut(a, b);
      ValuesReordered(a[..|a| - 1], b[..i] + b[i + 1..], f);
      assert b == b[..i] + ([x] + b[i + 1..]);
      ValuesConcat(b[..i], b[i + 1..], f);
      ValuesConcat(b[..i], [x] + b[i + 1..], f);
      ValuesConcat([x], b[i + 1..], f);
      assert [x][..0] == [];
    }
  }

  /** The records of one configuration, or of one attempt. */
  datatype Selector = OfKey(key: ConfigKey) | OfAttempt(attempt: u32) {
    predicate Takes(r: RunRecord) {
      match this
      case OfKey(key) => r.key == key
      case OfAttempt(attempt) => r.attempt == attempt
    }
  }

  function Where(runs: seq<RunRecord>, s: Selector): seq<RunRecord> {
    if runs == [] then []
    else Where(runs[..|runs| - 1], s) + (if s.Takes(runs[|runs| - 1]) then [runs[|runs| - 1]] else [])
  }

  lemma {:induction false} WhereMeaning(runs: seq<RunRecord>, s: Selector, r: RunRecord)
    ensures r in Where(runs, s) <==> r in runs && s.Takes(r)
  {
    if runs != [] {
      WhereMeaning(runs[..|runs| - 1], s, r);
      assert runs == runs[..|runs| - 1] + [runs[|runs| - 1]];
    }
  }

  lemma {:induction false} WhereCounts(runs: seq<RunRecord>, s: Selector, r: RunRecord)
    ensures multiset(Where(runs, s))[r] == if s.Takes(r) then multiset(runs)[r] else 0
  {
    if runs != [] {
      WhereCounts(runs[..|runs| - 1], s, r);
      assert runs == runs[..|runs| - 1] + [runs[|runs| - 1]];
    }
  }

  lemma WhereReordered(a: seq<RunRecord>, b: seq<RunRecord>, s: Selector)
    requires multiset(a) == multiset(b)
    ensures multiset(Where(a, s)) == multiset(Where(b, s))
  {
    forall r ensures multiset(Where(a, s))[r] == multiset(Where(b, s))[r] {
      WhereCounts(a, s, r);
      WhereCounts(b, s, r);
    }
  }

  lemma SameMembers(a: seq<RunRecord>, b: seq<RunRecord>)
    requires multiset(a) == multiset(b)
    ensures |a| == |b| && forall r :: r in a <==> r in b
  {
    assert |multiset(a)| == |multiset(b)|;
    assert forall r :: r in a <==> r in multiset(a);
    assert forall r :: r in b <==> r in multiset(b);
  }

  // ---------------------------------------------------------------- one attempt

  /** The primary metric of a record. */
  function Metric(r: RunRecord): Option<Float> {
    match r.key.kind
    case Throughput => if r.throughput.Some? then Some(Finite(r.throughput.value)) else None
    case Latency => if r.latencyNs.Some? then Some(Finite(r.latencyNs.value.p99 as real)) else None
    case Connections => r.connectionsPerSec
    case Counted => if r.syscalls.perMsg.Some? then Some(Finite(r.syscalls.perMsg.value)) else None
  }

  predicate IsFinite(r: RunRecord) {
    Metric(r).Some? && Metric(r).value.Finite?
  }

  function Amount(r: RunRecord): real {
    if IsFinite(r) then Metric(r).value.v else 0.0
  }

  function RepNumber(r: RunRecord): real {
    r.repetition as real
  }

  predicate IsCancelled(r: RunRecord) {
    r.cancelled
  }

  /** A harness error names a child that was still running after cleanup. */
  predicate LeftSurvivor(r: RunRecord) {
    exists i | 0 <= i < |r.harnessErrors| :: CLEANUP_SURVIVOR_PREFIX <= r.harnessErrors[i]
  }

  predicate IsInvalid(r: RunRecord) {
    !r.valid
  }

  predicate LacksMetric(r: RunRecord) {
    Metric(r).None?
  }

  /** Why an attempt does not count, with the repetition the reason names. */
  datatype Refusal =
    | WasCancelled(repetition: u32)
    | ChildLeft(repetition: u32)
    | WrongRepetitions
    | Invalid(repetition: u32)
    | NoMetric(repetition: u32)
    | TooWide
    | NoSpread

  function FirstRepetition(runs: seq<RunRecord>, p: RunRecord -> bool): (first: Option<u32>)
    ensures first.None? <==> forall r | r in runs :: !p(r)
  {
    if runs == [] then None
    else if p(runs[0]) then Some(runs[0].repetition)
    else
      assert runs == [runs[0]] + runs[1..];
      FirstRepetition(runs[1..], p)
  }

  /** The repetition numbers of a complete attempt, ascending. */
  function UpTo(n: nat): seq<real> {
    if n == 0 then [] else UpTo(n - 1) + [n as real]
  }

  function IncompleteReason(runs: seq<RunRecord>, n: nat): Option<Refusal> {
    var cancelled := FirstRepetition(runs, IsCancelled);
    var survivor := FirstRepetition(runs, LeftSurvivor);
    if cancelled.Some? then Some(WasCancelled(cancelled.value))
    else if survivor.Some? then Some(ChildLeft(survivor.value))
    else if Sort(Values(runs, RepNumber)) != UpTo(n) then Some(WrongRepetitions)
    else None
  }

  predicate AttemptComplete(runs: seq<RunRecord>, n: nat) {
    IncompleteReason(runs, n).None?
  }

  predicate AllFinite(runs: seq<RunRecord>) {
    forall r | r in runs :: IsFinite(r)
  }

  /** A metric that is not a finite number exceeds every spread limit. */
  function SpreadRefusal(runs: seq<RunRecord>): Option<Refusal> {
    if !AllFinite(runs) then Some(TooWide)
    else
      var spread := Spread(Values(runs, Amount));
      if spread.None? then Some(NoSpread)
      else if spread.value <= SPREAD_LIMIT then None
      else Some(TooWide)
  }

  function ConfigFailure(runs: seq<RunRecord>, n: nat, enforceSpread: bool): Option<Refusal> {
    var incomplete := IncompleteReason(runs, n);
    var invalid := FirstRepetition(runs, IsInvalid);
    var missing := FirstRepetition(runs, LacksMetric);
    if incomplete.Some? then incomplete
    else if invalid.Some? then Some(Invalid(invalid.value))
    else if !enforceSpread then None
    else if missing.Some? then Some(NoMetric(missing.value))
    else SpreadRefusal(runs)
  }

  predicate ConfigPasses(runs: seq<RunRecord>, n: nat, enforceSpread: bool) {
    ConfigFailure(runs, n, enforceSpread).None?
  }

  lemma {:induction false} FirstAt(runs: seq<RunRecord>, p: RunRecord -> bool, i: nat)
    requires i < |runs| && p(runs[i]) && forall j | 0 <= j < i :: !p(runs[j])
    ensures FirstRepetition(runs, p) == Some(runs[i].repetition)
  {
    if i > 0 { FirstAt(runs[1..], p, i - 1); }
  }

  /** `config_failure`: the metrics are collected one by one, until one is missing. */
  method JudgeConfig(runs: seq<RunRecord>, n: nat, enforceSpread: bool) returns (refusal: Option<Refusal>)
    ensures refusal == ConfigFailure(runs, n, enforceSpread)
  {
    refusal := IncompleteReason(runs, n);
    if refusal.Some? {
      return;
    }
    var invalid := FirstRepetition(runs, IsInvalid);
    if invalid.Some? {
      return Some(Invalid(invalid.value));
    }
    if !enforceSpread {
      return None;
    }
    refusal := JudgeSpread(runs);
  }

  method JudgeSpread(runs: seq<RunRecord>) returns (refusal: Option<Refusal>)
    ensures var missing := FirstRepetition(runs, LacksMetric);
            refusal == if missing.Some? then Some(NoMetric(missing.value)) else SpreadRefusal(runs)
  {
    var metrics: seq<real> := [];
    var finite := true;
    for i := 0 to |runs|
      invariant metrics == Values(runs[..i], Amount)
      invariant finite <==> forall j | 0 <= j < i :: IsFinite(runs[j])
      invariant forall j | 0 <= j < i :: !LacksMetric(runs[j])
    {
      if LacksMetric(runs[i]) {
        FirstAt(runs, LacksMetric, i);
        return Some(NoMetric(runs[i].repetition));
      }
      assert runs[..i + 1][..i] == runs[..i];
      finite := finite && IsFinite(runs[i]);
      metrics := metrics + [Amount(runs[i])];
    }
    assert runs[..|runs|] == runs;
    assert finite <==> AllFinite(runs);
    if !finite {
      return Some(TooWide);
    }
    var spread := ComputeSpread(metrics);
    if spread.None? {
      return Some(NoSpread);
    }
    return if spread.value <= SPREAD_LIMIT then None else Some(TooWide);
  }

  lemma {:induction false} UpToMeaning(n: nat, x: real)
    ensures |UpTo(n)| == n && Ordered(UpTo(n))
    ensures forall i | 0 <= i < n :: UpTo(n)[i] == (i + 1) as real
    ensures multiset(UpTo(n))[x] <= 1 && (x > n as real ==> multiset(UpTo(n))[x] == 0)
  {
    if n > 0 { UpToMeaning(n - 1, x); }
  }

  predicate Undisturbed(runs: seq<RunRecord>) {
    forall r | r in runs :: !IsCancelled(r) && !LeftSurvivor(r)
  }

  /** Complete means: nothing cancelled, no child left, and each repetition `1..=n` there exactly once. */
  lemma CompleteMeaning(runs: seq<RunRecord>, n: nat)
    ensures AttemptComplete(runs, n) <==>
              && Undisturbed(runs)
              && multiset(Values(runs, RepNumber)) == multiset(UpTo(n))
  {
    assert Undisturbed(runs) <==>
           FirstRepetition(runs, IsCancelled).None? && FirstRepetition(runs, LeftSurvivor).None?;
    SortsToUpTo(Values(runs, RepNumber), n);
  }

  lemma SortsToUpTo(reps: seq<real>, n: nat)
    ensures Sort(reps) == UpTo(n) <==> multiset(reps) == multiset(UpTo(n))
  {
    UpToMeaning(n, 0.0);
    SortIsOrdered(reps);
    if multiset(reps) == multiset(UpTo(n)) { OrderedIsUnique(Sort(reps), UpTo(n)); }
  }

  /** No repetition number occurs twice in a complete attempt. */
  lemma RepetitionsDiffer(runs: seq<RunRecord>, n: nat, i: nat, j: nat)
    requires AttemptComplete(runs, n) && i < j < |runs|
    ensures runs[i].repetition != runs[j].repetition
  {
    var reps := Values(runs, RepNumber);
    CompleteMeaning(runs, n);
    ValuesAt(runs, RepNumber, i);
    ValuesAt(runs, RepNumber, j);
    OnceEach(reps, n, i, j);
  }

  lemma OnceEach(reps: seq<real>, n: nat, i: nat, j: nat)
    requires multiset(reps) == multiset(UpTo(n)) && i < j < |reps|
    ensures reps[i] != reps[j]
  {
    UpToMeaning(n, reps[i]);
    Repeated(reps, i, j);
  }

  /** Repetitions `1..=n` in order make a complete attempt. */
  lemma InOrderIsComplete(runs: seq<RunRecord>, n: nat)
    requires |runs| == n && forall i | 0 <= i < n :: runs[i].repetition == i + 1
    requires Undisturbed(runs)
    ensures AttemptComplete(runs, n)
  {
    UpToMeaning(n, 0.0);
    forall i | 0 <= i < n ensures Values(runs, RepNumber)[i] == UpTo(n)[i] { ValuesAt(runs, RepNumber, i); }
    assert Values(runs, RepNumber) == UpTo(n);
    CompleteMeaning(runs, n);
  }

  lemma CompleteReordered(a: seq<RunRecord>, b: seq<RunRecord>, n: nat)
    requires multiset(a) == multiset(b)
    ensures AttemptComplete(a, n) == AttemptComplete(b, n)
  {
    SameMembers(a, b);
    ValuesReordered(a, b, RepNumber);
    CompleteMeaning(a, n);
    CompleteMeaning(b, n);
  }

  predicate AllValid(runs: seq<RunRecord>) {
    forall r | r in runs :: !IsInvalid(r)
  }

  predicate AllMeasured(runs: seq<RunRecord>) {
    forall r | r in runs :: !LacksMetric(r)
  }

  /**
    Every metric is a finite number, their median is not 0, and over a positive one no two of them lie
    further apart than a tenth of it.
    */
  ghost predicate WithinSpread(runs: seq<RunRecord>) {
    var values := Values(runs, Amount);
    && AllFinite(runs) && runs != [] && Median(values).value != 0.0
    && (Median(values).value > 0.0 ==> Close(values, SPREAD_LIMIT * Median(values).value))
  }

  lemma SpreadRefusalMeaning(runs: seq<RunRecord>)
    ensures SpreadRefusal(runs).None? <==> WithinSpread(runs)
  {
    var values := Values(runs, Amount);
    if runs != [] {
      var m := Median(values).value;
      if m > 0.0 {
        SpreadMeaning(values, m, SPREAD_LIMIT, SPREAD_LIMIT * m);
      } else if m < 0.0 {
        NegativeMedian(values, m);
      }
    }
  }

  /** What the gate compares: throughput, p99 latency, connections per second or syscalls per message. */
  lemma GateReads(r: RunRecord)
    requires IsFinite(r)
    ensures match r.key.kind
            case Throughput => r.throughput == Some(Amount(r))
            case Latency => r.latencyNs.Some? && Amount(r) == r.latencyNs.value.p99 as real
            case Connections => r.connectionsPerSec == Some(Finite(Amount(r)))
            case Counted => r.syscalls.perMsg == Some(Amount(r))
  {
  }

  /** The documented gate: a complete attempt, every run valid, and, when enforced, metrics within the spread limit. */
  lemma PassMeaning(runs: seq<RunRecord>, n: nat, enforceSpread: bool)
    ensures ConfigPasses(runs, n, enforceSpread) <==>
              AttemptComplete(runs, n) && AllValid(runs) && (enforceSpread ==> WithinSpread(runs))
  {
    PassesByGates(runs, n, enforceSpread);
    SpreadRefusalMeaning(runs);
    assert AllFinite(runs) ==> AllMeasured(runs);
  }

  lemma PassesByGates(runs: seq<RunRecord>, n: nat, enforceSpread: bool)
    ensures ConfigPasses(runs, n, enforceSpread) <==>
              && AttemptComplete(runs, n) && AllValid(runs)
              && (enforceSpread ==> AllMeasured(runs) && SpreadRefusal(runs).None?)
  {
    assert AllValid(runs) <==> FirstRepetition(runs, IsInvalid).None?;
    assert AllMeasured(runs) <==> FirstRepetition(runs, LacksMetric).None?;
  }

  /** Whether an attempt passes does not depend on the order its records were read in. */
  lemma PassesReordered(a: seq<RunRecord>, b: seq<RunRecord>, n: nat, enforceSpread: bool)
    requires multiset(a) == multiset(b)
    ensures ConfigPasses(a, n, enforceSpread) == ConfigPasses(b, n, enforceSpread)
  {
    SameMembers(a, b);
    assert AllValid(a) == AllValid(b) && AllMeasured(a) == AllMeasured(b);
    CompleteReordered(a, b, n);
    SpreadReordered(a, b);
    PassesByGates(a, n, enforceSpread);
    PassesByGates(b, n, enforceSpread);
  }

  lemma SpreadReordered(a: seq<RunRecord>, b: seq<RunRecord>)
    requires multiset(a) == multiset(b)
    ensures SpreadRefusal(a) == SpreadRefusal(b)
  {
    SameMembers(a, b);
    assert AllFinite(a) == AllFinite(b);
    ValuesReordered(a, b, Amount);
    SpreadOfReordering(Values(a, Amount), Values(b, Amount));
  }

  /** A record judged beside a surviving child never belongs to a complete attempt. */
  lemma SurvivorIsIncomplete(r: RunRecord, survivors: seq<string>, runs: seq<RunRecord>, n: nat)
    requires survivors != [] && RecordSurvivors(r, survivors) in runs
    ensures !AttemptComplete(runs, n)
  {
    var record := RecordSurvivors(r, survivors);
    assert record.harnessErrors[|r.harnessErrors|] == CLEANUP_SURVIVOR_PREFIX + survivors[0];
    assert LeftSurvivor(record);
    CompleteMeaning(runs, n);
  }

  // ---------------------------------------------------------------- capacity rows

  datatype CapacityRow = UnresolvedRow | MissedSlotsRow | SteadyStateRow {
    /** The row's place in the order rows are listed in. */
    function Place(): nat {
      match this
      case UnresolvedRow => 0
      case MissedSlotsRow => 1
      case SteadyStateRow => 2
    }

    /** The reconciliation row it stands for. */
    function Number(): nat {
      match this
      case UnresolvedRow => 3
      case MissedSlotsRow => 11
      case SteadyStateRow => 31
    }
  }

  method CapacityRows(r: RunRecord) returns (rows: seq<CapacityRow>)
    ensures rows == RowList(FailedRows(r))
  {
    rows := [];
    if !r.key.kind.IsOpenLoop() {
      return;
    }
    if r.counts.unresolved != 0 { rows := rows + [UnresolvedRow]; }
    if r.errors.missedSlots != 0 { rows := rows + [MissedSlotsRow]; }
    if SteadyStateFails(r) { rows := rows + [SteadyStateRow]; }
  }

  predicate FailsRow(r: RunRecord, row: CapacityRow) {
    r.key.kind.IsOpenLoop()
    && match row
       case UnresolvedRow => r.counts.unresolved != 0
       case MissedSlotsRow => r.errors.missedSlots != 0
       case SteadyStateRow => SteadyStateFails(r)
  }

  function FailedRows(r: RunRecord): set<CapacityRow> {
    set row: CapacityRow | FailsRow(r, row)
  }

  /** They are the rows reconciliation fails an open-loop record on. */
  lemma FailedRowsMeaning(r: RunRecord, row: CapacityRow)
    ensures row in FailedRows(r) <==> r.key.kind.IsOpenLoop() && RowFails(r, row.Number())
  {
  }

  /** A set of rows, listed in order. */
  function RowList(s: set<CapacityRow>): seq<CapacityRow> {
    (if UnresolvedRow in s then [UnresolvedRow] else [])
    + (if MissedSlotsRow in s then [MissedSlotsRow] else [])
    + (if SteadyStateRow in s then [SteadyStateRow] else [])
  }

  lemma RowListMeaning(s: set<CapacityRow>)
    ensures forall row :: row in RowList(s) <==> row in s
    ensures forall i, j | 0 <= i < j < |RowList(s)| :: RowList(s)[i].Place() < RowList(s)[j].Place()
    ensures RowList(s) == [] <==> s == {}
  {
    forall row ensures row in RowList(s) <==> row in s {
      match row
      case UnresolvedRow =>
      case MissedSlotsRow =>
      case SteadyStateRow =>
    }
  }

  /** A counted run that failed a row of its syscall counter. */
  predicate CounterFailed(r: RunRecord) {
    r.key.kind == Counted && (r.syscalls.count.None? || CounterBoundariesOff(r) || !CounterExitOk(r))
  }

  lemma CounterFailedMeaning(r: RunRecord)
    ensures CounterFailed(r) <==> RowFails(r, 19) || RowFails(r, 22) || RowFails(r, 23)
  {
  }
}
