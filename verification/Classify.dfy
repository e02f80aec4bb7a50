/** The passes over a configuration's records that find its complete attempts and its outcome. */
module Classify {
  import opened Arith
  import opened RunRecords
  import opened Judgement
  import opened Outcome
  import opened OpenLoop

  lemma WhereStep(runs: seq<RunRecord>, r: RunRecord, s: Selector)
    ensures Where(runs + [r], s) == Where(runs, s) + (if s.Takes(r) then [r] else [])
  {
    assert (runs + [r])[..|runs + [r]| - 1] == runs;
  }

  lemma EmptyGroup(runs: seq<RunRecord>, a: u32)
    requires a !in Attempts(runs)
    ensures Group(runs, a) == []
  {
    if Group(runs, a) != [] {
      WhereMeaning(runs, OfAttempt(a), Group(runs, a)[0]);
    }
  }

  ghost predicate GroupsOf(groups: map<u32, seq<RunRecord>>, runs: seq<RunRecord>) {
    groups.Keys == Attempts(runs) && forall a | a in groups :: groups[a] == Group(runs, a)
  }

  function AddTo(groups: map<u32, seq<RunRecord>>, r: RunRecord): map<u32, seq<RunRecord>> {
    groups[r.attempt := (if r.attempt in groups then groups[r.attempt] else []) + [r]]
  }

  lemma GroupsStep(groups: map<u32, seq<RunRecord>>, runs: seq<RunRecord>, r: RunRecord)
    requires GroupsOf(groups, runs)
    ensures GroupsOf(AddTo(groups, r), runs + [r])
  {
    AttemptsStep(runs, r);
    if r.attempt !in groups { EmptyGroup(runs, r.attempt); }
    forall a | a in AddTo(groups, r) ensures AddTo(groups, r)[a] == Group(runs + [r], a) {
      WhereStep(runs, r, OfAttempt(a));
    }
  }

  /** Records gathered by attempt number, each group in reading order. */
  method GroupByAttempt(runs: seq<RunRecord>) returns (groups: map<u32, seq<RunRecord>>)
    ensures GroupsOf(groups, runs)
  {
    groups := map[];
    for i := 0 to |runs|
      invariant GroupsOf(groups, runs[..i])
    {
      GroupsStep(groups, runs[..i], runs[i]);
      assert runs[..i + 1] == runs[..i] + [runs[i]];
      groups := AddTo(groups, runs[i]);
    }
    assert runs[..|runs|] == runs;
  }

  method CountComplete(groups: map<u32, seq<RunRecord>>, n: u32, ghost done: set<u32>) returns (count: nat)
    requires done <= groups.Keys && forall a | a in groups :: a in done <==> AttemptComplete(groups[a], n)
    ensures count == |done|
  {
    count := 0;
    var keys := groups.Keys;
    assert done - keys == {};
    while keys != {}
      invariant keys <= groups.Keys
      invariant count == |done - keys|
    {
      var a :| a in keys;
      OneLess(done, keys, a);
      if AttemptComplete(groups[a], n) {
        count := count + 1;
      }
      keys := keys - {a};
    }
    assert done - keys == done;
  }

  lemma OneLess(done: set<u32>, keys: set<u32>, a: u32)
    requires a in keys
    ensures |done - (keys - {a})| == |done - keys| + if a in done then 1 else 0
  {
    if a in done {
      assert done - (keys - {a}) == (done - keys) + {a};
    } else {
      assert done - (keys - {a}) == done - keys;
    }
  }

  method HighestAttempt(runs: seq<RunRecord>) returns (highest: u32)
    requires runs != []
    ensures highest == Highest(runs)
  {
    highest := runs[0].attempt;
    for i := 1 to |runs|
      invariant highest == Highest(runs[..i])
    {
      assert runs[..i + 1][..i] == runs[..i];
      if runs[i].attempt > highest { highest := runs[i].attempt; }
    }
    assert runs[..|runs|] == runs;
  }

  // ---------------------------------------------------------------- one completed attempt

  lemma RepetitionIsUnique(group: seq<RunRecord>, n: nat, r: RunRecord, x: RunRecord)
    requires AttemptComplete(group, n) && r in group && x in group && r.repetition == x.repetition
    ensures r == x
  {
    var i :| 0 <= i < |group| && group[i] == r;
    var j :| 0 <= j < |group| && group[j] == x;
    if i < j { RepetitionsDiffer(group, n, i, j); }
    if j < i { RepetitionsDiffer(group, n, j, i); }
  }

  method FindRepetition(group: seq<RunRecord>, rep: nat) returns (found: Option<RunRecord>)
    ensures found.Some? ==> found.value in group && found.value.repetition == rep
    ensures found.None? ==> forall r | r in group :: r.repetition != rep
  {
    for i := 0 to |group|
      invariant forall j | 0 <= j < i :: group[j].repetition != rep
    {
      if group[i].repetition == rep {
        return Some(group[i]);
      }
    }
    return None;
  }

  /** Rows failed by invalid repetitions below `bound`. */
  ghost predicate FailsBelow(group: seq<RunRecord>, bound: nat, row: CapacityRow) {
    exists r | r in group :: !r.valid && r.repetition < bound && row in FailedRows(r)
  }

  ghost function GroupRows(group: seq<RunRecord>, bound: nat): set<CapacityRow> {
    set row: CapacityRow | FailsBelow(group, bound, row)
  }

  /** What one repetition adds, when no other record carries its number. */
  lemma RepetitionStep(group: seq<RunRecord>, rep: nat, r: RunRecord)
    requires r in group && r.repetition == rep && forall x | x in group && x.repetition == rep :: x == r
    ensures RepetitionOffence(group, rep) ==
            if r.valid then None
            else if CounterFailed(r) then Some(CounterFailure(rep))
            else if FailedRows(r) == {} then Some(NoCapacityRow(rep)) else None
    ensures GroupRows(group, rep + 1) == GroupRows(group, rep) + if r.valid then {} else FailedRows(r)
  {
    forall x | x in group ensures FailsCounter(x, rep) ==> FailsCounter(r, rep) {}
    forall x | x in group ensures FailsNoRow(x, rep) ==> FailsNoRow(r, rep) {}
    forall row
      ensures row in GroupRows(group, rep + 1) <==> row in GroupRows(group, rep) || (!r.valid && row in FailedRows(r))
    {
      forall x | x in group && x.repetition < rep + 1 ensures x.repetition < rep || x == r {}
    }
  }

  lemma RepetitionGap(group: seq<RunRecord>, rep: nat)
    requires forall x | x in group :: x.repetition != rep
    ensures RepetitionOffence(group, rep) == None && GroupRows(group, rep + 1) == GroupRows(group, rep)
  {
    forall x | x in group ensures !FailsCounter(x, rep) && !FailsNoRow(x, rep) {}
    forall row ensures row in GroupRows(group, rep + 1) <==> row in GroupRows(group, rep) {
      forall x | x in group && x.repetition < rep + 1 ensures x.repetition < rep {}
    }
  }

  /** The invalid repetitions of a completed attempt, in repetition order, until one offends. */
  method JudgeAttempt(group: seq<RunRecord>, n: u32) returns (offence: Option<Offence>, rows: set<CapacityRow>)
    requires AttemptComplete(group, n)
    ensures offence == GroupOffence(group, n)
    ensures offence.None? ==> rows == GroupRows(group, n + 1)
  {
    rows := {};
    if FirstRepetition(group, IsInvalid).None? {
      return Some(AllValid), rows;
    }
    assert GroupRows(group, 0) == {};
    assert GroupRows(group, 1) == {} by {
      forall x | x in group ensures x.repetition >= 1 { CompleteRange(group, n, x); }
    }
    for rep := 1 to n + 1
      invariant OffenceFrom(group, 1, n) == OffenceFrom(group, rep, n)
      invariant rows == GroupRows(group, rep)
    {
      var found := FindRepetition(group, rep);
      match found {
        case None =>
          RepetitionGap(group, rep);
        case Some(r) =>
          forall x | x in group && x.repetition == rep ensures x == r { RepetitionIsUnique(group, n, r, x); }
          RepetitionStep(group, rep, r);
          if !r.valid {
            if CounterFailed(r) {
              return Some(CounterFailure(rep)), rows;
            }
            if FailedRows(r) == {} {
              return Some(NoCapacityRow(rep)), rows;
            }
            rows := rows + FailedRows(r);
          }
      }
    }
    return None, rows;
  }

  // ---------------------------------------------------------------- the outcome

  lemma GroupOfCompleted(groups: map<u32, seq<RunRecord>>, runs: seq<RunRecord>, n: nat)
    requires GroupsOf(groups, runs)
    ensures Completed(runs, n) <= groups.Keys
    ensures forall a | a in groups :: a in Completed(runs, n) <==> AttemptComplete(groups[a], n)
  {
  }

  /** What one attempt number adds to the rows shown so far. */
  lemma AttemptStep(runs: seq<RunRecord>, n: u32, a: u32)
    ensures RowsBelow(runs, n, a + 1)
         == RowsBelow(runs, n, a) + if a in Completed(runs, n) then GroupRows(Group(runs, a), n + 1) else {}
  {
    var group := Group(runs, a);
    forall r ensures r in group <==> r in runs && r.attempt == a { WhereMeaning(runs, OfAttempt(a), r); }
    if a in Completed(runs, n) {
      forall r | r in group ensures r.repetition < n + 1 { CompleteRange(group, n, r); }
    }
    forall row ensures ShownBelow(runs, n, a + 1, row) <==>
                       ShownBelow(runs, n, a, row) || (a in Completed(runs, n) && FailsBelow(group, n + 1, row))
    {
      forall r | r in runs && r.attempt < a + 1 ensures r.attempt < a || r in group {}
    }
  }

  /** One attempt number: nothing unless its attempt is complete. */
  method JudgeNumber(groups: map<u32, seq<RunRecord>>, n: u32, a: u32, ghost runs: seq<RunRecord>)
    returns (offence: Option<Offence>, more: set<CapacityRow>)
    requires GroupsOf(groups, runs)
    ensures offence == if a in Completed(runs, n) then GroupOffence(Group(runs, a), n) else None
    ensures offence.None? ==> RowsBelow(runs, n, a + 1) == RowsBelow(runs, n, a) + more
  {
    GroupOfCompleted(groups, runs, n);
    AttemptStep(runs, n, a);
    offence, more := None, {};
    if a in groups && AttemptComplete(groups[a], n) {
      offence, more := JudgeAttempt(groups[a], n);
    }
  }

  /** The completed attempts in ascending order, until one offends. */
  method JudgeAttempts(groups: map<u32, seq<RunRecord>>, n: u32, highest: u32, ghost runs: seq<RunRecord>)
    returns (cause: Option<Cause>, rows: set<CapacityRow>)
    requires GroupsOf(groups, runs)
    ensures cause == FirstOffence(runs, n, 0, highest)
    ensures cause.None? ==> rows == RowsBelow(runs, n, highest + 1)
  {
    rows := {};
    assert RowsBelow(runs, n, 0) == {};
    for a := 0 to highest + 1
      invariant FirstOffence(runs, n, 0, highest) == FirstOffence(runs, n, a, highest)
      invariant rows == RowsBelow(runs, n, a)
    {
      var offence, more := JudgeNumber(groups, n, a, runs);
      if offence.Some? {
        return Some(InAttempt(a, offence.value)), rows;
      }
      rows := rows + more;
    }
    cause := None;
  }

  lemma AllRowsBelow(runs: seq<RunRecord>, n: nat)
    requires runs != []
    ensures RowsBelow(runs, n, Highest(runs) + 1) == RowsBelow(runs, n, U32_MAX + 1)
  {
    HighestMeaning(runs);
    forall r | r in runs ensures r.attempt <= Highest(runs) { assert r.attempt in Attempts(runs); }
    var all := RowsBelow(runs, n, U32_MAX + 1);
    forall row ensures row in RowsBelow(runs, n, Highest(runs) + 1) <==> row in all {}
  }

  method ClassifySpent(groups: map<u32, seq<RunRecord>>, runs: seq<RunRecord>, n: u32, highest: u32)
    returns (outcome: OpenLoopOutcome)
    requires runs != [] && GroupsOf(groups, runs) && highest == Highest(runs)
    ensures outcome == SpentOutcome(runs, n)
  {
    if exists r | r in runs :: StraceCounted(r) {
      return Exhausted(StraceSpent);
    }
    var cause, rows := JudgeAttempts(groups, n, highest, runs);
    AllRowsBelow(runs, n);
    if cause.Some? {
      return Exhausted(cause.value);
    }
    return NotSustained(RowList(rows));
  }

  method CompletedCount(groups: map<u32, seq<RunRecord>>, n: u32, ghost runs: seq<RunRecord>) returns (count: u32)
    requires GroupsOf(groups, runs)
    ensures count == Min(|Completed(runs, n)|, U32_MAX)
  {
    GroupOfCompleted(groups, runs, n);
    var c := CountComplete(groups, n, Completed(runs, n));
    count := Min(c, U32_MAX);
  }

  /** `open_loop_outcome`. */
  method ClassifyOpenLoop(runs: seq<RunRecord>, k: ProtocolConstants) returns (outcome: OpenLoopOutcome)
    ensures outcome == OutcomeOf(runs, k)
  {
    var groups := GroupByAttempt(runs);
    if runs == [] {
      return Pending;
    }
    var highest := HighestAttempt(runs);
    HighestMeaning(runs);
    if ConfigPasses(groups[highest], k.repetitions, k.enforceSpread) {
      return Passed;
    }
    var completed := CompletedCount(groups, k.repetitions, runs);
    if completed < k.maxConfigAttempts {
      return Pending;
    }
    outcome := ClassifySpent(groups, runs, k.repetitions, highest);
  }
}
