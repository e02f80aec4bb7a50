/** How a configuration's stored attempts are read: its highest attempt, its complete ones, its outcome. */
module OpenLoop {
  import opened Arith
  import opened RunRecords
  import opened Judgement
  import opened Outcome

  function Attempts(runs: seq<RunRecord>): set<u32> {
    set r | r in runs :: r.attempt
  }

  function Highest(runs: seq<RunRecord>): u32
    requires runs != []
  {
    if |runs| == 1 then runs[0].attempt else Max(Highest(runs[..|runs| - 1]), runs[|runs| - 1].attempt)
  }

  lemma {:induction false} HighestMeaning(runs: seq<RunRecord>)
    requires runs != []
    ensures Highest(runs) in Attempts(runs) && forall a | a in Attempts(runs) :: a <= Highest(runs)
  {
    if |runs| > 1 {
      HighestMeaning(runs[..|runs| - 1]);
      AttemptsStep(runs[..|runs| - 1], runs[|runs| - 1]);
      assert runs == runs[..|runs| - 1] + [runs[|runs| - 1]];
    }
  }

  lemma AttemptsStep(runs: seq<RunRecord>, r: RunRecord)
    ensures Attempts(runs + [r]) == Attempts(runs) + {r.attempt}
  {
    forall a ensures a in Attempts(runs + [r]) <==> a in Attempts(runs) || a == r.attempt {
      assert r in runs + [r];
      assert forall x | x in runs :: x in runs + [r];
    }
  }

  function Group(runs: seq<RunRecord>, a: u32): seq<RunRecord> {
    Where(runs, OfAttempt(a))
  }

  /** The attempts that count against the budget. */
  function Completed(runs: seq<RunRecord>, n: nat): set<u32> {
    set a | a in Attempts(runs) && AttemptComplete(Group(runs, a), n)
  }

  predicate HighestPasses(runs: seq<RunRecord>, k: ProtocolConstants) {
    runs != [] && ConfigPasses(Group(runs, Highest(runs)), k.repetitions, k.enforceSpread)
  }

  predicate Spent(runs: seq<RunRecord>, k: ProtocolConstants) {
    |Completed(runs, k.repetitions)| >= k.maxConfigAttempts
  }

  predicate StraceCounted(r: RunRecord) {
    r.key.kind == Counted && r.syscalls.method_ == Strace
  }

  // ---------------------------------------------------------------- what each completed attempt shows

  /** What keeps a completed attempt from showing a capacity limit. */
  datatype Offence = AllValid | CounterFailure(repetition: nat) | NoCapacityRow(repetition: nat)

  datatype Cause = StraceSpent | InAttempt(attempt: nat, offence: Offence)

  datatype OpenLoopOutcome = Passed | Pending | NotSustained(rows: seq<CapacityRow>) | Exhausted(cause: Cause)

  predicate FailsCounter(r: RunRecord, rep: nat) {
    r.repetition == rep && !r.valid && CounterFailed(r)
  }

  ghost predicate FailsNoRow(r: RunRecord, rep: nat) {
    r.repetition == rep && !r.valid && !CounterFailed(r) && FailedRows(r) == {}
  }

  ghost function RepetitionOffence(group: seq<RunRecord>, rep: nat): Option<Offence> {
    if exists r | r in group :: FailsCounter(r, rep) then Some(CounterFailure(rep))
    else if exists r | r in group :: FailsNoRow(r, rep) then Some(NoCapacityRow(rep))
    else None
  }

  /** The first offence among repetitions `rep..=n`. */
  ghost function OffenceFrom(group: seq<RunRecord>, rep: nat, n: nat): Option<Offence>
    decreases n + 1 - rep
  {
    if rep > n then None
    else if RepetitionOffence(group, rep).Some? then RepetitionOffence(group, rep)
    else OffenceFrom(group, rep + 1, n)
  }

  ghost function GroupOffence(group: seq<RunRecord>, n: nat): Option<Offence> {
    if forall r | r in group :: r.valid then Some(AllValid) else OffenceFrom(group, 1, n)
  }

  /** The first completed attempt among `a..=highest` with an offence. */
  ghost function FirstOffence(runs: seq<RunRecord>, n: nat, a: nat, highest: u32): Option<Cause>
    decreases highest + 1 - a
  {
    if a > highest then None
    else if a in Completed(runs, n) && GroupOffence(Group(runs, a), n).Some?
    then Some(InAttempt(a, GroupOffence(Group(runs, a), n).value))
    else FirstOffence(runs, n, a + 1, highest)
  }

  /** An invalid repetition of a completed attempt fails the row. */
  ghost predicate Shows(runs: seq<RunRecord>, n: nat, r: RunRecord, row: CapacityRow) {
    !r.valid && r.attempt in Completed(runs, n) && row in FailedRows(r)
  }

  ghost predicate ShownBelow(runs: seq<RunRecord>, n: nat, bound: nat, row: CapacityRow) {
    exists r | r in runs :: r.attempt < bound && Shows(runs, n, r, row)
  }

  /** The capacity rows shown by completed attempts below `bound`. */
  ghost function RowsBelow(runs: seq<RunRecord>, n: nat, bound: nat): set<CapacityRow> {
    set row: CapacityRow | ShownBelow(runs, n, bound, row)
  }

  ghost function OutcomeOf(runs: seq<RunRecord>, k: ProtocolConstants): OpenLoopOutcome {
    if runs == [] then Pending
    else if HighestPasses(runs, k) then Passed
    else if !Spent(runs, k) then Pending
    else SpentOutcome(runs, k.repetitions)
  }

  /** The outcome of a spent budget. */
  ghost function SpentOutcome(runs: seq<RunRecord>, n: nat): OpenLoopOutcome
    requires runs != []
  {
    if exists r | r in runs :: StraceCounted(r) then Exhausted(StraceSpent)
    else
      var offence := FirstOffence(runs, n, 0, Highest(runs));
      if offence.Some? then Exhausted(offence.value)
      else NotSustained(RowList(RowsBelow(runs, n, U32_MAX + 1)))
  }

  // ---------------------------------------------------------------- what the outcome means

  /** Every invalid repetition fails a capacity row and none the syscall counter, and there is one. */
  ghost predicate ShowsLimit(group: seq<RunRecord>) {
    && (exists r | r in group :: !r.valid)
    && forall r | r in group && !r.valid :: !CounterFailed(r) && FailedRows(r) != {}
  }

  lemma {:induction false} OffenceFromMeaning(group: seq<RunRecord>, rep: nat, n: nat)
    ensures OffenceFrom(group, rep, n).None? <==>
              forall r | r in group && rep <= r.repetition <= n && !r.valid :: !CounterFailed(r) && FailedRows(r) != {}
    decreases n + 1 - rep
  {
    if rep <= n {
      OffenceFromMeaning(group, rep + 1, n);
      if RepetitionOffence(group, rep).None? {
        forall r | r in group && rep <= r.repetition <= n && !r.valid && OffenceFrom(group, rep + 1, n).None?
          ensures !CounterFailed(r) && FailedRows(r) != {}
        {
          assert !FailsCounter(r, rep) && !FailsNoRow(r, rep);
        }
      }
    }
  }

  lemma CompleteRange(group: seq<RunRecord>, n: nat, r: RunRecord)
    requires AttemptComplete(group, n) && r in group
    ensures 1 <= r.repetition <= n
  {
    var i :| 0 <= i < |group| && group[i] == r;
    CompleteMeaning(group, n);
    ValuesAt(group, RepNumber, i);
    UpToMeaning(n, 0.0);
    var reps := Values(group, RepNumber);
    assert reps[i] in multiset(UpTo(n));
    var j :| 0 <= j < n && UpTo(n)[j] == reps[i];
  }

  lemma GroupOffenceMeaning(group: seq<RunRecord>, n: nat)
    requires AttemptComplete(group, n)
    ensures GroupOffence(group, n).None? <==> ShowsLimit(group)
  {
    OffenceFromMeaning(group, 1, n);
    forall r | r in group ensures 1 <= r.repetition <= n { CompleteRange(group, n, r); }
  }

  ghost predicate NoOffence(runs: seq<RunRecord>, n: nat, a: nat) {
    a in Completed(runs, n) ==> GroupOffence(Group(runs, a), n).None?
  }

  lemma {:induction false} FirstOffenceMeaning(runs: seq<RunRecord>, n: nat, a: nat, highest: u32)
    ensures FirstOffence(runs, n, a, highest).None? <==> forall b: nat | a <= b <= highest :: NoOffence(runs, n, b)
    decreases highest + 1 - a
  {
    if a <= highest {
      FirstOffenceMeaning(runs, n, a + 1, highest);
      assert NoOffence(runs, n, a) || FirstOffence(runs, n, a, highest).Some?;
    }
  }

  /** The documented rule: the budget is spent, and every completed attempt shows a capacity limit. */
  ghost predicate SustainedNowhere(runs: seq<RunRecord>, k: ProtocolConstants) {
    && runs != [] && !HighestPasses(runs, k) && Spent(runs, k)
    && (forall r | r in runs :: !StraceCounted(r))
    && (forall a | a in Completed(runs, k.repetitions) :: ShowsLimit(Group(runs, a)))
  }

  lemma NotSustainedMeaning(runs: seq<RunRecord>, k: ProtocolConstants)
    ensures OutcomeOf(runs, k).NotSustained? <==> SustainedNowhere(runs, k)
  {
    if runs != [] {
      var n := k.repetitions;
      FirstOffenceMeaning(runs, n, 0, Highest(runs));
      HighestMeaning(runs);
      forall a | a in Completed(runs, n) ensures NoOffence(runs, n, a) <==> ShowsLimit(Group(runs, a)) {
        GroupOffenceMeaning(Group(runs, a), n);
      }
    }
  }

  /** The list names the rows shown by completed attempts, in order and none twice. */
  ghost predicate ListsRows(runs: seq<RunRecord>, n: nat, rows: seq<CapacityRow>) {
    && (forall i, j | 0 <= i < j < |rows| :: rows[i].Place() < rows[j].Place())
    && (forall row :: row in rows <==> exists r | r in runs :: Shows(runs, n, r, row))
  }

  /** A not-sustained list names exactly the failed capacity rows, at least one of them. */
  lemma NotSustainedRows(runs: seq<RunRecord>, k: ProtocolConstants)
    requires OutcomeOf(runs, k).NotSustained? && k.maxConfigAttempts >= 1
    ensures OutcomeOf(runs, k).rows != [] && ListsRows(runs, k.repetitions, OutcomeOf(runs, k).rows)
  {
    var rows := OutcomeOf(runs, k).rows;
    ListedRows(runs, k.repetitions, rows);
    NotSustainedMeaning(runs, k);
    SomeRowIsShown(runs, k.repetitions);
  }

  lemma ListedRows(runs: seq<RunRecord>, n: nat, rows: seq<CapacityRow>)
    requires rows == RowList(RowsBelow(runs, n, U32_MAX + 1))
    ensures ListsRows(runs, n, rows)
    ensures RowsBelow(runs, n, U32_MAX + 1) != {} ==> rows != []
  {
    RowListMeaning(RowsBelow(runs, n, U32_MAX + 1));
  }

  lemma SomeRowIsShown(runs: seq<RunRecord>, n: nat)
    requires Completed(runs, n) != {} && forall a | a in Completed(runs, n) :: ShowsLimit(Group(runs, a))
    ensures RowsBelow(runs, n, U32_MAX + 1) != {}
  {
    var a :| a in Completed(runs, n);
    var group := Group(runs, a);
    assert ShowsLimit(group);
    var r :| r in group && !r.valid;
    WhereMeaning(runs, OfAttempt(a), r);
    RowIsShown(runs, n, r);
  }

  lemma RowIsShown(runs: seq<RunRecord>, n: nat, r: RunRecord)
    requires r in runs && !r.valid && r.attempt in Completed(runs, n) && FailedRows(r) != {}
    ensures RowsBelow(runs, n, U32_MAX + 1) != {}
  {
    var row :| row in FailedRows(r);
    assert Shows(runs, n, r, row);
    assert row in RowsBelow(runs, n, U32_MAX + 1);
  }
}
