/** The plan a resumed session takes from the stored records, and its agreement with the outcome. */
module Resume {
  import opened Arith
  import opened RunRecords
  import opened Judgement
  import opened Outcome
  import opened OpenLoop
  import opened Classify

  datatype ResumeState = HasPassed | NextAttempt(attempt: u32, remaining: u32)

  /** The plan for one configuration with records. */
  function StateOf(runs: seq<RunRecord>, k: ProtocolConstants): ResumeState
    requires runs != []
  {
    if HighestPasses(runs, k) then HasPassed
    else if Highest(runs) < U32_MAX
    then NextAttempt(Highest(runs) + 1, SatSub(k.maxConfigAttempts, |Completed(runs, k.repetitions)|))
    else NextAttempt(Highest(runs), 0)
  }

  method PlanOne(runs: seq<RunRecord>, k: ProtocolConstants) returns (state: ResumeState)
    requires runs != []
    ensures state == StateOf(runs, k)
  {
    var highest := HighestAttempt(runs);
    var groups := GroupByAttempt(runs);
    HighestMeaning(runs);
    var completed := CompletedCount(groups, k.repetitions, runs);
    if ConfigPasses(groups[highest], k.repetitions, k.enforceSpread) {
      return HasPassed;
    }
    if highest < U32_MAX {
      return NextAttempt(highest + 1, SatSub(k.maxConfigAttempts, completed));
    }
    return NextAttempt(highest, 0);
  }

  function Keys(records: seq<RunRecord>): set<ConfigKey> {
    set r | r in records :: r.key
  }

  function RunsOf(records: seq<RunRecord>, key: ConfigKey): seq<RunRecord> {
    Where(records, OfKey(key))
  }

  lemma KeysStep(records: seq<RunRecord>, r: RunRecord)
    ensures Keys(records + [r]) == Keys(records) + {r.key}
  {
    forall key ensures key in Keys(records + [r]) <==> key in Keys(records) || key == r.key {
      assert r in records + [r];
      assert forall x | x in records :: x in records + [r];
    }
  }

  /** A configuration has records exactly when its key is among the stored keys. */
  lemma RunsOfKey(records: seq<RunRecord>, key: ConfigKey)
    ensures RunsOf(records, key) != [] <==> key in Keys(records)
  {
    if RunsOf(records, key) != [] { WhereMeaning(records, OfKey(key), RunsOf(records, key)[0]); }
    if key in Keys(records) {
      var r :| r in records && r.key == key;
      WhereMeaning(records, OfKey(key), r);
    }
  }

  ghost predicate ByKey(groups: map<ConfigKey, seq<RunRecord>>, records: seq<RunRecord>) {
    groups.Keys == Keys(records) && forall key | key in groups :: groups[key] == RunsOf(records, key)
  }

  function AddToKey(groups: map<ConfigKey, seq<RunRecord>>, r: RunRecord): map<ConfigKey, seq<RunRecord>> {
    groups[r.key := (if r.key in groups then groups[r.key] else []) + [r]]
  }

  lemma ByKeyStep(groups: map<ConfigKey, seq<RunRecord>>, records: seq<RunRecord>, r: RunRecord)
    requires ByKey(groups, records)
    ensures ByKey(AddToKey(groups, r), records + [r])
  {
    KeysStep(records, r);
    RunsOfKey(records, r.key);
    forall key | key in AddToKey(groups, r) ensures AddToKey(groups, r)[key] == RunsOf(records + [r], key) {
      WhereStep(records, r, OfKey(key));
    }
  }

  method GroupByKey(records: seq<RunRecord>) returns (groups: map<ConfigKey, seq<RunRecord>>)
    ensures ByKey(groups, records)
  {
    groups := map[];
    for i := 0 to |records|
      invariant ByKey(groups, records[..i])
    {
      ByKeyStep(groups, records[..i], records[i]);
      assert records[..i + 1] == records[..i] + [records[i]];
      groups := AddToKey(groups, records[i]);
    }
    assert records[..|records|] == records;
  }

  ghost predicate PlanOf(plan: map<ConfigKey, ResumeState>, records: seq<RunRecord>, k: ProtocolConstants) {
    && plan.Keys == Keys(records)
    && forall key | key in plan :: RunsOf(records, key) != [] && plan[key] == StateOf(RunsOf(records, key), k)
  }

  /** `a` is one past the highest stored attempt of the configuration, or the last number when that is stored. */
  ghost predicate FollowsStored(records: seq<RunRecord>, key: ConfigKey, a: u32) {
    if exists r | r in records :: r.key == key && r.attempt == U32_MAX then a == U32_MAX
    else
      && (forall r | r in records && r.key == key :: r.attempt < a)
      && exists r | r in records :: r.key == key && r.attempt + 1 == a
  }

  lemma NextFollowsStored(records: seq<RunRecord>, key: ConfigKey, k: ProtocolConstants)
    requires RunsOf(records, key) != [] && StateOf(RunsOf(records, key), k).NextAttempt?
    ensures FollowsStored(records, key, StateOf(RunsOf(records, key), k).attempt)
  {
    var runs := RunsOf(records, key);
    HighestMeaning(runs);
    var top :| top in runs && top.attempt == Highest(runs);
    WhereMeaning(records, OfKey(key), top);
    forall r | r in records && r.key == key ensures r.attempt <= Highest(runs) {
      WhereMeaning(records, OfKey(key), r);
      assert r.attempt in Attempts(runs);
    }
  }

  /**
    `resume_plan`: a state for every stored configuration. One that has not passed goes on at the number
    after its highest attempt, with what its completed attempts leave of the budget.
    */
  method ResumePlan(records: seq<RunRecord>, k: ProtocolConstants) returns (plan: map<ConfigKey, ResumeState>)
    ensures PlanOf(plan, records, k)
    ensures forall key | key in plan && plan[key].NextAttempt? :: FollowsStored(records, key, plan[key].attempt)
  {
    var groups := GroupByKey(records);
    plan := map[];
    var keys := groups.Keys;
    while keys != {}
      invariant keys <= groups.Keys && plan.Keys == groups.Keys - keys
      invariant forall key | key in plan :: RunsOf(records, key) != [] && plan[key] == StateOf(RunsOf(records, key), k)
    {
      var key :| key in keys;
      RunsOfKey(records, key);
      var state := PlanOne(groups[key], k);
      plan := plan[key := state];
      keys := keys - {key};
    }
    forall key | key in plan && plan[key].NextAttempt? ensures FollowsStored(records, key, plan[key].attempt) {
      NextFollowsStored(records, key, k);
    }
  }

  // ---------------------------------------------------------------- agreement with the outcome

  /** The plan and the outcome agree on what has passed and on what is still to run. */
  ghost predicate Agree(runs: seq<RunRecord>, k: ProtocolConstants)
    requires runs != []
  {
    && (StateOf(runs, k).HasPassed? <==> OutcomeOf(runs, k).Passed?)
    && (StateOf(runs, k).NextAttempt? && StateOf(runs, k).remaining > 0 <==> OutcomeOf(runs, k).Pending?)
  }

  /** They agree on every configuration that has an attempt number left. */
  lemma PlanAgreesBelowLastNumber(runs: seq<RunRecord>, k: ProtocolConstants)
    requires runs != [] && Highest(runs) < U32_MAX
    ensures Agree(runs, k)
  {
  }

  /** At the last number they agree exactly when the configuration has passed or has spent its budget. */
  lemma PlanAgreesWithOutcome(runs: seq<RunRecord>, k: ProtocolConstants)
    requires runs != []
    ensures StateOf(runs, k).HasPassed? <==> OutcomeOf(runs, k).Passed?
    ensures Agree(runs, k) <==> Highest(runs) < U32_MAX || HighestPasses(runs, k) || Spent(runs, k)
  {
  }

  /** One cancelled record under the last number: nothing is left to run, and yet it is pending. */
  lemma PlanDisagreesAtLastNumber(r: RunRecord, k: ProtocolConstants)
    requires r.attempt == U32_MAX && r.cancelled && k.maxConfigAttempts >= 1
    ensures StateOf([r], k) == NextAttempt(U32_MAX, 0) && OutcomeOf([r], k) == Pending && !Agree([r], k)
  {
    var group := Group([r], U32_MAX);
    WhereMeaning([r], OfAttempt(U32_MAX), r);
    CompleteMeaning(group, k.repetitions);
    assert IsCancelled(r) && !Undisturbed(group);
    assert Completed([r], k.repetitions) == {};
  }

  // ---------------------------------------------------------------- independence of reading order

  lemma AttemptsReordered(a: seq<RunRecord>, b: seq<RunRecord>)
    requires multiset(a) == multiset(b)
    ensures Attempts(a) == Attempts(b) && (a != [] ==> b != [] && Highest(a) == Highest(b))
  {
    SameMembers(a, b);
    if a != [] {
      HighestMeaning(a);
      HighestMeaning(b);
    }
  }

  lemma CompletedReordered(a: seq<RunRecord>, b: seq<RunRecord>, n: nat)
    requires multiset(a) == multiset(b)
    ensures Completed(a, n) == Completed(b, n)
  {
    AttemptsReordered(a, b);
    forall attempt: u32 ensures AttemptComplete(Group(a, attempt), n) == AttemptComplete(Group(b, attempt), n) {
      WhereReordered(a, b, OfAttempt(attempt));
      CompleteReordered(Group(a, attempt), Group(b, attempt), n);
    }
  }

  lemma HighestPassesReordered(a: seq<RunRecord>, b: seq<RunRecord>, k: ProtocolConstants)
    requires multiset(a) == multiset(b)
    ensures HighestPasses(a, k) == HighestPasses(b, k)
  {
    SameMembers(a, b);
    if a != [] {
      AttemptsReordered(a, b);
      WhereReordered(a, b, OfAttempt(Highest(a)));
      PassesReordered(Group(a, Highest(a)), Group(b, Highest(a)), k.repetitions, k.enforceSpread);
    }
  }

  lemma {:induction false} OffenceReordered(a: seq<RunRecord>, b: seq<RunRecord>, rep: nat, n: nat)
    requires forall r :: r in a <==> r in b
    ensures OffenceFrom(a, rep, n) == OffenceFrom(b, rep, n)
    decreases n + 1 - rep
  {
    if rep <= n {
      assert RepetitionOffence(a, rep) == RepetitionOffence(b, rep);
      OffenceReordered(a, b, rep + 1, n);
    }
  }

  lemma GroupOffenceReordered(a: seq<RunRecord>, b: seq<RunRecord>, n: nat)
    requires multiset(a) == multiset(b)
    ensures GroupOffence(a, n) == GroupOffence(b, n)
  {
    SameMembers(a, b);
    OffenceReordered(a, b, 1, n);
  }

  lemma {:induction false} FirstOffenceReordered(a: seq<RunRecord>, b: seq<RunRecord>, n: nat, from: nat, highest: u32)
    requires multiset(a) == multiset(b)
    ensures FirstOffence(a, n, from, highest) == FirstOffence(b, n, from, highest)
    decreases highest + 1 - from
  {
    if from <= highest {
      FirstOffenceReordered(a, b, n, from + 1, highest);
      CompletedReordered(a, b, n);
      WhereReordered(a, b, OfAttempt(from));
      GroupOffenceReordered(Group(a, from), Group(b, from), n);
    }
  }

  lemma RowsReordered(a: seq<RunRecord>, b: seq<RunRecord>, n: nat, bound: nat)
    requires multiset(a) == multiset(b)
    ensures RowsBelow(a, n, bound) == RowsBelow(b, n, bound)
  {
    SameMembers(a, b);
    CompletedReordered(a, b, n);
    forall r, row ensures Shows(a, n, r, row) == Shows(b, n, r, row) {}
  }

  /** Neither verdict depends on the order the records were read in. */
  lemma VerdictsIgnoreOrder(a: seq<RunRecord>, b: seq<RunRecord>, k: ProtocolConstants)
    requires multiset(a) == multiset(b)
    ensures OutcomeOf(a, k) == OutcomeOf(b, k)
    ensures a != [] ==> b != [] && StateOf(a, k) == StateOf(b, k)
  {
    SameMembers(a, b);
    AttemptsReordered(a, b);
    CompletedReordered(a, b, k.repetitions);
    HighestPassesReordered(a, b, k);
    if a != [] {
      FirstOffenceReordered(a, b, k.repetitions, 0, Highest(a));
      RowsReordered(a, b, k.repetitions, U32_MAX + 1);
    }
  }
}
