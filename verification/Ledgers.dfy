/** What a round of new records does to the standing of a configuration. */
module Ledgers {
  import opened Arith
  import opened RunRecords
  import opened Judgement
  import opened Outcome
  import opened OpenLoop
  import opened Resume

  /** Complete attempts, the first number above every attempt, and whether the highest one passes. */
  datatype Ledger = Ledger(complete: nat, above: nat, passes: bool)

  function LedgerOf(runs: seq<RunRecord>, k: ProtocolConstants): Ledger {
    Ledger(|Completed(runs, k.repetitions)|, if runs == [] then 0 else Highest(runs) + 1, HighestPasses(runs, k))
  }

  lemma {:induction false} WhereConcat(a: seq<RunRecord>, b: seq<RunRecord>, s: Selector)
    ensures Where(a + b, s) == Where(a, s) + Where(b, s)
  {
    if b == [] {
      assert a + b == a;
    } else {
      WhereConcat(a, b[..|b| - 1], s);
      assert (a + b)[..|a + b| - 1] == a + b[..|b| - 1];
    }
  }

  lemma {:induction false} WhereAll(runs: seq<RunRecord>, s: Selector)
    requires forall r | r in runs :: s.Takes(r)
    ensures Where(runs, s) == runs
  {
    if runs != [] {
      assert runs == runs[..|runs| - 1] + [runs[|runs| - 1]];
      assert s.Takes(runs[|runs| - 1]);
      WhereAll(runs[..|runs| - 1], s);
    }
  }

  lemma {:induction false} WhereNone(runs: seq<RunRecord>, s: Selector)
    requires forall r | r in runs :: !s.Takes(r)
    ensures Where(runs, s) == []
  {
    if runs != [] {
      assert !s.Takes(runs[|runs| - 1]);
      WhereNone(runs[..|runs| - 1], s);
    }
  }

  /** All records of `more` belong to attempt `a`, which is above every attempt of `runs`. */
  ghost predicate Above(runs: seq<RunRecord>, more: seq<RunRecord>, a: u32) {
    (forall r | r in runs :: r.attempt < a) && (forall r | r in more :: r.attempt == a)
  }

  lemma GroupsAbove(runs: seq<RunRecord>, more: seq<RunRecord>, a: u32, b: u32)
    requires Above(runs, more, a)
    ensures Group(runs + more, b) == if a == b then more else Group(runs, b)
  {
    WhereConcat(runs, more, OfAttempt(b));
    if a == b {
      WhereNone(runs, OfAttempt(b));
      WhereAll(more, OfAttempt(b));
    } else {
      WhereNone(more, OfAttempt(b));
    }
  }

  lemma AttemptsAbove(runs: seq<RunRecord>, more: seq<RunRecord>, a: u32)
    requires Above(runs, more, a) && more != []
    ensures Attempts(runs + more) == Attempts(runs) + {a} && a !in Attempts(runs)
    ensures Highest(runs + more) == a
  {
    assert more[0] in runs + more;
    forall b ensures b in Attempts(runs + more) <==> b in Attempts(runs) || b == a {
      assert forall x | x in runs :: x in runs + more;
    }
    HighestMeaning(runs + more);
  }

  lemma CompletedAbove(runs: seq<RunRecord>, more: seq<RunRecord>, a: u32, n: nat)
    requires Above(runs, more, a) && more != []
    ensures a !in Completed(runs, n)
    ensures Completed(runs + more, n) == Completed(runs, n) + if AttemptComplete(more, n) then {a} else {}
  {
    AttemptsAbove(runs, more, a);
    forall b: u32
      ensures b in Completed(runs + more, n) <==> b in Completed(runs, n) || (b == a && AttemptComplete(more, n))
    {
      GroupsAbove(runs, more, a, b);
    }
  }

  /** A new attempt adds at most one complete attempt, and decides the verdict. */
  lemma LedgerStep(runs: seq<RunRecord>, more: seq<RunRecord>, a: u32, k: ProtocolConstants)
    requires Above(runs, more, a) && more != []
    ensures LedgerOf(runs + more, k)
         == Ledger(LedgerOf(runs, k).complete + (if AttemptComplete(more, k.repetitions) then 1 else 0), a + 1,
                   ConfigPasses(more, k.repetitions, k.enforceSpread))
  {
    CompletedAbove(runs, more, a, k.repetitions);
    AttemptsAbove(runs, more, a);
    PassesAbove(runs, more, a, k);
  }

  lemma PassesAbove(runs: seq<RunRecord>, more: seq<RunRecord>, a: u32, k: ProtocolConstants)
    requires Above(runs, more, a) && more != []
    ensures HighestPasses(runs + more, k) == ConfigPasses(more, k.repetitions, k.enforceSpread)
  {
    AttemptsAbove(runs, more, a);
    GroupsAbove(runs, more, a, a);
  }

  lemma BelowAbove(runs: seq<RunRecord>, a: u32, k: ProtocolConstants)
    requires LedgerOf(runs, k).above <= a
    ensures forall r | r in runs :: r.attempt < a
  {
    if runs != [] {
      HighestMeaning(runs);
      forall r | r in runs ensures r.attempt < a { assert r.attempt in Attempts(runs); }
    }
  }

  /** A spent budget without a pass is classified as not sustained or exhausted. */
  lemma SpentIsClassified(runs: seq<RunRecord>, k: ProtocolConstants)
    requires LedgerOf(runs, k).complete >= k.maxConfigAttempts >= 1 && !LedgerOf(runs, k).passes
    ensures OutcomeOf(runs, k).NotSustained? || OutcomeOf(runs, k).Exhausted?
  {
    assert runs == [] ==> Completed(runs, k.repetitions) == {};
  }

  // ---------------------------------------------------------------- the budget of one configuration

  /** The standing of a pending configuration with `left` attempts to run, the next numbered `next`. */
  predicate Budgeted(l: Ledger, left: nat, next: nat, max: nat, base: nat, overflowed: bool) {
    && (left > 0 ==> l.above <= next)
    && !l.passes
    && l.complete + left <= Max(max, base)
    && (!overflowed ==> l.complete + left >= max)
  }

  /** What a resumed session grants a configuration. */
  function Grant(plan: map<ConfigKey, ResumeState>, key: ConfigKey, max: u32): u32 {
    if key in plan && plan[key].NextAttempt? then plan[key].remaining else max
  }

  function FirstAttempt(plan: map<ConfigKey, ResumeState>, key: ConfigKey): u32 {
    if key in plan && plan[key].NextAttempt? then Max(plan[key].attempt, 1) else 1
  }

  /** The plan is up to date with the records of one configuration. */
  ghost predicate UpToDate(plan: map<ConfigKey, ResumeState>, key: ConfigKey, runs: seq<RunRecord>,
                           k: ProtocolConstants) {
    && (key in plan <==> runs != [])
    && (runs != [] ==> plan[key] == StateOf(runs, k))
  }

  lemma GrantIsBudgeted(plan: map<ConfigKey, ResumeState>, key: ConfigKey, runs: seq<RunRecord>, k: ProtocolConstants,
                        base: nat)
    requires UpToDate(plan, key, runs, k) && !(key in plan && plan[key].HasPassed?)
    requires LedgerOf(runs, k).complete <= Max(k.maxConfigAttempts, base)
    ensures Budgeted(LedgerOf(runs, k), Grant(plan, key, k.maxConfigAttempts), FirstAttempt(plan, key),
                     k.maxConfigAttempts, base, LedgerOf(runs, k).above > U32_MAX)
    ensures Grant(plan, key, k.maxConfigAttempts) > 0 ==> FirstAttempt(plan, key) == Max(LedgerOf(runs, k).above, 1)
  {
    assert runs == [] ==> Completed(runs, k.repetitions) == {};
  }
}
